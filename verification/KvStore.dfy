/** The replicated key-value state machine. */
module KvStore {
  import opened Wrappers
  import opened RaftTypes
  import opened RaftSteps

  datatype Outcome =
    | Failed
    | Put(previous: Option<string>, version: nat)
    | Deleted(previous: Option<string>)
    | Nothing

  // ----- what a log leaves in the store -----

  predicate Puts(e: Entry, key: string) {
    e.data.Operation? && e.data.kind == "PUT" && e.data.key == key
  }

  predicate Deletes(e: Entry, key: string) {
    e.data.Operation? && e.data.kind == "DELETE" && e.data.key == key
  }

  /** The last entry that writes or deletes the key. */
  ghost predicate LastOn(log: Log, key: string, i: nat) {
    && i < |log| && (Puts(log[i], key) || Deletes(log[i], key))
    && forall j :: i < j < |log| ==> !Puts(log[j], key) && !Deletes(log[j], key)
  }

  /** The writes of the key since it was last deleted. */
  ghost function Standing(log: Log, key: string): set<nat> {
    set i: nat | i < |log| && Puts(log[i], key) && forall j :: i < j < |log| ==> !Deletes(log[j], key)
  }

  lemma StandingSnoc(log: Log, e: Entry, key: string)
    ensures Standing(log + [e], key) ==
            if Deletes(e, key) then {} else Standing(log, key) + (if Puts(e, key) then {|log|} else {})
  {
    var after := log + [e];
    assert forall i :: 0 <= i < |log| ==> after[i] == log[i];
    assert after[|log|] == e;
  }

  lemma LastOnSnoc(log: Log, e: Entry, key: string, i: nat)
    ensures LastOn(log + [e], key, i) <==>
            if Puts(e, key) || Deletes(e, key) then i == |log| else LastOn(log, key, i)
  {
    var after := log + [e];
    assert forall i :: 0 <= i < |log| ==> after[i] == log[i];
    assert after[|log|] == e;
  }

  /** What one entry does to one key. */
  lemma ExecuteAt(s: Store, e: Entry, key: string)
    requires key in s.version <==> key in s.data
    ensures var t := Execute(s, e);
            if Puts(e, key) then key in t.data && t.data[key] == e.data.value
            else if Deletes(e, key) then key !in t.data
            else (key in t.data <==> key in s.data) && (key in s.data ==> t.data[key] == s.data[key])
    ensures var t := Execute(s, e);
            && (key in t.version <==> key in t.data)
            && (key in t.version ==>
                t.version[key] == (if key in s.version then s.version[key] else 0) + (if Puts(e, key) then 1 else 0))
  {}

  lemma {:induction false} Versions(log: Log, key: string)
    ensures var s := ExecuteAll(log);
            && (key in s.version <==> key in s.data)
            && |Standing(log, key)| == if key in s.version then s.version[key] else 0
  {
    if log != [] {
      var past, e := log[..|log| - 1], log[|log| - 1];
      assert log == past + [e];
      Versions(past, key);
      ExecuteAt(ExecuteAll(past), e, key);
      StandingSnoc(past, e, key);
    }
  }

  lemma {:induction false} LastDecides(log: Log, key: string, i: nat)
    requires LastOn(log, key, i)
    ensures key in ExecuteAll(log).data <==> Puts(log[i], key)
    ensures Puts(log[i], key) ==> ExecuteAll(log).data[key] == log[i].data.value
  {
    var past, e := log[..|log| - 1], log[|log| - 1];
    assert log == past + [e];
    LastOnSnoc(past, e, key, i);
    Versions(past, key);
    ExecuteAt(ExecuteAll(past), e, key);
    if i < |past| { LastDecides(past, key, i); }
  }

  lemma {:induction false} NamedOnce(log: Log, key: string)
    requires key in ExecuteAll(log).data
    ensures exists i: nat :: LastOn(log, key, i)
  {
    var past, e := log[..|log| - 1], log[|log| - 1];
    assert log == past + [e];
    Versions(past, key);
    ExecuteAt(ExecuteAll(past), e, key);
    if Puts(e, key) {
      LastOnSnoc(past, e, key, |past|);
    } else {
      NamedOnce(past, key);
      var i: nat :| LastOn(past, key, i);
      LastOnSnoc(past, e, key, i);
    }
  }

  /** After a log is executed a key has a value if and only if the last entry that writes or deletes it is a write. The
      value is the one that entry writes, and the version counts the writes since the key was last deleted. */
  lemma StoreHolds(log: Log, key: string)
    ensures key in ExecuteAll(log).data <==> exists i: nat :: LastOn(log, key, i) && Puts(log[i], key)
    ensures forall i: nat :: LastOn(log, key, i) && Puts(log[i], key) ==>
              key in ExecuteAll(log).data && ExecuteAll(log).data[key] == log[i].data.value
    ensures key in ExecuteAll(log).version <==> key in ExecuteAll(log).data
    ensures key in ExecuteAll(log).data ==> ExecuteAll(log).version[key] == |Standing(log, key)|
  {
    Versions(log, key);
    forall i: nat | LastOn(log, key, i)
      ensures key in ExecuteAll(log).data <==> Puts(log[i], key)
      ensures Puts(log[i], key) ==> ExecuteAll(log).data[key] == log[i].data.value
    {
      LastDecides(log, key, i);
    }
    if key in ExecuteAll(log).data { NamedOnce(log, key); }
  }

  // ----- the state machine -----

  class StateMachine {
    var data: map<string, string>
    var version: map<string, nat>

    constructor ()
      ensures Contents() == EMPTY_STORE
    {
      data, version := map[], map[];
    }

    function Contents(): Store
      reads this
    {
      Store(data, version)
    }

    method Apply(entry: Entry) returns (r: Outcome)
      modifies this
      ensures Contents() == Execute(old(Contents()), entry)
      ensures entry.data.Garbled? ==> r == Failed
      ensures entry.data.Operation? ==>
                var was := if entry.data.key in old(data) then Some(old(data)[entry.data.key]) else None;
                if entry.data.kind == "PUT" then r == Put(was, version[entry.data.key])
                else if entry.data.kind == "DELETE" then r == Deleted(was)
                else r == if entry.data.kind == "NOOP" then Nothing else Failed
    {
      match entry.data
      case Garbled => r := Failed;
      case Operation(kind, key, value) =>
        if kind == "PUT" {
          r := ApplyPut(key, value);
        } else if kind == "DELETE" {
          r := ApplyDelete(key);
        } else if kind == "NOOP" {
          r := Nothing;
        } else {
          r := Failed;
        }
    }

    method ApplyPut(key: string, value: string) returns (r: Outcome)
      modifies this
      ensures data == old(data)[key := value]
      ensures version == old(version)[key := if key in old(version) then old(version)[key] + 1 else 1]
      ensures r == Put(if key in old(data) then Some(old(data)[key]) else None, version[key])
    {
      var previous := if key in data then Some(data[key]) else None;
      data := data[key := value];
      if key in version {
        version := version[key := version[key] + 1];
      } else {
        version := version[key := 1];
      }
      r := Put(previous, version[key]);
    }

    method ApplyDelete(key: string) returns (r: Outcome)
      modifies this
      ensures if key in old(data) then data == old(data) - {key} && version == old(version) - {key}
              else data == old(data) && version == old(version)
      ensures r == Deleted(if key in old(data) then Some(old(data)[key]) else None)
    {
      if key in data {
        r := Deleted(Some(data[key]));
        data := data - {key};
        version := version - {key};
      } else {
        r := Deleted(None);
      }
    }
  }
}
