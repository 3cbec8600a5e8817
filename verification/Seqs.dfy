/** Filtering, first occurrences and sorting of sequences. */
module Seqs {

  function Filter<T>(f: T -> bool, s: seq<T>): seq<T> {
    if s == [] then [] else (if f(s[0]) then [s[0]] else []) + Filter(f, s[1..])
  }

  lemma FilterCons<T>(f: T -> bool, x: T, s: seq<T>)
    ensures Filter(f, [x] + s) == (if f(x) then [x] else []) + Filter(f, s)
  {
    assert ([x] + s)[1..] == s;
  }

  lemma {:induction false} FilterConcat<T>(f: T -> bool, a: seq<T>, b: seq<T>)
    ensures Filter(f, a + b) == Filter(f, a) + Filter(f, b)
  {
    if a == [] {
      assert a + b == b;
    } else {
      FilterConcat(f, a[1..], b);
      FilterCons(f, a[0], a[1..]);
      FilterCons(f, a[0], a[1..] + b);
      assert a == [a[0]] + a[1..] && a + b == [a[0]] + (a[1..] + b);
    }
  }

  lemma FilterSnoc<T>(f: T -> bool, s: seq<T>, x: T)
    ensures Filter(f, s + [x]) == if f(x) then Filter(f, s) + [x] else Filter(f, s)
  {
    FilterConcat(f, s, [x]);
    assert Filter(f, [x]) == if f(x) then [x] else [];
  }

  lemma {:induction false} FilterMembers<T>(f: T -> bool, s: seq<T>)
    ensures forall x :: x in Filter(f, s) <==> x in s && f(x)
  {
    if s != [] {
      assert s == [s[0]] + s[1..];
      FilterMembers(f, s[1..]);
    }
  }

  lemma {:induction false} FilterSame<T>(f: T -> bool, g: T -> bool, s: seq<T>)
    requires forall x :: x in s ==> f(x) == g(x)
    ensures Filter(f, s) == Filter(g, s)
  {
    if s != [] {
      assert s[0] in s;
      FilterSame(f, g, s[1..]);
    }
  }

  lemma {:induction false} FilterSwap<T>(f: T -> bool, g: T -> bool, s: seq<T>)
    ensures Filter(f, Filter(g, s)) == Filter(g, Filter(f, s))
  {
    if s != [] {
      FilterSwap(f, g, s[1..]);
      FilterConcat(f, if g(s[0]) then [s[0]] else [], Filter(g, s[1..]));
      FilterConcat(g, if f(s[0]) then [s[0]] else [], Filter(f, s[1..]));
    }
  }

  lemma {:induction false} FilterAll<T>(f: T -> bool, s: seq<T>)
    requires forall x :: x in s ==> f(x)
    ensures Filter(f, s) == s
  {
    if s != [] {
      assert s[0] in s;
      FilterAll(f, s[1..]);
    }
  }

  lemma {:induction false} FilterNone<T>(f: T -> bool, s: seq<T>)
    requires forall x :: x in s ==> !f(x)
    ensures Filter(f, s) == []
  {
    if s != [] {
      assert s[0] in s;
      FilterNone(f, s[1..]);
    }
  }

  lemma {:induction false} FilterCount<T>(f: T -> bool, s: seq<T>, x: T)
    ensures multiset(Filter(f, s))[x] == if f(x) then multiset(s)[x] else 0
  {
    if s != [] {
      assert s == [s[0]] + s[1..];
      FilterCount(f, s[1..], x);
    }
  }

  // ----- first occurrences -----

  /** Each element where it first occurs. */
  function FirstSeen(s: seq<string>): seq<string> {
    if s == [] then [] else
    var past := FirstSeen(s[..|s| - 1]);
    if s[|s| - 1] in past then past else past + [s[|s| - 1]]
  }

  ghost predicate Unique<T>(s: seq<T>) {
    forall i, j :: 0 <= i < j < |s| ==> s[i] != s[j]
  }

  lemma {:induction false} FilterUnique<T>(f: T -> bool, s: seq<T>)
    requires Unique(s)
    ensures Unique(Filter(f, s))
  {
    if s != [] {
      FilterUnique(f, s[1..]);
      FilterMembers(f, s[1..]);
      assert s[0] !in s[1..];
    }
  }

  lemma {:induction false} UniqueSize<T>(s: seq<T>, members: set<T>)
    requires Unique(s) && forall x :: x in s <==> x in members
    ensures |s| == |members|
  {
    if s != [] {
      assert s == [s[0]] + s[1..];
      assert s[0] !in s[1..];
      UniqueSize(s[1..], members - {s[0]});
    } else {
      assert members == {};
    }
  }

  lemma {:induction false} SeenMembers(s: seq<string>)
    ensures Unique(FirstSeen(s)) && forall x :: x in FirstSeen(s) <==> x in s
  {
    if s != [] {
      SeenMembers(s[..|s| - 1]);
      assert s == s[..|s| - 1] + [s[|s| - 1]];
    }
  }

  lemma SeenSnoc(past: seq<string>, last: string)
    ensures FirstSeen(past + [last]) == if last in FirstSeen(past) then FirstSeen(past) else FirstSeen(past) + [last]
  {
    assert (past + [last])[..|past|] == past;
  }

  lemma {:induction false} SeenFilter(f: string -> bool, s: seq<string>)
    ensures FirstSeen(Filter(f, s)) == Filter(f, FirstSeen(s))
    decreases |s|
  {
    if s != [] {
      var past, last := s[..|s| - 1], s[|s| - 1];
      var seen := FirstSeen(past);
      SeenFilter(f, past);
      assert s == past + [last];
      FilterSnoc(f, past, last);
      FilterSnoc(f, seen, last);
      FilterMembers(f, seen);
      if f(last) { SeenSnoc(Filter(f, past), last); }
    }
  }

  /** Once everything was seen, the rest adds nothing. */
  lemma {:induction false} SeenEnough(s: seq<string>, t: seq<string>)
    requires forall x :: x in t ==> x in s
    ensures FirstSeen(s + t) == FirstSeen(s)
    decreases |t|
  {
    if t == [] {
      assert s + t == s;
    } else {
      var past, last := t[..|t| - 1], t[|t| - 1];
      SeenEnough(s, past);
      assert (s + t)[..|s + t| - 1] == s + past;
      assert last in t;
      SeenMembers(s);
    }
  }

  /** What was seen first stays first. */
  lemma {:induction false} SeenPrefix(s: seq<string>, t: seq<string>)
    ensures FirstSeen(s) <= FirstSeen(s + t)
    decreases |t|
  {
    if t == [] {
      assert s + t == s;
    } else {
      var past, last := t[..|t| - 1], t[|t| - 1];
      SeenPrefix(s, past);
      assert (s + t)[..|s + t| - 1] == s + past;
    }
  }

  lemma SeenAt(s: seq<string>, i: nat) returns (a: nat)
    requires i < |FirstSeen(s)|
    ensures a < |s| && s[a] == FirstSeen(s)[i]
  {
    SeenMembers(s);
    var x := FirstSeen(s)[i];
    assert x in FirstSeen(s);
    a :| a < |s| && s[a] == x;
  }

  /** What comes earlier among the first occurrences occurs before every occurrence of what comes later. */
  lemma {:induction false} SeenOrder(s: seq<string>, i: nat, j: nat) returns (a: nat)
    requires i < j < |FirstSeen(s)|
    ensures a < |s| && s[a] == FirstSeen(s)[i] && forall b :: 0 <= b <= a ==> s[b] != FirstSeen(s)[j]
    decreases |s|
  {
    var past, last := s[..|s| - 1], s[|s| - 1];
    assert s == past + [last];
    SeenMembers(past);
    SeenMembers(s);
    if j < |FirstSeen(past)| {
      a := SeenOrder(past, i, j);
    } else {
      a := SeenAt(past, i);
      forall b | 0 <= b <= a ensures s[b] != last {
        assert past[b] in past;
      }
    }
  }

  // ----- sorting -----

  ghost predicate AtMost(x: int, s: seq<int>) {
    forall y :: y in s ==> x <= y
  }

  ghost predicate Ascending(s: seq<int>) {
    s == [] || (AtMost(s[0], s[1..]) && Ascending(s[1..]))
  }

  ghost predicate Strict(s: seq<int>) {
    Ascending(s) && Unique(s)
  }

  lemma {:induction false} AscendingAt(s: seq<int>, i: nat, j: nat)
    requires Ascending(s) && i < j < |s|
    ensures s[i] <= s[j]
  {
    if i == 0 {
      assert s[1..][j - 1] in s[1..];
    } else {
      AscendingAt(s[1..], i - 1, j - 1);
    }
  }

  lemma SameMembers(a: seq<int>, m: multiset<int>)
    requires multiset(a) == m
    ensures forall x :: x in a <==> x in m
  {
    assert forall x :: x in a <==> x in multiset(a);
  }

  function Insert(x: int, s: seq<int>): (r: seq<int>)
    ensures multiset(r) == multiset(s) + multiset{x}
  {
    if s == [] || x <= s[0] then [x] + s
    else
      assert s == [s[0]] + s[1..];
      [s[0]] + Insert(x, s[1..])
  }

  lemma {:induction false} InsertAscending(x: int, s: seq<int>)
    requires Ascending(s)
    ensures Ascending(Insert(x, s))
  {
    if s != [] && x > s[0] {
      InsertAscending(x, s[1..]);
      SameMembers(Insert(x, s[1..]), multiset(s[1..]) + multiset{x});
      SameMembers(s[1..], multiset(s[1..]));
      assert Insert(x, s)[1..] == Insert(x, s[1..]);
    } else {
      assert ([x] + s)[1..] == s;
      assert s == [] || s == [s[0]] + s[1..];
    }
  }

  function Sort(s: seq<int>): (r: seq<int>)
    ensures multiset(r) == multiset(s) && Ascending(r)
  {
    if s == [] then []
    else
      assert s == [s[0]] + s[1..];
      InsertAscending(s[0], Sort(s[1..]));
      Insert(s[0], Sort(s[1..]))
  }

  lemma RestCount(s: seq<int>)
    requires s != []
    ensures multiset(s[1..]) == multiset(s) - multiset{s[0]}
  {
    assert s == [s[0]] + s[1..];
  }

  lemma FirstIsLeast(s: seq<int>, x: int)
    requires Ascending(s) && x in s
    ensures s[0] <= x
  {
    assert s == [s[0]] + s[1..];
  }

  lemma SameFirst(a: seq<int>, b: seq<int>)
    requires Ascending(a) && Ascending(b) && multiset(a) == multiset(b) && a != [] && b != []
    ensures a[0] == b[0]
  {
    SameMembers(a, multiset(b));
    SameMembers(b, multiset(b));
    FirstIsLeast(a, b[0]);
    FirstIsLeast(b, a[0]);
  }

  /** A sorted sequence is known by how often each element occurs. */
  lemma {:induction false} AscendingUnique(a: seq<int>, b: seq<int>)
    requires Ascending(a) && Ascending(b) && multiset(a) == multiset(b)
    ensures a == b
  {
    assert |a| == |multiset(a)| == |multiset(b)| == |b|;
    if a != [] {
      SameFirst(a, b);
      RestCount(a);
      RestCount(b);
      AscendingUnique(a[1..], b[1..]);
      assert a == [a[0]] + a[1..] && b == [b[0]] + b[1..];
    }
  }

  lemma {:induction false} FilterAscending(f: int -> bool, s: seq<int>)
    requires Ascending(s)
    ensures Ascending(Filter(f, s))
  {
    if s != [] {
      FilterAscending(f, s[1..]);
      FilterMembers(f, s[1..]);
      if f(s[0]) {
        assert Filter(f, s)[1..] == Filter(f, s[1..]);
      } else {
        assert Filter(f, s) == Filter(f, s[1..]);
      }
    }
  }

  lemma TwiceCounted(s: seq<int>, i: nat, j: nat)
    requires i < j < |s| && s[i] == s[j]
    ensures multiset(s)[s[i]] >= 2
  {
    assert s == s[..j] + s[j..] && s[..j][i] in s[..j] && s[j..][0] in s[j..];
    assert multiset(s)[s[i]] == multiset(s[..j])[s[i]] + multiset(s[j..])[s[i]];
  }

  /** Nothing occurs twice. */
  lemma UniqueCount(s: seq<int>)
    ensures Unique(s) <==> forall x :: multiset(s)[x] <= 1
  {
    if x :| multiset(s)[x] >= 2 { TwoPositions(s, x); }
    if i: nat, j: nat :| i < j < |s| && s[i] == s[j] { TwiceCounted(s, i, j); }
  }

  lemma {:induction false} TwoPositions(s: seq<int>, x: int)
    requires multiset(s)[x] >= 2
    ensures exists i, j :: 0 <= i < j < |s| && s[i] == x && s[j] == x
  {
    assert s == [s[0]] + s[1..];
    if s[0] == x {
      assert x in multiset(s[1..]);
      var j :| 0 <= j < |s[1..]| && s[1..][j] == x;
      assert s[0] == x && s[j + 1] == x;
    } else {
      TwoPositions(s[1..], x);
      var i, j :| 0 <= i < j < |s[1..]| && s[1..][i] == x && s[1..][j] == x;
      assert s[i + 1] == x && s[j + 1] == x;
    }
  }
}
