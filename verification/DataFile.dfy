/** The append-only data file: records written with their lengths, and the scan that reads them back. */
module DataFile {
  import opened Wrappers
  import opened BufferedReader

  type Byte = x: int | 0 <= x < 256

  const WORD: int := 0x1_0000_0000

  datatype Record = Record(key: seq<Byte>, value: seq<Byte>, checksum: nat)

  // ----- writing -----

  /** A number in four bytes, least significant first; larger numbers are cut off. */
  function Word(n: nat): (b: seq<Byte>)
    ensures |b| == 4
  {
    [n % 256, n / 256 % 256, n / 0x1_0000 % 256, n / 0x100_0000 % 256]
  }

  function Number(b: seq<Byte>): nat
    requires |b| == 4
  {
    b[0] as int + 256 * (b[1] as int) + 0x1_0000 * (b[2] as int) + 0x100_0000 * (b[3] as int)
  }

  lemma SplitTwo(n: nat, q: nat, r: nat)
    requires n == 0x1_0000 * q + r && r < 0x1_0000
    ensures n % 0x1_0000 == r
  {}

  lemma SplitThree(n: nat, q: nat, r: nat)
    requires n == 0x100_0000 * q + r && r < 0x100_0000
    ensures n / 0x100_0000 == q
  {}

  lemma SplitFour(n: nat, q: nat, r: nat)
    requires n == WORD * q + r && r < WORD
    ensures n % WORD == r
  {}

  lemma TwoBytes(n: nat)
    ensures n % 0x1_0000 == n % 256 + 256 * (n / 256 % 256)
  {
    var m := n / 256;
    SplitTwo(n, m / 256, 256 * (m % 256) + n % 256);
  }

  lemma TwoHalves(n: nat)
    ensures n % WORD == n % 0x1_0000 + 0x1_0000 * (n / 0x1_0000 % 0x1_0000)
    ensures n / 0x100_0000 == n / 0x1_0000 / 256
  {
    var m, low := n / 0x1_0000, n % 0x1_0000;
    SplitThree(n, m / 256, 0x1_0000 * (m % 256) + low);
    SplitFour(n, m / 0x1_0000, 0x1_0000 * (m % 0x1_0000) + low);
  }

  lemma WordRoundTrip(n: nat)
    ensures Number(Word(n)) == n % WORD
  {
    TwoHalves(n);
    TwoBytes(n);
    TwoBytes(n / 0x1_0000);
  }

  function Encode(r: Record): seq<Byte> {
    Word(|r.key|) + r.key + Word(|r.value|) + r.value + Word(r.checksum)
  }

  /** The four bytes from a place on are those of a number, the least significant first. */
  predicate NumberAt(code: seq<Byte>, at: nat, n: nat) {
    && at + 4 <= |code| && code[at] == n % 0x100 && code[at + 1] == n / 0x100 % 0x100
    && code[at + 2] == n / 0x1_0000 % 0x100 && code[at + 3] == n / 0x100_0000 % 0x100
  }

  /** Where the parts of a record stand: the length of the key, the key, the length of the value, the value, and the
      checksum. */
  lemma RecordLayout(x: Record)
    ensures var code, k, v := Encode(x), |x.key|, |x.value|;
            && |code| == k + v + 12 && code[4..4 + k] == x.key && code[k + 8..k + 8 + v] == x.value
            && NumberAt(code, 0, k) && NumberAt(code, k + 4, v) && NumberAt(code, k + v + 8, x.checksum)
  {}

  /** How many bytes a record takes. */
  function Size(r: Record): nat {
    4 + |r.key| + 4 + |r.value| + 4
  }

  function TotalSize(records: seq<Record>): nat {
    if records == [] then 0 else Size(records[0]) + TotalSize(records[1..])
  }

  function EncodeAll(records: seq<Record>): seq<Byte> {
    if records == [] then [] else Encode(records[0]) + EncodeAll(records[1..])
  }

  lemma {:induction false} EncodedSize(records: seq<Record>)
    ensures |EncodeAll(records)| == TotalSize(records)
  {
    if records != [] { EncodedSize(records[1..]); }
  }

  // ----- reading -----

  datatype Read<T> = Ended | Broken | Got(value: T, reader: Reader)

  /** A number is read in full: all four bytes, or the end of the file, or an error inside it. */
  function ReadWord(file: seq<Byte>, r: Reader): (w: Read<nat>)
    requires Sane(|file|, r)
    ensures w.Got? ==> Sane(|file|, w.reader) && w.reader.pos == r.pos + 4
  {
    var g := WordRead(|file|, r);
    if g.n == 0 then Ended
    else if g.n < 4 then Broken
    else Got(Number(file[r.pos..r.pos + 4]), g.next)
  }

  function Zeros(n: nat): seq<Byte> {
    seq(n, (i: nat) => 0)
  }

  /** A plain read into a fresh buffer: what was not given stays zero, and only what was given is passed over. */
  function ReadSome(file: seq<Byte>, r: Reader, want: nat): (b: Read<seq<Byte>>)
    requires Sane(|file|, r)
    ensures b.Got? ==> Sane(|file|, b.reader) && r.pos <= b.reader.pos && |b.value| == want
  {
    var g := PlainRead(|file|, r, want);
    if want > 0 && g.n == 0 then Broken
    else Got(file[r.pos..r.pos + g.n] + Zeros(want - g.n), g.next)
  }

  /** A length and then that many bytes. */
  function ReadField(file: seq<Byte>, r: Reader): (b: Read<seq<Byte>>)
    requires Sane(|file|, r)
    ensures b.Got? ==> Sane(|file|, b.reader) && r.pos + 4 <= b.reader.pos
  {
    var len := ReadWord(file, r);
    if len.Ended? then Ended
    else if len.Broken? then Broken
    else ReadSome(file, len.reader, len.value)
  }

  function ReadRecord(file: seq<Byte>, r: Reader): (x: Read<Record>)
    requires Sane(|file|, r)
    ensures x.Got? ==> Sane(|file|, x.reader) && r.pos < x.reader.pos
  {
    var key := ReadField(file, r);
    if key.Ended? then Ended
    else if key.Broken? then Broken
    else
      var value := ReadField(file, key.reader);
      if !value.Got? then Broken else
      var checksum := ReadWord(file, value.reader);
      if !checksum.Got? then Broken else
      Got(Record(key.value, value.value, checksum.value), checksum.reader)
  }

  /** All the records the reader still gets, if the file reads to its end. */
  function DecodeFrom(file: seq<Byte>, r: Reader): Option<seq<Record>>
    requires Sane(|file|, r)
    decreases |file| - r.pos
  {
    match ReadRecord(file, r)
    case Ended => Some([])
    case Broken => None
    case Got(x, next) =>
      match DecodeFrom(file, next)
      case None => None
      case Some(rest) => Some([x] + rest)
  }

  datatype Found = Value(value: seq<Byte>) | NotFound | Failure

  function ScanFrom(file: seq<Byte>, r: Reader, key: seq<Byte>): Found
    requires Sane(|file|, r)
    decreases |file| - r.pos
  {
    match ReadRecord(file, r)
    case Ended => NotFound
    case Broken => Failure
    case Got(x, next) => if x.key == key then Value(x.value) else ScanFrom(file, next, key)
  }

  /** All the records of a file, read through a new buffered reader. */
  function Decode(file: seq<Byte>): Option<seq<Record>> {
    DecodeFrom(file, START)
  }

  function ScanFile(file: seq<Byte>, key: seq<Byte>): Found {
    ScanFrom(file, START, key)
  }

  // ----- the buffer along the records, from their lengths alone -----

  predicate FieldWhole(size: nat, r: Reader, len: nat)
    requires Sane(size, r)
  {
    !FallsShort(WordRead(size, r).next, len)
  }

  function FieldEnd(size: nat, r: Reader, len: nat): (e: Reader)
    requires Sane(size, r)
    ensures Sane(size, e)
  {
    PlainRead(size, WordRead(size, r).next, len).next
  }

  /** Plain reads give the whole key and the whole value. */
  predicate RecordWhole(size: nat, r: Reader, x: Record)
    requires Sane(size, r)
  {
    FieldWhole(size, r, |x.key|) && FieldWhole(size, FieldEnd(size, r, |x.key|), |x.value|)
  }

  function RecordEnd(size: nat, r: Reader, x: Record): (e: Reader)
    requires Sane(size, r)
    ensures Sane(size, e)
  {
    WordRead(size, FieldEnd(size, FieldEnd(size, r, |x.key|), |x.value|)).next
  }

  /** Plain reads give every key and every value whole. */
  predicate AllWhole(size: nat, r: Reader, records: seq<Record>)
    requires Sane(size, r)
    decreases |records|
  {
    records == []
    || (RecordWhole(size, r, records[0]) && AllWhole(size, RecordEnd(size, r, records[0]), records[1..]))
  }

  lemma WholeFirst(size: nat, r: Reader, records: seq<Record>, next: Reader)
    requires Sane(size, r) && records != [] && next == RecordEnd(size, r, records[0])
    ensures AllWhole(size, r, records) <==> RecordWhole(size, r, records[0]) && AllWhole(size, next, records[1..])
  {}

  // ----- reading what was written -----

  predicate Fits(x: Record) {
    |x.key| < WORD && |x.value| < WORD && x.checksum < WORD
  }

  /** The piece stands in the file at the position. */
  predicate Stands(file: seq<Byte>, pos: nat, piece: seq<Byte>) {
    pos + |piece| <= |file| && file[pos..pos + |piece|] == piece
  }

  lemma StandsTwo(file: seq<Byte>, pos: nat, a: seq<Byte>, b: seq<Byte>)
    requires Stands(file, pos, a + b)
    ensures Stands(file, pos, a) && Stands(file, pos + |a|, b)
  {
    var both := file[pos..pos + |a + b|];
    assert both[..|a|] == a && both[|a|..] == b;
  }

  lemma ReadWordBytes(file: seq<Byte>, r: Reader, b: seq<Byte>)
    requires Sane(|file|, r) && |b| == 4 && Stands(file, r.pos, b)
    ensures ReadWord(file, r) == Got(Number(b), WordRead(|file|, r).next)
  {}

  lemma ReadWordAt(file: seq<Byte>, r: Reader, n: nat)
    requires Sane(|file|, r) && Stands(file, r.pos, Word(n)) && n < WORD
    ensures ReadWord(file, r) == Got(n, WordRead(|file|, r).next)
  {
    ReadWordBytes(file, r, Word(n));
    assert Number(Word(n)) == n by { WordRoundTrip(n); }
  }

  lemma ReadSomeAt(file: seq<Byte>, r: Reader, data: seq<Byte>)
    requires Sane(|file|, r) && Stands(file, r.pos, data) && !FallsShort(r, |data|)
    ensures ReadSome(file, r, |data|) == Got(data, PlainRead(|file|, r, |data|).next)
    ensures PlainRead(|file|, r, |data|).next.pos == r.pos + |data|
  {
    PlainReadWhole(|file|, r, |data|);
    assert data + Zeros(0) == data;
  }

  lemma ReadFieldAt(file: seq<Byte>, r: Reader, data: seq<Byte>)
    requires Sane(|file|, r) && Stands(file, r.pos, Word(|data|) + data) && |data| < WORD
    requires FieldWhole(|file|, r, |data|)
    ensures ReadField(file, r) == Got(data, FieldEnd(|file|, r, |data|))
    ensures FieldEnd(|file|, r, |data|).pos == r.pos + 4 + |data|
  {
    StandsTwo(file, r.pos, Word(|data|), data);
    ReadWordAt(file, r, |data|);
    ReadSomeAt(file, WordRead(|file|, r).next, data);
  }

  /** A field passes over at most the bytes it takes to write it, and over all of them only if it was whole. */
  lemma FieldBound(file: seq<Byte>, r: Reader)
    requires Sane(|file|, r) && ReadField(file, r).Got?
    ensures var got := ReadField(file, r);
            && got.reader == FieldEnd(|file|, r, |got.value|) && got.reader.pos <= r.pos + 4 + |got.value|
            && (got.reader.pos == r.pos + 4 + |got.value| ==> FieldWhole(|file|, r, |got.value|))
  {
    var start, got := WordRead(|file|, r).next, ReadField(file, r);
    if got.reader.pos == r.pos + 4 + |got.value| { PlainReadWhole(|file|, start, |got.value|); }
  }

  function Fields(x: Record): seq<Byte> {
    (Word(|x.key|) + x.key) + (Word(|x.value|) + x.value)
  }

  lemma Pieces(file: seq<Byte>, pos: nat, x: Record)
    requires Stands(file, pos, Encode(x))
    ensures Stands(file, pos, Word(|x.key|) + x.key) && Stands(file, pos + 4 + |x.key|, Word(|x.value|) + x.value)
    ensures Stands(file, pos + 4 + |x.key| + 4 + |x.value|, Word(x.checksum))
  {
    assert Encode(x) == Fields(x) + Word(x.checksum);
    StandsTwo(file, pos, Fields(x), Word(x.checksum));
    StandsTwo(file, pos, Word(|x.key|) + x.key, Word(|x.value|) + x.value);
  }

  /** A record is its two fields and its checksum. */
  lemma RecordRead(file: seq<Byte>, r: Reader, x: Record, second: Reader, third: Reader, next: Reader)
    requires Sane(|file|, r) && ReadField(file, r) == Got(x.key, second)
    requires ReadField(file, second) == Got(x.value, third) && ReadWord(file, third) == Got(x.checksum, next)
    ensures ReadRecord(file, r) == Got(x, next)
  {}

  lemma ReadFieldsAt(file: seq<Byte>, r: Reader, x: Record, second: Reader, third: Reader)
    requires Sane(|file|, r) && Stands(file, r.pos, Encode(x)) && Fits(x) && RecordWhole(|file|, r, x)
    requires second == FieldEnd(|file|, r, |x.key|) && third == FieldEnd(|file|, second, |x.value|)
    ensures ReadField(file, r) == Got(x.key, second) && ReadField(file, second) == Got(x.value, third)
    ensures third.pos == r.pos + 4 + |x.key| + 4 + |x.value|
  {
    Pieces(file, r.pos, x);
    ReadFieldAt(file, r, x.key);
    ReadFieldAt(file, second, x.value);
  }

  lemma ReadRecordAt(file: seq<Byte>, r: Reader, x: Record, next: Reader)
    requires Sane(|file|, r) && Stands(file, r.pos, Encode(x)) && Fits(x) && RecordWhole(|file|, r, x)
    requires next == RecordEnd(|file|, r, x)
    ensures ReadRecord(file, r) == Got(x, next) && next.pos == r.pos + Size(x)
  {
    var second := FieldEnd(|file|, r, |x.key|);
    var third := FieldEnd(|file|, second, |x.value|);
    ReadFieldsAt(file, r, x, second, third);
    Pieces(file, r.pos, x);
    ReadWordAt(file, third, x.checksum);
    RecordRead(file, r, x, second, third, next);
  }

  lemma ReadBound(file: seq<Byte>, r: Reader)
    requires Sane(|file|, r) && ReadRecord(file, r).Got?
    ensures var got := ReadRecord(file, r);
            && got.reader == RecordEnd(|file|, r, got.value) && got.reader.pos <= r.pos + Size(got.value)
            && (got.reader.pos == r.pos + Size(got.value) ==> RecordWhole(|file|, r, got.value))
  {
    FieldBound(file, r);
    FieldBound(file, ReadField(file, r).reader);
  }

  // ----- the whole file -----

  /** From the reader on, the file is exactly these records. */
  ghost predicate Holds(file: seq<Byte>, r: Reader, records: seq<Record>) {
    Sane(|file|, r) && file[r.pos..] == EncodeAll(records) && forall x :: x in records ==> Fits(x)
  }

  lemma HoldsSplits(file: seq<Byte>, pos: nat, first: seq<Byte>, rest: seq<Byte>)
    requires pos <= |file| && file[pos..] == first + rest
    ensures Stands(file, pos, first) && file[pos + |first|..] == rest
  {
    assert file[pos..][..|first|] == first && file[pos..][|first|..] == rest;
  }

  lemma FitsRest(records: seq<Record>)
    requires records != [] && forall x :: x in records ==> Fits(x)
    ensures Fits(records[0]) && forall x :: x in records[1..] ==> Fits(x)
  {
    assert records[0] in records && forall x :: x in records[1..] ==> x in records;
  }

  lemma HoldsFirst(file: seq<Byte>, r: Reader, records: seq<Record>) returns (next: Reader)
    requires Holds(file, r, records) && records != [] && RecordWhole(|file|, r, records[0])
    ensures next == RecordEnd(|file|, r, records[0]) && ReadRecord(file, r) == Got(records[0], next)
    ensures Holds(file, next, records[1..])
  {
    next := RecordEnd(|file|, r, records[0]);
    FitsRest(records);
    HoldsSplits(file, r.pos, Encode(records[0]), EncodeAll(records[1..]));
    ReadRecordAt(file, r, records[0], next);
  }

  /** A record that is whole is read, and what follows it is still to read. */
  lemma ReadsFirst(file: seq<Byte>, r: Reader, records: seq<Record>) returns (next: Reader)
    requires Holds(file, r, records) && AllWhole(|file|, r, records) && records != []
    ensures ReadRecord(file, r) == Got(records[0], next)
    ensures Holds(file, next, records[1..]) && AllWhole(|file|, next, records[1..])
  {
    WholeFirst(|file|, r, records, RecordEnd(|file|, r, records[0]));
    next := HoldsFirst(file, r, records);
  }

  lemma DecodeStep(file: seq<Byte>, r: Reader, records: seq<Record>, next: Reader)
    requires Sane(|file|, r) && records != [] && ReadRecord(file, r) == Got(records[0], next)
    requires DecodeFrom(file, next) == Some(records[1..])
    ensures DecodeFrom(file, r) == Some(records)
  {
    assert records == [records[0]] + records[1..];
  }

  lemma DecodeEnd(file: seq<Byte>, r: Reader)
    requires Holds(file, r, [])
    ensures DecodeFrom(file, r) == Some([])
  {
    assert |file[r.pos..]| == 0;
  }

  lemma {:induction false} FileDecodes(file: seq<Byte>, r: Reader, records: seq<Record>)
    requires Holds(file, r, records) && AllWhole(|file|, r, records)
    ensures DecodeFrom(file, r) == Some(records)
    decreases |records|
  {
    if records == [] {
      DecodeEnd(file, r);
    } else {
      var next := ReadsFirst(file, r, records);
      FileDecodes(file, next, records[1..]);
      DecodeStep(file, r, records, next);
    }
  }

  lemma DecodeSplits(file: seq<Byte>, r: Reader, records: seq<Record>, x: Record, next: Reader,
                     rest: Option<seq<Record>>)
    requires Sane(|file|, r) && ReadRecord(file, r) == Got(x, next)
    requires DecodeFrom(file, r) == Some(records) && DecodeFrom(file, next) == rest
    ensures rest.Some? && records == [x] + rest.value
  {}

  /** The first record decoded, and the reader after it. */
  lemma DecodeFirst(file: seq<Byte>, r: Reader, records: seq<Record>) returns (next: Reader)
    requires Sane(|file|, r) && DecodeFrom(file, r) == Some(records) && records != []
    ensures ReadRecord(file, r) == Got(records[0], next) && DecodeFrom(file, next) == Some(records[1..])
  {
    var got := ReadRecord(file, r);
    next := got.reader;
    var rest := DecodeFrom(file, next);
    DecodeSplits(file, r, records, got.value, next, rest);
    assert records[1..] == rest.value;
  }

  lemma {:induction false} DecodeBound(file: seq<Byte>, r: Reader, records: seq<Record>)
    requires Sane(|file|, r) && DecodeFrom(file, r) == Some(records)
    ensures |file| - r.pos <= TotalSize(records)
    decreases |records|
  {
    if records != [] {
      var next := DecodeFirst(file, r, records);
      ReadBound(file, r);
      DecodeBound(file, next, records[1..]);
    }
  }

  /** A file of just the length of the records leaves no byte out of the first. */
  lemma FirstWhole(file: seq<Byte>, r: Reader, records: seq<Record>) returns (next: Reader)
    requires Sane(|file|, r) && |file| - r.pos == TotalSize(records) && DecodeFrom(file, r) == Some(records)
    requires records != []
    ensures RecordWhole(|file|, r, records[0]) && next == RecordEnd(|file|, r, records[0])
    ensures |file| - next.pos == TotalSize(records[1..]) && DecodeFrom(file, next) == Some(records[1..])
  {
    next := DecodeFirst(file, r, records);
    ReadBound(file, r);
    DecodeBound(file, next, records[1..]);
  }

  lemma {:induction false} DecodedMeansWhole(file: seq<Byte>, r: Reader, records: seq<Record>)
    requires Sane(|file|, r) && |file| - r.pos == TotalSize(records) && DecodeFrom(file, r) == Some(records)
    ensures AllWhole(|file|, r, records)
    decreases |records|
  {
    if records != [] {
      var next := FirstWhole(file, r, records);
      DecodedMeansWhole(file, next, records[1..]);
    }
  }

  /** Reading a file back gives the records that were written, in order, if and only if no key and no value goes on
      beyond what a plain read gives at once. */
  lemma FileRoundTrip(records: seq<Record>)
    requires forall x :: x in records ==> Fits(x)
    ensures Decode(EncodeAll(records)) == Some(records) <==>
            AllWhole(TotalSize(records), START, records)
  {
    var file := EncodeAll(records);
    EncodedSize(records);
    assert file[0..] == file;
    if AllWhole(|file|, START, records) { FileDecodes(file, START, records); }
    if DecodeFrom(file, START) == Some(records) { DecodedMeansWhole(file, START, records); }
  }

  // ----- scanning -----

  /** The value of the first record with the key. */
  function FirstValue(records: seq<Record>, key: seq<Byte>): Found {
    if records == [] then NotFound
    else if records[0].key == key then Value(records[0].value)
    else FirstValue(records[1..], key)
  }

  /** The records up to the first with the key. */
  function UpTo(records: seq<Record>, key: seq<Byte>): seq<Record> {
    if records == [] then []
    else if records[0].key == key then [records[0]]
    else [records[0]] + UpTo(records[1..], key)
  }

  /** The scan answers with the first record written for the key, and finds nothing if there is none, if the records up
      to that one are whole. */
  lemma {:induction false} ScanFindsFirst(file: seq<Byte>, r: Reader, records: seq<Record>, key: seq<Byte>)
    requires Holds(file, r, records) && AllWhole(|file|, r, UpTo(records, key))
    ensures ScanFrom(file, r, key) == FirstValue(records, key)
    decreases |records|
  {
    if records == [] {
      assert |file[r.pos..]| == 0;
    } else {
      var next := HoldsFirst(file, r, records);
      if records[0].key != key {
        assert UpTo(records, key)[1..] == UpTo(records[1..], key);
        ScanFindsFirst(file, next, records[1..], key);
      }
    }
  }

  /** The numbers written fit in four bytes, and the records up to the first with the key are whole. */
  ghost predicate Scannable(file: seq<Byte>, records: seq<Record>, key: seq<Byte>) {
    (forall x :: x in records ==> Fits(x)) && AllWhole(|file|, START, UpTo(records, key))
  }

  lemma ScanIsRight(file: seq<Byte>, records: seq<Record>, key: seq<Byte>)
    requires file == EncodeAll(records)
    ensures Scannable(file, records, key) ==> ScanFile(file, key) == FirstValue(records, key)
  {
    if Scannable(file, records, key) {
      assert file[0..] == file;
      ScanFindsFirst(file, START, records, key);
    }
  }

  // ----- records shorter than the buffer -----

  predicate Short(x: Record) {
    |x.key| < BUFFER && |x.value| < BUFFER
  }

  /** No multiple of the buffer size lies strictly inside the key or the value of a record written at the position. */
  predicate RecordClear(pos: nat, x: Record) {
    !Crosses(pos + 4, |x.key|) && !Crosses(pos + 4 + |x.key| + 4, |x.value|)
  }

  predicate Clear(pos: nat, records: seq<Record>)
    decreases |records|
  {
    records == [] || (RecordClear(pos, records[0]) && Clear(pos + Size(records[0]), records[1..]))
  }

  lemma ClearFirst(pos: nat, records: seq<Record>)
    requires records != []
    ensures Clear(pos, records) <==> RecordClear(pos, records[0]) && Clear(pos + Size(records[0]), records[1..])
  {}

  lemma FieldAligned(size: nat, r: Reader, len: nat, next: Reader)
    requires Aligned(size, r) && len < BUFFER && r.pos + 4 + len <= size && next == FieldEnd(size, r, len)
    ensures FieldWhole(size, r, len) <==> !Crosses(r.pos + 4, len)
    ensures Aligned(size, next) && (FieldWhole(size, r, len) ==> next.pos == r.pos + 4 + len)
  {
    var start := WordRead(size, r).next;
    WordReadAligned(size, r);
    AlignedFallsShort(size, start, len);
    PlainReadAligned(size, start, len);
    PlainReadWhole(size, start, len);
  }

  /** The second field and the checksum of a record. */
  lemma RestAligned(size: nat, r: Reader, len: nat, next: Reader)
    requires Aligned(size, r) && len < BUFFER && r.pos + 4 + len + 4 <= size
    requires next == WordRead(size, FieldEnd(size, r, len)).next
    ensures FieldWhole(size, r, len) <==> !Crosses(r.pos + 4, len)
    ensures FieldWhole(size, r, len) ==> Aligned(size, next) && next.pos == r.pos + 4 + len + 4
  {
    var end := FieldEnd(size, r, len);
    FieldAligned(size, r, len, end);
    WordReadAligned(size, end);
  }

  lemma RecordAligned(size: nat, r: Reader, x: Record, next: Reader)
    requires Aligned(size, r) && Short(x) && r.pos + Size(x) <= size && next == RecordEnd(size, r, x)
    ensures RecordWhole(size, r, x) <==> RecordClear(r.pos, x)
    ensures RecordWhole(size, r, x) ==> Aligned(size, next) && next.pos == r.pos + Size(x)
  {
    var second := FieldEnd(size, r, |x.key|);
    FieldAligned(size, r, |x.key|, second);
    if !Crosses(r.pos + 4, |x.key|) { RestAligned(size, second, |x.value|, next); }
  }

  lemma TailFits(pos: nat, size: nat, records: seq<Record>)
    requires records != [] && pos + TotalSize(records) <= size && forall x :: x in records ==> Short(x)
    ensures Short(records[0]) && pos + Size(records[0]) + TotalSize(records[1..]) <= size
    ensures pos + Size(records[0]) <= size && forall x :: x in records[1..] ==> Short(x)
  {
    assert records[0] in records && forall x :: x in records[1..] ==> x in records;
  }

  /** Reading the first record leaves a reader from which the rest can be judged alone. */
  lemma FirstRead(size: nat, r: Reader, records: seq<Record>) returns (next: Reader)
    requires Aligned(size, r) && records != [] && Short(records[0]) && r.pos + Size(records[0]) <= size
    ensures Sane(size, next)
    ensures AllWhole(size, r, records) <==> RecordClear(r.pos, records[0]) && AllWhole(size, next, records[1..])
    ensures RecordClear(r.pos, records[0]) ==> Aligned(size, next) && next.pos == r.pos + Size(records[0])
  {
    next := RecordEnd(size, r, records[0]);
    RecordAligned(size, r, records[0], next);
    WholeFirst(size, r, records, next);
  }

  lemma {:induction false} WholeMeansClear(size: nat, r: Reader, records: seq<Record>)
    requires Aligned(size, r) && r.pos + TotalSize(records) <= size && forall x :: x in records ==> Short(x)
    ensures AllWhole(size, r, records) <==> Clear(r.pos, records)
    decreases |records|
  {
    if records != [] {
      TailFits(r.pos, size, records);
      var next := FirstRead(size, r, records);
      ClearFirst(r.pos, records);
      if RecordClear(r.pos, records[0]) { WholeMeansClear(size, next, records[1..]); }
    }
  }

  /** For keys and values shorter than the buffer, a file reads back exactly when no multiple of the buffer size lies
      strictly inside one of them. */
  lemma ShortRoundTrip(records: seq<Record>)
    requires forall x :: x in records ==> Short(x) && x.checksum < WORD
    ensures Decode(EncodeAll(records)) == Some(records) <==> Clear(0, records)
  {
    FileRoundTrip(records);
    WholeMeansClear(TotalSize(records), START, records);
  }

  lemma {:induction false} SmallIsClear(pos: nat, records: seq<Record>)
    requires pos + TotalSize(records) <= BUFFER
    ensures Clear(pos, records) && forall x :: x in records ==> Short(x)
    decreases |records|
  {
    if records != [] {
      assert records == [records[0]] + records[1..];
      SmallIsClear(pos + Size(records[0]), records[1..]);
    }
  }

  lemma {:induction false} UpToSmaller(records: seq<Record>, key: seq<Byte>)
    ensures TotalSize(UpTo(records, key)) <= TotalSize(records)
  {
    if records != [] {
      UpToSmaller(records[1..], key);
      assert UpTo(records, key)[1..] == if records[0].key == key then [] else UpTo(records[1..], key);
    }
  }

  lemma SmallScan(records: seq<Record>, key: seq<Byte>)
    requires TotalSize(records) <= BUFFER && forall x :: x in records ==> Fits(x)
    ensures ScanFile(EncodeAll(records), key) == FirstValue(records, key)
  {
    var file, first := EncodeAll(records), UpTo(records, key);
    EncodedSize(records);
    assert file[0..] == file;
    UpToSmaller(records, key);
    SmallIsClear(0, first);
    WholeMeansClear(|file|, START, first);
    ScanFindsFirst(file, START, records, key);
  }

  /** A file of at most one buffer reads back, and every scan of it is right. */
  lemma SmallFileIsRead(records: seq<Record>, key: seq<Byte>)
    requires TotalSize(records) <= BUFFER && forall x :: x in records ==> x.checksum < WORD
    ensures Decode(EncodeAll(records)) == Some(records)
    ensures ScanFile(EncodeAll(records), key) == FirstValue(records, key)
  {
    SmallIsClear(0, records);
    ShortRoundTrip(records);
    SmallScan(records, key);
  }

  // ----- a record across the end of the buffer -----

  function Ones(n: nat): seq<Byte> {
    seq(n, (i: nat) => 1)
  }

  lemma ScanHit(file: seq<Byte>, r: Reader, x: Record, next: Reader)
    requires Sane(|file|, r) && ReadRecord(file, r) == Got(x, next)
    ensures ScanFrom(file, r, x.key) == Value(x.value)
  {}

  /** Of bytes that a read does not give at once the others come back as zeros. */
  lemma ReadSomeCut(file: seq<Byte>, r: Reader, data: seq<Byte>)
    requires Sane(|file|, r) && Stands(file, r.pos, data) && FallsShort(r, |data|)
    ensures var k := AtOnce(r);
            ReadSome(file, r, |data|) == Got(data[..k] + Zeros(|data| - k), Reader(r.pos + k, r.pos + k))
  {
    var k := AtOnce(r);
    PlainReadShort(|file|, r, |data|);
    assert file[r.pos..r.pos + k] == file[r.pos..r.pos + |data|][..k];
  }

  lemma ReadFieldCut(file: seq<Byte>, r: Reader, data: seq<Byte>, start: Reader)
    requires Sane(|file|, r) && Stands(file, r.pos, Word(|data|) + data) && |data| < WORD
    requires start == WordRead(|file|, r).next && FallsShort(start, |data|)
    ensures var k := AtOnce(start);
            ReadField(file, r) == Got(data[..k] + Zeros(|data| - k), Reader(start.pos + k, start.pos + k))
  {
    StandsTwo(file, r.pos, Word(|data|), data);
    ReadWordAt(file, r, |data|);
    ReadSomeCut(file, start, data);
  }

  /** A record whose value stands from offset 8 on, across offset 4096: the scan finds the key and answers with another
      value. */
  lemma RecordAcrossBuffer()
    ensures var x := Record([], Ones(4096), 0);
            ScanFile(Encode(x), x.key) == Value(x.value[..4088] + Zeros(8)) != Value(x.value)
  {
    var x, second, third := Record([], Ones(4096), 0), Reader(4, 4096), Reader(4096, 4096);
    var file := Encode(x);
    assert file[0..|file|] == file;
    Pieces(file, 0, x);
    ReadFieldAt(file, START, []);
    ReadFieldCut(file, second, x.value, Reader(8, 4096));
    var sum := ReadWord(file, third);
    var seen := Record([], x.value[..4088] + Zeros(8), sum.value);
    RecordRead(file, START, seen, second, third, sum.reader);
    ScanHit(file, START, seen, sum.reader);
    assert seen.value[4095] == 0 && x.value[4095] == 1;
  }

  // ----- reading by the index -----

  /** Where a record was written, and how long its value is. */
  datatype IndexEntry = IndexEntry(offset: int, size: nat, checksum: nat)

  /** So many bytes at the offset, or an error if the file ends before. */
  function ReadAt(file: seq<Byte>, offset: int, size: nat): Option<seq<Byte>> {
    if 0 <= offset && offset + size <= |file| then Some(file[offset..offset + size])
    else if size == 0 <= offset then Some([])
    else None
  }

  /** A read at an offset fails only before the start of the file, or if something is asked for beyond its end. */
  lemma ReadAtExactly(file: seq<Byte>, offset: int, size: nat)
    ensures ReadAt(file, offset, size).None? <==> offset < 0 || (size > 0 && offset + size > |file|)
    ensures ReadAt(file, offset, size).Some? ==>
              var b := ReadAt(file, offset, size).value;
              |b| == size && forall i :: 0 <= i < size ==> b[i] == file[offset + i]
  {}

  lemma {:induction false} EncodeSnoc(records: seq<Record>, r: Record)
    ensures EncodeAll(records + [r]) == EncodeAll(records) + Encode(r)
  {
    if records == [] {
      assert [r][1..] == [];
    } else {
      assert (records + [r])[1..] == records[1..] + [r];
      EncodeSnoc(records[1..], r);
    }
  }

  lemma Concatenated(s: seq<Byte>, a: seq<Byte>, b: seq<Byte>, c: seq<Byte>, d: seq<Byte>, e: seq<Byte>)
    ensures s + a + b + c + d + e == s + (a + b + c + d + e)
  {}

  /** The index keeps the offset of the record, and a read by the index reads the value's length from there: it gives
      the value if and only if the record, which starts with the length of the key, begins with the value. */
  lemma IndexedReadExactly(past: seq<Byte>, x: Record, rest: seq<Byte>)
    ensures ReadAt(past + Encode(x) + rest, |past|, |x.value|) == Some(x.value) <==> x.value <= Encode(x)
  {
    var file, code, n := past + Encode(x) + rest, Encode(x), |x.value|;
    assert n <= |code| && file[|past|..|past| + n] == code[..n];
    assert x.value <= code <==> code[..n] == x.value;
  }

  /** A value that does not begin with the lowest byte of the key's length is never read by the index. */
  lemma IndexedReadIsWrong(past: seq<Byte>, x: Record, rest: seq<Byte>)
    requires x.value != [] && x.value[0] != |x.key| % 256
    ensures ReadAt(past + Encode(x) + rest, |past|, |x.value|) != Some(x.value)
  {
    IndexedReadExactly(past, x, rest);
    assert Encode(x)[0] == Word(|x.key|)[0];
  }

  // ----- the file object -----

  class File {
    var bytes: seq<Byte>
    var size: int
    var entries: nat
    var index: map<seq<Byte>, IndexEntry>
    ghost var records: seq<Record>

    ghost predicate Valid()
      reads this
    {
      bytes == EncodeAll(records) && size == |bytes|
    }

    /** Opening a file finds its length, and nothing else. */
    constructor (bytes: seq<Byte>, ghost records: seq<Record>)
      requires bytes == EncodeAll(records)
      ensures Valid() && this.records == records && entries == 0 && index == map[]
    {
      this.bytes, this.records := bytes, records;
      size, entries, index := |bytes|, 0, map[];
    }

    method Write(key: seq<Byte>, value: seq<Byte>, entry: IndexEntry)
      requires Valid()
      modifies this
      ensures Valid() && records == old(records) + [Record(key, value, entry.checksum)]
      ensures entries == old(entries) + 1 && index == old(index)[key := entry]
    {
      ghost var r := Record(key, value, entry.checksum);
      bytes := bytes + Word(|key|);
      bytes := bytes + key;
      bytes := bytes + Word(|value|);
      bytes := bytes + value;
      bytes := bytes + Word(entry.checksum);
      index := index[key := entry];
      size := size + (4 + |key| + 4 + |value| + 4);
      entries := entries + 1;
      Concatenated(old(bytes), Word(|key|), key, Word(|value|), value, Word(entry.checksum));
      EncodeSnoc(records, r);
      records := records + [r];
    }

    /** The write of the optimizer, which fills in the index entry. */
    method OptimizedWrite(key: seq<Byte>, value: seq<Byte>, checksum: nat)
      requires Valid()
      modifies this
      ensures Valid() && records == old(records) + [Record(key, value, checksum)]
      ensures key in index && var e := index[key];
              ReadAt(bytes, e.offset, e.size) == Some(value) <==> value <= Encode(Record(key, value, checksum))
    {
      Write(key, value, IndexEntry(size, |value|, checksum));
      ghost var x := Record(key, value, checksum);
      EncodeSnoc(old(records), x);
      IndexedReadExactly(old(bytes), x, []);
      assert bytes == old(bytes) + Encode(x) + [];
    }

    /** Looks in the index first, and otherwise reads all records through a new buffered reader. */
    method Scan(key: seq<Byte>) returns (found: Found)
      requires Valid()
      ensures key in index ==>
                var read := ReadAt(bytes, index[key].offset, index[key].size);
                found == if read.Some? then Value(read.value) else Failure
      ensures key !in index ==> found == ScanFile(bytes, key)
      ensures key !in index && Scannable(bytes, records, key) ==> found == FirstValue(records, key)
    {
      if key in index {
        var read := ReadAt(bytes, index[key].offset, index[key].size);
        return if read.Some? then Value(read.value) else Failure;
      }
      ScanIsRight(bytes, records, key);
      var reader := START;
      while true
        invariant Sane(|bytes|, reader) && ScanFrom(bytes, reader, key) == ScanFile(bytes, key)
        decreases |bytes| - reader.pos
      {
        var keyLen := ReadWord(bytes, reader);
        if keyLen.Ended? {
          return NotFound;
        }
        if keyLen.Broken? {
          return Failure;
        }
        var keyBytes := ReadSome(bytes, keyLen.reader, keyLen.value);
        if !keyBytes.Got? {
          return Failure;
        }
        var valueLen := ReadWord(bytes, keyBytes.reader);
        if !valueLen.Got? {
          return Failure;
        }
        var valueBytes := ReadSome(bytes, valueLen.reader, valueLen.value);
        if !valueBytes.Got? {
          return Failure;
        }
        var checksum := ReadWord(bytes, valueBytes.reader);
        if !checksum.Got? {
          return Failure;
        }
        if keyBytes.value == key {
          return Value(valueBytes.value);
        }
        reader := checksum.reader;
      }
    }
  }
}
