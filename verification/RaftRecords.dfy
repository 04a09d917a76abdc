/** The byte encoding of the records RaftStorage writes, and the bounds-checked
    cursor that reads them back. */
module RaftRecords {
  import opened RaftTypes
  import opened Durability
  import C = Coding

  type Option<T> = C.Option<T>

  const TWO32: nat := 0x1_0000_0000

  const HARD_STATE: bv8 := 1
  const ENTRY: bv8 := 2
  const TRUNCATE: bv8 := 3

  /** A 64-bit integer as two halves, the low one first. */
  function Put64(v: nat): (s: Bytes)
    ensures |s| == 8
  {
    C.Fixed32(v % TWO32) + C.Fixed32(v / TWO32 % TWO32)
  }

  /** What is left of v in 64 bits. */
  function Wrap64(v: nat): nat { v % TWO32 + v / TWO32 % TWO32 * TWO32 }

  /** A length cast to 32 bits. */
  function Len32(s: Bytes): (n: nat)
    ensures n < TWO32 && n <= |s| && (n == |s| <==> |s| < TWO32)
  {
    |s| % TWO32
  }

  function EntryFields(e: Entry): Bytes {
    Put64(e.term) + (Put64(e.index) + (C.Fixed32(Len32(e.data)) + e.data))
  }

  function Encode(r: Rec): Bytes {
    match r
    case HardState(t, v) => [HARD_STATE] + Put64(t) + Put64(v)
    case LogRec(e) => [ENTRY] + EntryFields(e)
    case Truncate(from) => [TRUNCATE] + Put64(from)
  }

  // ---------------------------------------------------------------- cursor

  datatype Cursor = Cursor(rest: Bytes, ok: bool)

  function GetU32(c: Cursor): (nat, Cursor) {
    if |c.rest| < 4 then (0, c.(ok := false)) else (C.Decode32(c.rest), c.(rest := c.rest[4..]))
  }

  function GetU64(c: Cursor): (nat, Cursor) {
    var (lo, c1) := GetU32(c);
    var (hi, c2) := GetU32(c1);
    (lo + hi * TWO32, c2)
  }

  function GetBytes(c: Cursor, n: nat): (Bytes, Cursor) {
    if |c.rest| < n then ([], c.(ok := false)) else (c.rest[..n], c.(rest := c.rest[n..]))
  }

  /** A short record and an unknown tag are both skipped. */
  function Decode(record: Bytes): Option<Rec> {
    if record == [] then C.None
    else
      var c := Cursor(record[1..], true);
      if record[0] == HARD_STATE then DecodeHardState(c)
      else if record[0] == ENTRY then DecodeEntry(c)
      else if record[0] == TRUNCATE then DecodeTruncate(c)
      else C.None
  }

  function DecodeHardState(c: Cursor): Option<Rec> {
    var (t, c1) := GetU64(c);
    var (v, c2) := GetU64(c1);
    if c2.ok then C.Some(HardState(t, v)) else C.None
  }

  function DecodeEntry(c: Cursor): Option<Rec> {
    var (t, c1) := GetU64(c);
    var (i, c2) := GetU64(c1);
    var (n, c3) := GetU32(c2);
    var (data, c4) := GetBytes(c3, n);
    if c4.ok then C.Some(LogRec(Entry(t, i, data))) else C.None
  }

  function DecodeTruncate(c: Cursor): Option<Rec> {
    var (from, c1) := GetU64(c);
    if c1.ok then C.Some(Truncate(from)) else C.None
  }

  /** The cursor as the object it is. */
  class Decoder {
    var rest: Bytes
    var ok: bool

    ghost function At(): Cursor
      reads this
    {
      Cursor(rest, ok)
    }

    constructor (s: Bytes)
      ensures At() == Cursor(s, true)
    {
      rest, ok := s, true;
    }

    method U32() returns (v: nat)
      modifies this
      ensures (v, At()) == GetU32(old(At()))
    {
      if |rest| < 4 {
        ok := false;
        return 0;
      }
      v := C.Decode32(rest);
      rest := rest[4..];
    }

    method U64() returns (v: nat)
      modifies this
      ensures (v, At()) == GetU64(old(At()))
    {
      hide GetU32;
      var lo := U32();
      var hi := U32();
      v := lo + hi * TWO32;
    }

    method Bytes(n: nat) returns (s: Bytes)
      modifies this
      ensures (s, At()) == GetBytes(old(At()), n)
    {
      if |rest| < n {
        ok := false;
        return [];
      }
      s := rest[..n];
      rest := rest[n..];
    }
  }

  // ------------------------------------------------------------ round trip

  /** Every field fits its width on disk. */
  ghost predicate Fit(r: Rec) {
    match r
    case HardState(t, v) => t < TWO32 * TWO32 && v < TWO32 * TWO32
    case LogRec(e) => e.term < TWO32 * TWO32 && e.index < TWO32 * TWO32 && |e.data| < TWO32
    case Truncate(from) => from < TWO32 * TWO32
  }

  lemma WrapExact(v: nat)
    ensures Wrap64(v) == v <==> v < TWO32 * TWO32
  {
    var h := v / TWO32;
    assert v == v % TWO32 + h * TWO32;
    if h < TWO32 {
      assert h % TWO32 == h;
    } else {
      assert h % TWO32 < TWO32 <= h;
    }
  }

  lemma GetBack32(v: nat, rest: Bytes, ok: bool)
    requires v < TWO32
    ensures GetU32(Cursor(C.Fixed32(v) + rest, ok)) == (v, Cursor(rest, ok))
  {
    hide C.Fixed32, C.Decode32;
    C.Fixed32RoundTrip(v, rest);
    assert (C.Fixed32(v) + rest)[4..] == rest;
  }

  lemma GetBack64(v: nat, rest: Bytes, ok: bool)
    ensures GetU64(Cursor(Put64(v) + rest, ok)) == (Wrap64(v), Cursor(rest, ok))
  {
    hide C.Fixed32, GetU32;
    var lo, hi := C.Fixed32(v % TWO32), C.Fixed32(v / TWO32 % TWO32);
    assert Put64(v) + rest == lo + (hi + rest);
    GetBack32(v % TWO32, hi + rest, ok);
    GetBack32(v / TWO32 % TWO32, rest, ok);
  }

  lemma HardStateBack(t: nat, v: nat)
    ensures Decode(Encode(HardState(t, v))) == C.Some(HardState(Wrap64(t), Wrap64(v)))
  {
    hide Put64, GetU64, Wrap64;
    var r := Encode(HardState(t, v));
    assert r[1..] == Put64(t) + (Put64(v) + []);
    GetBack64(t, Put64(v) + [], true);
    GetBack64(v, [], true);
  }

  lemma TruncateBack(from: nat)
    ensures Decode(Encode(Truncate(from))) == C.Some(Truncate(Wrap64(from)))
  {
    hide Put64, GetU64, Wrap64;
    assert Encode(Truncate(from))[1..] == Put64(from) + [];
    GetBack64(from, [], true);
  }

  lemma EntryFieldsBack(e: Entry)
    ensures DecodeEntry(Cursor(EntryFields(e), true))
            == C.Some(LogRec(Entry(Wrap64(e.term), Wrap64(e.index), e.data[..Len32(e.data)])))
  {
    hide Put64, GetU64, Wrap64, C.Fixed32, GetU32, Len32;
    var tail := C.Fixed32(Len32(e.data)) + e.data;
    GetBack64(e.term, Put64(e.index) + tail, true);
    GetBack64(e.index, tail, true);
    GetBack32(Len32(e.data), e.data, true);
  }

  lemma EntryBack(e: Entry)
    ensures Decode(Encode(LogRec(e)))
            == C.Some(LogRec(Entry(Wrap64(e.term), Wrap64(e.index), e.data[..Len32(e.data)])))
  {
    hide DecodeEntry, EntryFields, Wrap64, Len32;
    assert Encode(LogRec(e))[1..] == EntryFields(e);
    EntryFieldsBack(e);
  }

  /** Decoding undoes encoding exactly when every field fits its width. */
  lemma RecRoundTrip(r: Rec)
    ensures Decode(Encode(r)) == C.Some(r) <==> Fit(r)
  {
    hide Decode, Encode, Wrap64;
    match r
    case HardState(t, v) =>
      HardStateBack(t, v);
      WrapExact(t);
      WrapExact(v);
    case LogRec(e) =>
      EntryBack(e);
      WrapExact(e.term);
      WrapExact(e.index);
      assert |e.data| < TWO32 ==> e.data[..Len32(e.data)] == e.data;
    case Truncate(from) =>
      TruncateBack(from);
      WrapExact(from);
  }

  // ---------------------------------------------------------------- replay

  function EncodeAll(rs: seq<Rec>): (bs: seq<Bytes>)
    ensures |bs| == |rs|
  {
    seq(|rs|, i requires 0 <= i < |rs| => Encode(rs[i]))
  }

  function ReplayRecord(d: Durable, record: Bytes): Durable {
    match Decode(record)
    case None => d
    case Some(r) => ReplayOne(d, r)
  }

  function ReplayRecords(d: Durable, records: seq<Bytes>): Durable {
    if records == [] then d
    else ReplayRecord(ReplayRecords(d, records[..|records| - 1]), records[|records| - 1])
  }

  lemma ReplayNone(d: Durable)
    ensures ReplayRecords(d, []) == d
  {
  }

  lemma ReplaySnoc(d: Durable, records: seq<Bytes>, r: Bytes)
    ensures ReplayRecords(d, records + [r]) == ReplayRecord(ReplayRecords(d, records), r)
  {
    hide ReplayRecord;
    assert (records + [r])[..|records|] == records;
  }

  /** Replaying the encodings is replaying the records. */
  lemma {:induction false} ReplayEncoded(d: Durable, rs: seq<Rec>)
    requires forall r | r in rs :: Fit(r)
    ensures ReplayRecords(d, EncodeAll(rs)) == ReplayFrom(d, rs)
    decreases |rs|
  {
    hide Encode, Decode, Fit, ReplayOne;
    if rs != [] {
      var init := rs[..|rs| - 1];
      assert EncodeAll(rs)[..|rs| - 1] == EncodeAll(init);
      ReplayEncoded(d, init);
      RecRoundTrip(rs[|rs| - 1]);
    }
  }

  // ------------------------------------------------------------- short records

  lemma GetU64Ok(c: Cursor)
    ensures GetU64(c).1.ok <==> c.ok && |c.rest| >= 8
    ensures c.ok && |c.rest| >= 8 ==> GetU64(c).1.rest == c.rest[8..]
  {
    hide C.Decode32;
  }

  lemma GetU32Ok(c: Cursor)
    ensures GetU32(c).1.ok <==> c.ok && |c.rest| >= 4
  {
    hide C.Decode32;
  }

  /** A record cut short is rejected rather than read past its end. */
  lemma ShortRecord(r: Rec, k: nat)
    requires Fit(r) && k < |Encode(r)|
    ensures Decode(Encode(r)[..k]) == C.None
  {
    hide GetU64, GetU32, Put64, C.Fixed32, Len32;
    if k > 0 {
      var q := Encode(r)[..k];
      var c := Cursor(q[1..], true);
      var c1 := GetU64(c).1;
      GetU64Ok(c);
      GetU64Ok(c1);
      if r.LogRec? {
        ShortEntry(r.entry, k - 1);
        assert q[1..] == EntryFields(r.entry)[..k - 1];
      }
    }
  }

  lemma ShortEntry(e: Entry, k: nat)
    requires Fit(LogRec(e)) && k < |EntryFields(e)|
    ensures DecodeEntry(Cursor(EntryFields(e)[..k], true)) == C.None
  {
    hide GetU64, GetU32, Put64, C.Fixed32, Len32, Wrap64;
    var c := Cursor(EntryFields(e)[..k], true);
    var c1 := GetU64(c).1;
    var c2 := GetU64(c1).1;
    GetU64Ok(c);
    GetU64Ok(c1);
    GetU32Ok(c2);
    if k >= 20 {
      var data := e.data[..k - 20];
      assert EntryFields(e)[..k] == Put64(e.term) + (Put64(e.index) + (C.Fixed32(Len32(e.data)) + data));
      GetBack64(e.term, Put64(e.index) + (C.Fixed32(Len32(e.data)) + data), true);
      GetBack64(e.index, C.Fixed32(Len32(e.data)) + data, true);
      GetBack32(Len32(e.data), data, true);
    }
  }
}
