/** Key-value commands: their encoding, shared by the single-node store and the
    replicated one, and what applying a list of them does to a table. */
module Commands {
  import opened Coding

  type Table = map<Bytes, Bytes>

  datatype Command = Put(key: Bytes, value: Bytes) | Delete(key: Bytes)

  const DELETE_TAG: bv8 := 0
  const PUT_TAG: bv8 := 1

  /** A length cast to 32 bits. */
  function Low32(n: nat): (r: U32)
    ensures r <= n && (r == n <==> n < 0x1_0000_0000)
  {
    n % 0x1_0000_0000
  }

  /** What is left of a string once its length has been cast. */
  function Shortened(s: Bytes): Bytes { s[..Low32(|s|)] }

  function Sized(s: Bytes): Bytes { Fixed32(Low32(|s|)) + s }

  function Encode(c: Command): Bytes {
    match c
    case Put(k, v) => [PUT_TAG] + Sized(k) + Sized(v)
    case Delete(k) => [DELETE_TAG] + Sized(k)
  }

  /** A length-prefixed string at the front of s, and what follows it. */
  function TakeSized(s: Bytes): Option<(Bytes, Bytes)> {
    if |s| < 4 then None
    else
      var n := Decode32(s);
      if |s| - 4 < n then None else Some((s[4..4 + n], s[4 + n..]))
  }

  /** Any tag but that of a put is applied as a delete. */
  function Decode(r: Bytes): Option<Command> {
    if |r| < 5 then None
    else
      match TakeSized(r[1..])
      case None => None
      case Some(kr) =>
        if r[0] == PUT_TAG then
          (match TakeSized(kr.1)
           case None => None
           case Some(vr) => Some(Put(kr.0, vr.0)))
        else Some(Delete(kr.0))
  }

  /** Lengths that 32 bits can carry. */
  ghost predicate Small(c: Command) {
    |c.key| < 0x1_0000_0000 && (c.Put? ==> |c.value| < 0x1_0000_0000)
  }

  lemma TakeBack(s: Bytes, rest: Bytes)
    ensures var n := Low32(|s|);
            TakeSized(Sized(s) + rest) == Some((s[..n], s[n..] + rest))
  {
    hide Fixed32, Decode32;
    var n := Low32(|s|);
    var all := Sized(s) + rest;
    assert all == Fixed32(n) + (s + rest);
    Fixed32RoundTrip(n, s + rest);
    assert all[4..] == s + rest;
    assert all[4..4 + n] == s[..n] && all[4 + n..] == s[n..] + rest;
  }

  /** A key comes back shortened to its announced length. */
  lemma DecodeKey(tag: bv8, k: Bytes, rest: Bytes)
    ensures var r := [tag] + Sized(k) + rest;
            |r| >= 5 && r[0] == tag && TakeSized(r[1..]) == Some((k[..Low32(|k|)], k[Low32(|k|)..] + rest))
  {
    hide TakeSized, Sized, Low32;
    SizedLength(k);
    TakeBack(k, rest);
    assert ([tag] + Sized(k) + rest)[1..] == Sized(k) + rest;
  }

  lemma DecodePut(k: Bytes, v: Bytes)
    ensures var d := Decode(Encode(Put(k, v)));
            && (d.Some? ==> d.value.key == Shortened(k))
            && (|k| < 0x1_0000_0000 ==> d == Some(Put(k, Shortened(v))))
  {
    hide TakeSized, Sized;
    DecodeKey(PUT_TAG, k, Sized(v));
    if |k| < 0x1_0000_0000 {
      assert k[..|k|] == k && k[|k|..] + Sized(v) == Sized(v) + [];
      TakeBack(v, []);
    }
  }

  lemma DecodeDelete(k: Bytes)
    ensures Decode(Encode(Delete(k))) == Some(Delete(Shortened(k)))
  {
    hide TakeSized, Sized, Low32;
    DecodeKey(DELETE_TAG, k, []);
    assert [DELETE_TAG] + Sized(k) + [] == Encode(Delete(k));
  }

  /** Decoding undoes encoding exactly when the lengths fit in 32 bits; a longer
      key or value comes back shortened. */
  lemma CommandRoundTrip(c: Command)
    ensures Decode(Encode(c)) == Some(c) <==> Small(c)
  {
    hide Decode, Encode;
    if c.Put? {
      DecodePut(c.key, c.value);
      assert |c.value| < 0x1_0000_0000 ==> Shortened(c.value) == c.value;
      assert |c.value| >= 0x1_0000_0000 ==> |Shortened(c.value)| < |c.value|;
    } else {
      DecodeDelete(c.key);
    }
    assert |c.key| < 0x1_0000_0000 ==> Shortened(c.key) == c.key;
    assert |c.key| >= 0x1_0000_0000 ==> |Shortened(c.key)| < |c.key|;
  }

  lemma SizedLength(s: Bytes)
    ensures |Sized(s)| == 4 + |s|
  {
  }

  lemma SizedIs(s: Bytes)
    ensures Sized(s) == Fixed32(Low32(|s|)) + s
  {
  }

  /** Builds the payload piece by piece. */
  method EncodeRecord(put: bool, key: Bytes, value: Bytes) returns (dst: Bytes)
    ensures dst == Encode(if put then Put(key, value) else Delete(key))
  {
    hide Fixed32, Low32;
    var buf := new bv8[4];
    dst := [if put then PUT_TAG else DELETE_TAG];
    EncodeFixed32(buf, Low32(|key|));
    assert buf[..] == buf[..4];
    dst := dst + buf[..];
    dst := dst + key;
    assert dst == [if put then PUT_TAG else DELETE_TAG] + Sized(key);
    hide Sized;
    if put {
      ghost var sofar := dst;
      EncodeFixed32(buf, Low32(|value|));
      assert buf[..] == buf[..4];
      dst := dst + buf[..];
      dst := dst + value;
      SizedIs(value);
      assert dst == sofar + Sized(value);
    }
  }

  lemma DropTwice(record: Bytes, n: nat)
    requires 5 + n <= |record|
    ensures record[1..][4..4 + n] == record[5..5 + n] && record[1..][4 + n..] == record[5 + n..]
  {
  }

  /** Parses a payload, refusing one too short for the fields it announces. */
  method DecodeRecord(record: Bytes) returns (ok: bool, tag: bv8, key: Bytes, value: Bytes)
    ensures ok == Decode(record).Some?
    ensures ok ==> record != [] && tag == record[0]
    ensures ok ==> Decode(record).value == if tag == PUT_TAG then Put(key, value) else Delete(key)
    ensures ok && tag != PUT_TAG ==> value == []
  {
    hide Decode32;
    tag, key, value := DELETE_TAG, [], [];
    var p, left := 0, |record|;
    if left < 1 + 4 {
      return false, tag, key, value;
    }
    tag := record[0];
    p, left := 1, left - 1;
    var klen: nat := Decode32(record[p..]);
    p, left := p + 4, left - 4;
    if left < klen {
      return false, tag, key, value;
    }
    key := record[p..p + klen];
    DropTwice(record, klen);
    p, left := p + klen, left - klen;
    if tag == PUT_TAG {
      if left < 4 {
        return false, tag, key, value;
      }
      var vlen: nat := Decode32(record[p..]);
      if left - 4 < vlen {
        return false, tag, key, value;
      }
      value := record[p + 4..p + 4 + vlen];
      assert value == record[p..][4..4 + vlen];
    }
    ok := true;
  }

  // ----------------------------------------------------------------- tables

  function Apply(t: Table, c: Command): Table {
    match c
    case Put(k, v) => t[k := v]
    case Delete(k) => t - {k}
  }

  function ApplyAll(t: Table, cs: seq<Command>): Table {
    if cs == [] then t else Apply(ApplyAll(t, cs[..|cs| - 1]), cs[|cs| - 1])
  }

  /** A payload that does not decode changes nothing. */
  function ApplyPayload(t: Table, r: Bytes): Table {
    match Decode(r)
    case None => t
    case Some(c) => Apply(t, c)
  }

  function ApplyPayloads(t: Table, rs: seq<Bytes>): Table {
    if rs == [] then t else ApplyPayload(ApplyPayloads(t, rs[..|rs| - 1]), rs[|rs| - 1])
  }

  lemma ApplyNone(t: Table)
    ensures ApplyPayloads(t, []) == t
  {
  }

  lemma ApplySnoc(t: Table, rs: seq<Bytes>, r: Bytes)
    ensures ApplyPayloads(t, rs + [r]) == ApplyPayload(ApplyPayloads(t, rs), r)
  {
    hide ApplyPayload;
    assert (rs + [r])[..|rs|] == rs;
  }

  lemma {:induction false} ApplyAppend(t: Table, a: seq<Bytes>, b: seq<Bytes>)
    ensures ApplyPayloads(t, a + b) == ApplyPayloads(ApplyPayloads(t, a), b)
    decreases |b|
  {
    hide ApplyPayload;
    if b == [] {
      assert a + b == a;
    } else {
      assert (a + b)[..|a + b| - 1] == a + b[..|b| - 1];
      ApplyAppend(t, a, b[..|b| - 1]);
    }
  }

  function Lookup(t: Table, k: Bytes): Option<Bytes> { if k in t then Some(t[k]) else None }

  /** Each payload sets the key to a value of its own or leaves it alone, so the
      last one to set it decides, whatever the table was. */
  lemma {:induction false} LastWins(t: Table, u: Table, rs: seq<Bytes>, k: Bytes)
    requires Lookup(t, k) == Lookup(ApplyPayloads(u, rs), k)
    ensures Lookup(ApplyPayloads(t, rs), k) == Lookup(ApplyPayloads(u, rs), k)
    decreases |rs|
  {
    hide Decode;
    if rs != [] {
      var init, r := rs[..|rs| - 1], rs[|rs| - 1];
      if Decode(r).Some? && Decode(r).value.key == k {
      } else {
        LastWins(t, u, init, k);
      }
    }
  }

  /** Applying a whole list of payloads again over its own result changes nothing. */
  lemma Reapply(t: Table, rs: seq<Bytes>)
    ensures ApplyPayloads(ApplyPayloads(t, rs), rs) == ApplyPayloads(t, rs)
  {
    var once := ApplyPayloads(t, rs);
    var twice := ApplyPayloads(once, rs);
    forall k: Bytes ensures Lookup(twice, k) == Lookup(once, k) {
      LastWins(once, t, rs, k);
    }
    SameTable(twice, once);
  }

  lemma SameTable(a: Table, b: Table)
    requires forall k: Bytes :: Lookup(a, k) == Lookup(b, k)
    ensures a == b
  {
    assert forall k: Bytes | k in a :: Lookup(a, k) == Lookup(b, k);
    assert forall k: Bytes | k in b :: Lookup(a, k) == Lookup(b, k);
  }

  /** Applying a part of the list that was applied before, and then more, gives
      what applying everything once gives. */
  lemma ReapplySuffix(a: seq<Bytes>, b: seq<Bytes>, c: seq<Bytes>)
    ensures ApplyPayloads(ApplyPayloads(map[], a + b), b + c) == ApplyPayloads(map[], a + b + c)
  {
    var t := ApplyPayloads(map[], a);
    ApplyAppend(map[], a, b);
    ApplyAppend(ApplyPayloads(t, b), b, c);
    Reapply(t, b);
    ApplyAppend(map[], a + b, c);
  }

  function EncodeAll(cs: seq<Command>): (rs: seq<Bytes>)
    ensures |rs| == |cs|
  {
    seq(|cs|, i requires 0 <= i < |cs| => Encode(cs[i]))
  }

  /** Applying the encodings is applying the commands. */
  lemma {:induction false} ApplyEncoded(t: Table, cs: seq<Command>)
    requires forall c | c in cs :: Small(c)
    ensures ApplyPayloads(t, EncodeAll(cs)) == ApplyAll(t, cs)
    decreases |cs|
  {
    hide Encode, Decode, Small;
    if cs != [] {
      var init := cs[..|cs| - 1];
      assert EncodeAll(cs)[..|cs| - 1] == EncodeAll(init);
      ApplyEncoded(t, init);
      CommandRoundTrip(cs[|cs| - 1]);
    }
  }

  // ------------------------------------------------------- what a store answers

  /** A put is found, a deleted key is not, and no other key is touched. */
  lemma ApplyLaws(t: Table, c: Command, k: Bytes)
    ensures Lookup(Apply(t, c), k)
            == if k != c.key then Lookup(t, k) else if c.Put? then Some(c.value) else None
  {
  }

  /** Some write puts v at k, and no later write has key k. */
  ghost predicate LastWrite(cs: seq<Command>, k: Bytes, v: Bytes) {
    exists i | 0 <= i < |cs| :: cs[i] == Put(k, v) && forall j | i < j < |cs| :: cs[j].key != k
  }

  lemma LastWriteSnoc(cs: seq<Command>, c: Command, k: Bytes, v: Bytes)
    ensures LastWrite(cs + [c], k, v) <==> if c.key == k then c == Put(k, v) else LastWrite(cs, k, v)
  {
    var all, n := cs + [c], |cs|;
    if c == Put(k, v) {
      assert all[n] == Put(k, v);
    }
    if c.key != k && LastWrite(cs, k, v) {
      var i :| 0 <= i < n && cs[i] == Put(k, v) && forall j | i < j < n :: cs[j].key != k;
      assert all[i] == Put(k, v);
    }
    if LastWrite(all, k, v) {
      var i :| 0 <= i < |all| && all[i] == Put(k, v) && forall j | i < j < |all| :: all[j].key != k;
      if i < n {
        assert all[n].key != k && cs[i] == Put(k, v);
        assert forall j | i < j < n :: cs[j] == all[j];
      }
    }
  }

  /** After any commands a key is found exactly with the value of the last put of it
      that no later put or delete of the key follows. */
  lemma {:induction false} AppliedLookup(cs: seq<Command>, k: Bytes, v: Bytes)
    ensures Lookup(ApplyAll(map[], cs), k) == Some(v) <==> LastWrite(cs, k, v)
    decreases |cs|
  {
    hide LastWrite;
    if cs == [] {
      NoWrites(k, v);
    } else {
      var init, c := cs[..|cs| - 1], cs[|cs| - 1];
      assert cs == init + [c];
      AppliedLookup(init, k, v);
      LastWriteSnoc(init, c, k, v);
      ApplyLaws(ApplyAll(map[], init), c, k);
    }
  }

  lemma NoWrites(k: Bytes, v: Bytes)
    ensures !LastWrite([], k, v)
  {
  }

  /** The payloads that decode, as commands. */
  function Decoded(rs: seq<Bytes>): seq<Command> {
    if rs == [] then []
    else
      match Decode(rs[|rs| - 1])
      case None => Decoded(rs[..|rs| - 1])
      case Some(c) => Decoded(rs[..|rs| - 1]) + [c]
  }

  lemma {:induction false} AppliedDecoded(t: Table, rs: seq<Bytes>)
    ensures ApplyPayloads(t, rs) == ApplyAll(t, Decoded(rs))
    decreases |rs|
  {
    hide Decode;
    if rs != [] {
      var init := rs[..|rs| - 1];
      AppliedDecoded(t, init);
      if Decode(rs[|rs| - 1]).Some? {
        assert Decoded(rs)[..|Decoded(rs)| - 1] == Decoded(init);
      }
    }
  }

  function ValuePart(c: Command): Bytes { if c.Put? then Sized(c.value) else [] }

  lemma EncodedTail(c: Command)
    ensures var r := Encode(c);
            |r| > 0 && r[1..] == Sized(c.key) + ValuePart(c) && (r[0] == PUT_TAG <==> c.Put?)
  {
    hide Sized;
  }

  lemma CutSum(a: Bytes, b: Bytes, k: nat)
    requires k <= |a| + |b|
    ensures (a + b)[..k] == if k < |a| then a[..k] else a + b[..k - |a|]
  {
  }

  lemma CutFirst(r: Bytes, k: nat)
    requires 0 < k <= |r|
    ensures r[..k][1..] == r[1..][..k - 1] && r[..k][0] == r[0]
  {
  }

  /** Of a command cut short nothing is applied. */
  lemma ShortCommand(c: Command, k: nat)
    requires Small(c) && k < |Encode(c)|
    ensures Decode(Encode(c)[..k]) == None
  {
    hide Sized, TakeSized, Encode, ValuePart;
    var r := Encode(c);
    EncodedTail(c);
    if k >= 5 {
      CutFirst(r, k);
      CutSum(Sized(c.key), ValuePart(c), k - 1);
      var n := |Sized(c.key)|;
      if k - 1 < n {
        ShortSized(c.key, k - 1);
      } else {
        WholeKey(c.key, ValuePart(c)[..k - 1 - n]);
        ShortValue(c, k - 1 - n);
      }
    }
  }

  lemma ShortValue(c: Command, k: nat)
    requires Small(c) && k < |ValuePart(c)|
    ensures c.Put? && TakeSized(ValuePart(c)[..k]) == None
  {
    hide Sized, TakeSized;
    ShortSized(c.value, k);
  }

  lemma WholeKey(key: Bytes, rest: Bytes)
    requires |key| < 0x1_0000_0000
    ensures TakeSized(Sized(key) + rest) == Some((key, rest))
  {
    hide TakeSized, Sized;
    TakeBack(key, rest);
    assert key[..|key|] == key && key[|key|..] + rest == rest;
  }

  lemma ShortSized(s: Bytes, k: nat)
    requires |s| < 0x1_0000_0000 && k < |Sized(s)|
    ensures TakeSized(Sized(s)[..k]) == None
  {
    hide Fixed32, Decode32;
    if k >= 4 {
      var q := Sized(s)[..k];
      Fixed32RoundTrip(|s|, q[4..]);
      assert q == Fixed32(|s|) + q[4..];
    }
  }
}
