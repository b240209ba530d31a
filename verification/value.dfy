/** Values and their tagged, length-prefixed encoding. */
module Values {
  import opened Codec

  type i64 = x: int | -0x8000_0000_0000_0000 <= x < 0x8000_0000_0000_0000

  datatype Value = Blob(bytes: Bytes) | Str(utf8: Bytes) | Int(i: i64) | Tombstone

  const TAG_BYTES: byte := 0
  const TAG_TOMBSTONE: byte := 1
  const TAG_STR: byte := 2
  const TAG_INT: byte := 4
  const HEADER_SIZE: nat := 5

  const TWO64: int := 0x1_0000_0000_0000_0000

  function TwosComplement(i: i64): u64 {
    if i < 0 then i + TWO64 else i
  }

  function FromTwosComplement(n: u64): i64 {
    if n >= 0x8000_0000_0000_0000 then n - TWO64 else n
  }

  /** Both agree modulo 2^64, and the sign is the highest bit. */
  lemma TwosComplementIs(i: i64)
    ensures FromTwosComplement(TwosComplement(i)) == i && (TwosComplement(i) - i) % TWO64 == 0
    ensures i < 0 <==> TwosComplement(i) >= 0x8000_0000_0000_0000
  {}

  function Tag(v: Value): byte {
    match v
    case Blob(_) => TAG_BYTES
    case Str(_) => TAG_STR
    case Int(_) => TAG_INT
    case Tombstone => TAG_TOMBSTONE
  }

  function Payload(v: Value): Bytes {
    match v
    case Blob(b) => b
    case Str(s) => s
    case Int(i) => Le(TwosComplement(i), 8)
    case Tombstone => []
  }

  function Encode(v: Value): (r: Bytes)
    ensures |r| == HEADER_SIZE + |Payload(v)|
  {
    [Tag(v)] + (Le(|Payload(v)|, 4) + Payload(v))
  }

  /** `Vec::<u8>::decode`: a u32 length and that many bytes. */
  function ParseBytes(bs: Bytes): Parsed<Bytes> {
    var (n, rest) :- ParseU32(bs);
    Take(n, rest)
  }

  function Parse(bs: Bytes): (r: Parsed<Value>)
    ensures r.Ok? ==> |r.rest| + HEADER_SIZE <= |bs|
  {
    var (meta, r1) :- ParseU8(bs);
    var (payload, rest) :- ParseBytes(r1);
    if meta % 2 == 1 then Ok(Tombstone, rest)
    else if meta == TAG_BYTES then Ok(Blob(payload), rest)
    else if meta == TAG_STR then Ok(Str(payload), rest)
    else if meta == TAG_INT && |payload| >= 8 then
      Widths();
      Ok(Int(FromTwosComplement(FromLe(payload[..8]))), rest)
    else Corrupt
  }

  /** The unread bytes are a suffix of the input. */
  lemma ParsePrefix(bs: Bytes)
    requires Parse(bs).Ok?
    ensures Parse(bs).rest == bs[|bs| - |Parse(bs).rest|..]
  {
    hide FromLe;
    var n := ParseU32(bs[1..]).value;
    assert bs[1..][4..] == bs[5..];
    assert bs[5..][n..] == bs[5 + n..];
  }

  predicate Encodable(v: Value) { |Payload(v)| < 0x1_0000_0000 }

  /** On disk: the tag, the payload's length in four bytes, the payload; an integer's is its eight bytes. */
  lemma Layout(v: Value)
    requires Encodable(v)
    ensures var bs := Encode(v);
            && |bs| >= 5 && FromLe(bs[1..5]) == |bs| - 5
            && match v
               case Blob(b) => bs[0] == 0 && bs[5..] == b
               case Str(s) => bs[0] == 2 && bs[5..] == s
               case Int(i) => bs[0] == 4 && |bs| == 13 && (FromLe(bs[5..]) - i) % TWO64 == 0
               case Tombstone => bs[0] == 1 && |bs| == 5
  {
    hide Le, FromLe;
    Widths();
    LeRoundTrip(|Payload(v)|, 4);
    assert Encode(v)[1..5] == Le(|Payload(v)|, 4) && Encode(v)[5..] == Payload(v);
    if v.Int? {
      TwosComplementIs(v.i);
      LeRoundTrip(TwosComplement(v.i), 8);
    }
  }

  lemma PayloadRoundTrip(payload: Bytes, tail: Bytes)
    requires |payload| < 0x1_0000_0000
    ensures ParseBytes(Le(|payload|, 4) + payload + tail) == Ok(payload, tail)
  {
    hide Le, ParseU32;
    assert Le(|payload|, 4) + payload + tail == Le(|payload|, 4) + (payload + tail);
    ParseLe(|payload|, payload + tail);
    Split(payload, tail);
  }

  lemma RoundTrip(v: Value, tail: Bytes)
    requires Encodable(v)
    ensures Parse(Encode(v) + tail) == Ok(v, tail)
  {
    hide Le, FromLe, ParseBytes;
    var p := Payload(v);
    var r1 := Le(|p|, 4) + p + tail;
    TagRoundTrip(v, r1);
    assert Encode(v) + tail == [Tag(v)] + r1;
    PayloadRoundTrip(p, tail);
    if v.Int? {
      Widths();
      LeRoundTrip(TwosComplement(v.i), 8);
      assert p[..8] == p;
    }
  }

  lemma TagRoundTrip(v: Value, rest: Bytes)
    ensures ParseU8([Tag(v)] + rest) == Ok(Tag(v), rest)
  {
    assert ([Tag(v)] + rest)[1..] == rest;
  }

  lemma ParsesParts(tag: byte, payload: Bytes, tail: Bytes)
    requires |payload| < 0x1_0000_0000
    ensures var bs := [tag] + (Le(|payload|, 4) + payload + tail);
            ParseU8(bs) == Ok(tag, bs[1..]) && ParseBytes(bs[1..]) == Ok(payload, tail)
  {
    hide Le, ParseBytes;
    var r1 := Le(|payload|, 4) + payload + tail;
    assert ([tag] + r1)[1..] == r1;
    PayloadRoundTrip(payload, tail);
  }

  /** What a tag byte and a payload mean: an odd tag is a tombstone whatever follows; 0, 2 and 4 are bytes, text and,
      with eight bytes or more, an integer; anything else is damage, never a premature end. */
  lemma TagDecides(tag: byte, payload: Bytes, tail: Bytes)
    requires |payload| < 0x1_0000_0000
    ensures var r := Parse([tag] + (Le(|payload|, 4) + payload + tail));
            && (r.Ok? && r.value.Tombstone? <==> tag % 2 == 1)
            && (r.Ok? && r.value.Blob? <==> tag == 0)
            && (r.Ok? && r.value.Str? <==> tag == 2)
            && (r.Ok? && r.value.Int? <==> tag == 4 && |payload| >= 8)
            && (r.Ok? ==> r.rest == tail) && (!r.Ok? ==> r.Corrupt?)
            && (tag == 0 ==> r.value.bytes == payload) && (tag == 2 ==> r.value.utf8 == payload)
  {
    hide Le, FromLe, ParseBytes, ParseU8, Parse;
    ParsesParts(tag, payload, tail);
    var bs := [tag] + (Le(|payload|, 4) + payload + tail);
    Decodes(bs, tag, payload, tail);
  }

  lemma Decodes(bs: Bytes, tag: byte, payload: Bytes, tail: Bytes)
    requires bs != [] && ParseU8(bs) == Ok(tag, bs[1..]) && ParseBytes(bs[1..]) == Ok(payload, tail)
    ensures tag % 2 == 1 ==> Parse(bs) == Ok(Tombstone, tail)
    ensures tag == 0 ==> Parse(bs) == Ok(Blob(payload), tail)
    ensures tag == 2 ==> Parse(bs) == Ok(Str(payload), tail)
    ensures tag == 4 && |payload| >= 8 ==> Parse(bs).Ok? && Parse(bs).value.Int? && Parse(bs).rest == tail
    ensures tag % 2 == 0 && tag != 0 && tag != 2 && (tag != 4 || |payload| < 8) ==> Parse(bs).Corrupt?
  {
    hide Le, FromLe, ParseBytes, ParseU8, FromTwosComplement;
  }

  /** Every proper prefix of an encoded value reads as a premature end of input. */
  lemma Torn(v: Value, cut: nat)
    requires Encodable(v) && cut < |Encode(v)|
    ensures Parse(Encode(v)[..cut]).Eof?
  {
    hide Le, FromLe;
    var whole := Encode(v);
    var p := whole[..cut];
    if cut >= 1 {
      var r1 := p[1..];
      assert p == [Tag(v)] + r1;
      if cut >= 5 {
        assert r1 == Le(|Payload(v)|, 4) + p[5..];
        ParseLe(|Payload(v)|, p[5..]);
      }
      assert ParseBytes(r1).Eof?;
    }
  }
}

/** A key with its value, the record of every log, block and memtable. */
module Entries {
  import opened Codec
  import Keys
  import Values

  datatype Entry = Entry(key: Keys.Key, value: Values.Value)

  /** What an iterator hands out: nothing more, an error, or an entry. */
  datatype Yield = Finished | Failed | Yielded(entry: Entry)

  /** A whole iteration: the entries yielded, and whether it ended without an error. */
  datatype Log = Log(entries: seq<Entry>, clean: bool)

  predicate Encodable(e: Entry) {
    Keys.Encodable(e.key) && Values.Encodable(e.value)
  }

  function Encode(e: Entry): (r: Bytes)
    ensures |r| == Keys.HEADER_SIZE + |e.key.bytes| + Values.HEADER_SIZE + |Values.Payload(e.value)|
  {
    Keys.Encode(e.key) + Values.Encode(e.value)
  }

  function Parse(bs: Bytes): (r: Parsed<Entry>)
    ensures r.Ok? ==> |r.rest| + Keys.HEADER_SIZE + Values.HEADER_SIZE <= |bs|
  {
    var (k, r1) :- Keys.Parse(bs);
    var (v, r2) :- Values.Parse(r1);
    Ok(Entry(k, v), r2)
  }

  lemma RoundTrip(e: Entry, tail: Bytes)
    requires Encodable(e)
    ensures Parse(Encode(e) + tail) == Ok(e, tail)
  {
    var r1 := Values.Encode(e.value) + tail;
    assert Encode(e) + tail == Keys.Encode(e.key) + r1;
    Keys.RoundTrip(e.key, r1);
    Values.RoundTrip(e.value, tail);
  }

  /** The unread bytes are a suffix of the input. */
  lemma ParsePrefix(bs: Bytes)
    requires Parse(bs).Ok?
    ensures Parse(bs).rest == bs[|bs| - |Parse(bs).rest|..]
  {
    hide Keys.Parse, Values.Parse;
    Keys.ParsePrefix(bs);
    var r := Keys.Parse(bs).rest;
    Values.ParsePrefix(r);
    var v := Values.Parse(r).rest;
    assert r[|r| - |v|..] == bs[|bs| - |v|..];
  }

  /** No proper prefix of an encoded entry decodes: a torn entry is always recognised as torn. */
  lemma Torn(e: Entry, cut: nat)
    requires Encodable(e) && cut < |Encode(e)|
    ensures Parse(Encode(e)[..cut]).Eof?
  {
    hide Keys.Encode, Keys.Parse, Keys.Encodable, Values.Encode, Values.Parse, Values.Encodable;
    var k := Keys.Encode(e.key);
    var p := Encode(e)[..cut];
    if cut < |k| {
      assert p == k[..cut];
      Keys.Torn(e.key, cut);
    } else {
      var vp := Values.Encode(e.value)[..cut - |k|];
      assert p == k + vp;
      Keys.RoundTrip(e.key, vp);
      Values.Torn(e.value, cut - |k|);
    }
  }

  function EncodeAll(es: seq<Entry>): Bytes {
    if es == [] then [] else Encode(es[0]) + EncodeAll(es[1..])
  }

  lemma {:induction false} EncodeAllAppend(a: seq<Entry>, b: seq<Entry>)
    ensures EncodeAll(a + b) == EncodeAll(a) + EncodeAll(b)
  {
    if a == [] {
      assert a + b == b;
    } else {
      assert (a + b)[0] == a[0] && (a + b)[1..] == a[1..] + b;
      EncodeAllAppend(a[1..], b);
      Associative(Encode(a[0]), EncodeAll(a[1..]), EncodeAll(b));
    }
  }

  lemma EncodeOne(e: Entry)
    ensures EncodeAll([e]) == Encode(e)
  {
    assert EncodeAll([e]) == Encode(e) + EncodeAll([]);
  }

  predicate AllEncodable(es: seq<Entry>) {
    forall i :: 0 <= i < |es| ==> Encodable(es[i])
  }

  /** Sorted in key order; equal keys may repeat. */
  predicate Sorted(es: seq<Entry>) {
    forall i, j :: 0 <= i < j < |es| ==> Keys.Leq(es[i].key, es[j].key)
  }

  /** Sorted in key order with every internal key at most once. */
  predicate StrictlySorted(es: seq<Entry>) {
    forall i, j :: 0 <= i < j < |es| ==> Keys.Less(es[i].key, es[j].key)
  }

  /** The first entry of es for user key k: what a linear scan from the front finds. */
  function FirstFor(es: seq<Entry>, k: Bytes): (r: Option<Entry>)
    ensures r.Some? ==> r.value in es && r.value.key.bytes == k
    ensures r.None? <==> forall e :: e in es ==> e.key.bytes != k
  {
    if es == [] then None
    else if es[0].key.bytes == k then Some(es[0])
    else
      assert es == [es[0]] + es[1..];
      FirstFor(es[1..], k)
  }

  /** In a sorted sequence the first entry for k is a newest one. */
  lemma {:induction false} FirstIsNewest(es: seq<Entry>, k: Bytes)
    requires Sorted(es)
    ensures FirstFor(es, k).Some? ==>
              forall e :: e in es && e.key.bytes == k ==> e.key.lsn <= FirstFor(es, k).value.key.lsn
  {
    if es != [] {
      if es[0].key.bytes == k {
        forall e | e in es && e.key.bytes == k ensures e.key.lsn <= es[0].key.lsn {
          var i :| 0 <= i < |es| && es[i] == e;
          Keys.BytesTrichotomy(k, k);
          assert i > 0 ==> Keys.Leq(es[0].key, es[i].key);
        }
      } else {
        FirstIsNewest(es[1..], k);
        assert es == [es[0]] + es[1..];
      }
    }
  }

  lemma {:induction false} FirstForAppend(a: seq<Entry>, b: seq<Entry>, k: Bytes)
    ensures FirstFor(a + b, k) == if FirstFor(a, k).Some? then FirstFor(a, k) else FirstFor(b, k)
  {
    if a == [] {
      assert a + b == b;
    } else {
      assert (a + b)[1..] == a[1..] + b;
      FirstForAppend(a[1..], b, k);
    }
  }
}
