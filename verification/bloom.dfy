/** The Bloom filter: k probes into a bitmap of 64-bit words. */
module Blooms {
  import opened Codec

  /** A 64-bit word as its bits, bit 0 first. */
  type Word = w: seq<bool> | |w| == 64 witness seq(64, _ => false)

  /** Any keyed hash; nothing below depends on which one. */
  type Sip = (u64, u64, Bytes) -> u64

  datatype SipKeys = SipKeys(a0: u64, a1: u64, b0: u64, b1: u64)

  /** A filter's contents, as loaded back from a file. */
  datatype Bloom = Bloom(bitmap: seq<Word>, bits: u64, k: u32, keys: SipKeys)
  {
    /** At least one bit, and a bitmap large enough for all of them. */
    predicate Sized() { 0 < bits <= 64 * |bitmap| }

    predicate Bit(idx: nat)
      requires idx < 64 * |bitmap|
    {
      bitmap[idx / 64][idx % 64]
    }
  }

  const TWO64: nat := 0x1_0000_0000_0000_0000

  /** The i-th probe: (h1 + i*h2) in wrapping 64-bit arithmetic, modulo the bit count. */
  function Probe(h: (u64, u64), bits: u64, i: nat): (r: nat)
    requires bits > 0
    ensures r < bits
  {
    ((h.0 + (i * h.1) % TWO64) % TWO64) % bits
  }

  /** Wrapping at every operation is wrapping once. */
  lemma ProbeIs(h: (u64, u64), bits: u64, i: nat)
    requires bits > 0
    ensures Probe(h, bits, i) == (h.0 + i * h.1) % TWO64 % bits
  {
    var p := i * h.1;
    SumWraps(h.0, p);
  }

  lemma SumWraps(a: nat, p: nat)
    ensures (a + p % TWO64) % TWO64 == (a + p) % TWO64
  {}

  function Hashes(sip: Sip, b: Bloom, key: Bytes): (u64, u64) {
    (sip(b.keys.a0, b.keys.a1, key), sip(b.keys.b0, b.keys.b1, key))
  }

  function WithBit(b: Bloom, idx: nat): (r: Bloom)
    requires idx < 64 * |b.bitmap|
    ensures |r.bitmap| == |b.bitmap| && r == b.(bitmap := r.bitmap)
    ensures forall x :: 0 <= x < 64 * |b.bitmap| ==> (r.Bit(x) <==> b.Bit(x) || x == idx)
  {
    var word: Word := b.bitmap[idx / 64][idx % 64 := true];
    var r := b.(bitmap := b.bitmap[idx / 64 := word]);
    assert forall x :: 0 <= x < 64 * |b.bitmap| ==> (r.Bit(x) <==> b.Bit(x) || x == idx) by {
      forall x | 0 <= x < 64 * |b.bitmap| ensures r.Bit(x) <==> b.Bit(x) || x == idx {
        SameBit(x, idx);
      }
    }
    r
  }

  lemma SameBit(a: nat, b: nat)
    ensures a == b <==> a / 64 == b / 64 && a % 64 == b % 64
  {}

  /** after is before with exactly the first n probes of h added. */
  ghost predicate Added(before: Bloom, after: Bloom, h: (u64, u64), n: nat) {
    && before.Sized() && |after.bitmap| == |before.bitmap| && after == before.(bitmap := after.bitmap)
    && forall x :: 0 <= x < 64 * |before.bitmap| ==>
         (after.Bit(x) <==> before.Bit(x) || exists i :: 0 <= i < n && x == Probe(h, before.bits, i))
  }

  lemma AddProbe(before: Bloom, after: Bloom, h: (u64, u64), n: nat)
    requires Added(before, after, h, n)
    ensures Added(before, WithBit(after, Probe(h, before.bits, n)), h, n + 1)
  {
    hide Probe, WithBit;
  }

  /** All of key's bits are set. */
  predicate Covers(sip: Sip, b: Bloom, key: Bytes)
    requires b.Sized()
  {
    forall i :: 0 <= i < b.k ==> b.Bit(Probe(Hashes(sip, b, key), b.bits, i))
  }

  /** Reads a filter value, as the search on a reopened table does. */
  method Check(sip: Sip, b: Bloom, key: Bytes) returns (maybe: bool)
    requires b.Sized()
    ensures maybe <==> Covers(sip, b, key)
  {
    var h := Hashes(sip, b, key);
    for i := 0 to b.k
      invariant forall j :: 0 <= j < i ==> b.Bit(Probe(h, b.bits, j))
    {
      if !b.Bit(Probe(h, b.bits, i)) { return false; }
    }
    return true;
  }

  class BloomFilter {
    const sip: Sip
    const bits: u64
    const k: u32
    const keys: SipKeys
    const bitmap: array<Word>

    ghost predicate Valid()
      reads this
    {
      0 < bits <= 64 * bitmap.Length
    }

    function Contents(): Bloom
      reads this, bitmap
    {
      Bloom(bitmap[..], bits, k, keys)
    }

    constructor (sip: Sip, bits: u64, k: u32, keys: SipKeys)
      requires bits > 0
      ensures Valid() && fresh(bitmap) && this.sip == sip
      ensures this.bits == bits && this.k == k && this.keys == keys && bitmap.Length == (bits + 63) / 64
      ensures forall i :: 0 <= i < bitmap.Length ==> bitmap[i] == seq(64, _ => false)
    {
      this.sip, this.bits, this.k, this.keys := sip, bits, k, keys;
      var blank: Word := seq(64, _ => false);
      bitmap := new Word[(bits + 63) / 64](_ => blank);
    }

    method SetBit(idx: nat)
      requires idx < 64 * bitmap.Length
      modifies bitmap
      ensures Contents() == WithBit(old(Contents()), idx)
    {
      var word: Word := bitmap[idx / 64][idx % 64 := true];
      bitmap[idx / 64] := word;
    }

    /** Sets key's bits and no others. */
    method Set(key: Bytes)
      requires Valid()
      modifies bitmap
      ensures Valid() && Added(old(Contents()), Contents(), Hashes(sip, old(Contents()), key), k)
    {
      var h := Hashes(sip, Contents(), key);
      ghost var before := Contents();
      for i := 0 to k
        invariant Added(before, Contents(), h, i)
      {
        AddProbe(before, Contents(), h, i);
        SetBit(Probe(h, bits, i));
      }
    }
  }

  /** No false negatives: adding a key covers it and uncovers no other. */
  lemma CoverageGrows(sip: Sip, before: Bloom, after: Bloom, key: Bytes, other: Bytes)
    requires Added(before, after, Hashes(sip, before, key), before.k)
    ensures Covers(sip, after, key)
    ensures Covers(sip, before, other) ==> Covers(sip, after, other)
  {
    hide Probe;
    assert Hashes(sip, after, key) == Hashes(sip, before, key);
    assert Hashes(sip, after, other) == Hashes(sip, before, other);
  }

  // --- Serialized form: fixed-width little-endian integers, the bitmap preceded by a u64 count ---

  function BitsToNat(w: seq<bool>): nat {
    if w == [] then 0 else (if w[0] then 1 else 0) + 2 * BitsToNat(w[1..])
  }

  function NatToBits(n: nat, width: nat): (w: seq<bool>)
    ensures |w| == width
    decreases width
  {
    if width == 0 then [] else [n % 2 == 1] + NatToBits(n / 2, width - 1)
  }

  function Pow2(n: nat): nat { if n == 0 then 1 else 2 * Pow2(n - 1) }

  lemma {:induction false} BitsRoundTrip(w: seq<bool>)
    ensures NatToBits(BitsToNat(w), |w|) == w && BitsToNat(w) < Pow2(|w|)
  {
    if w != [] {
      BitsRoundTrip(w[1..]);
    }
  }

  lemma WordFits(w: Word)
    ensures BitsToNat(w) < TWO64
  {
    BitsRoundTrip(w);
    assert Pow2(8) == 0x100;
    Pow2Add(8, 8);
    Pow2Add(16, 16);
    Pow2Add(32, 32);
  }

  lemma {:induction false} Pow2Add(a: nat, b: nat)
    ensures Pow2(a + b) == Pow2(a) * Pow2(b)
  {
    if a > 0 {
      Pow2Add(a - 1, b);
      assert Pow2(a + b) == 2 * (Pow2(a - 1) * Pow2(b));
    }
  }

  function EncodeWord(w: Word): Bytes {
    Le(BitsToNat(w), 8)
  }

  function ParseWord(bs: Bytes): Parsed<Word> {
    var (n, rest) :- ParseU64(bs);
    Ok(NatToBits(n, 64), rest)
  }

  lemma WordRoundTrip(w: Word)
    ensures Undoes(ParseWord, EncodeWord, w)
  {
    forall tail: Bytes ensures ParseWord(EncodeWord(w) + tail) == Ok(w, tail) {
      WordFits(w);
      ParseLe(BitsToNat(w), tail);
      BitsRoundTrip(w);
    }
  }

  function EncodeParams(b: Bloom): Bytes {
    Le(b.bits, 8) + (Le(b.k, 4) + (Le(b.keys.a0, 8) + (Le(b.keys.a1, 8) + (Le(b.keys.b0, 8) + Le(b.keys.b1, 8)))))
  }

  function Encode(b: Bloom): Bytes {
    Le(|b.bitmap|, 8) + (EncodeItems(EncodeWord, b.bitmap) + EncodeParams(b))
  }

  lemma {:induction false} WordsLength(words: seq<Word>)
    ensures |EncodeItems(EncodeWord, words)| == 8 * |words|
  {
    hide BitsToNat;
    if words != [] { WordsLength(words[1..]); }
  }

  /** On disk: how many words, the words, then bit count, probes and the two hash keys. */
  lemma Layout(b: Bloom)
    requires |b.bitmap| < TWO64
    ensures var bs, n := Encode(b), 8 + 8 * |b.bitmap|;
            && |bs| == n + 44 && FromLe(bs[..8]) == |b.bitmap| && bs[8..n] == EncodeItems(EncodeWord, b.bitmap)
            && FromLe(bs[n..n + 8]) == b.bits && FromLe(bs[n + 8..n + 12]) == b.k
            && FromLe(bs[n + 12..n + 20]) == b.keys.a0 && FromLe(bs[n + 20..n + 28]) == b.keys.a1
            && FromLe(bs[n + 28..n + 36]) == b.keys.b0 && FromLe(bs[n + 36..]) == b.keys.b1
  {
    hide Le, FromLe, EncodeItems;
    Widths();
    WordsLength(b.bitmap);
    var bs, n, words, params := Encode(b), 8 + 8 * |b.bitmap|, EncodeItems(EncodeWord, b.bitmap), EncodeParams(b);
    assert bs == Le(|b.bitmap|, 8) + words + params;
    assert bs[..8] == Le(|b.bitmap|, 8) && bs[8..n] == words && bs[n..] == params;
    LeRoundTrip(|b.bitmap|, 8);
    ParamsLayout(b);
    assert bs[n..n + 8] == params[..8] && bs[n + 8..n + 12] == params[8..12] && bs[n + 12..n + 20] == params[12..20];
    assert bs[n + 20..n + 28] == params[20..28] && bs[n + 28..n + 36] == params[28..36] && bs[n + 36..] == params[36..];
  }

  lemma ParamsLayout(b: Bloom)
    ensures var p := EncodeParams(b);
            && |p| == 44 && FromLe(p[..8]) == b.bits && FromLe(p[8..12]) == b.k
            && FromLe(p[12..20]) == b.keys.a0 && FromLe(p[20..28]) == b.keys.a1
            && FromLe(p[28..36]) == b.keys.b0 && FromLe(p[36..]) == b.keys.b1
  {
    hide Le, FromLe;
    Widths();
    LeRoundTrip(b.bits, 8);
    LeRoundTrip(b.k, 4);
    LeRoundTrip(b.keys.a0, 8);
    LeRoundTrip(b.keys.a1, 8);
    LeRoundTrip(b.keys.b0, 8);
    LeRoundTrip(b.keys.b1, 8);
    var p := EncodeParams(b);
    assert p[..8] == Le(b.bits, 8) && p[8..12] == Le(b.k, 4) && p[12..20] == Le(b.keys.a0, 8);
    assert p[20..28] == Le(b.keys.a1, 8) && p[28..36] == Le(b.keys.b0, 8) && p[36..] == Le(b.keys.b1, 8);
  }

  function Parse(bs: Bytes): Parsed<Bloom> {
    var (n, r0) :- ParseU64(bs);
    var (bitmap, r1) :- ParseItems(ParseWord, n, r0);
    var (bits, r2) :- ParseU64(r1);
    var (k, r3) :- ParseU32(r2);
    var (k00, r4) :- ParseU64(r3);
    var (k01, r5) :- ParseU64(r4);
    var (k10, r6) :- ParseU64(r5);
    var (k11, r7) :- ParseU64(r6);
    Ok(Bloom(bitmap, bits, k, SipKeys(k00, k01, k10, k11)), r7)
  }

  lemma RoundTrip(b: Bloom)
    requires |b.bitmap| < TWO64
    ensures Parse(Encode(b)) == Ok(b, [])
  {
    hide Le, ParseU64, ParseU32, ParseWord, EncodeWord;
    var p := EncodeParams(b);
    var p5 := Le(b.keys.b1, 8);
    var p4 := Le(b.keys.b0, 8) + p5;
    var p3 := Le(b.keys.a1, 8) + p4;
    var p2 := Le(b.keys.a0, 8) + p3;
    var p1 := Le(b.k, 4) + p2;
    assert p == Le(b.bits, 8) + p1;
    ParseLe(|b.bitmap|, EncodeItems(EncodeWord, b.bitmap) + p);
    forall i | 0 <= i < |b.bitmap| ensures Undoes(ParseWord, EncodeWord, b.bitmap[i]) {
      WordRoundTrip(b.bitmap[i]);
    }
    ItemsRoundTrip(ParseWord, EncodeWord, b.bitmap, p);
    ParseLe(b.bits, p1);
    ParseLe(b.k, p2);
    ParseLe(b.keys.a0, p3);
    ParseLe(b.keys.a1, p4);
    ParseLe(b.keys.b0, p5);
    assert p5 == p5 + [];
    ParseLe(b.keys.b1, []);
  }
}
