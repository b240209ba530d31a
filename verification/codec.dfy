/** Bytes, little-endian integers and length-prefixed vectors, the shared on-disk alphabet. */
module Codec {

  type byte = x: int | 0 <= x < 0x100
  type u16 = x: int | 0 <= x < 0x1_0000
  type u32 = x: int | 0 <= x < 0x1_0000_0000
  type u64 = x: int | 0 <= x < 0x1_0000_0000_0000_0000
  type Bytes = seq<byte>

  datatype Option<+T> = None | Some(value: T)

  /** What a decoder says about its input: a value and the unread bytes, a premature
      end of input, or bytes that no encoder writes. */
  datatype Parsed<+T> = Ok(value: T, rest: Bytes) | Eof | Corrupt
  {
    predicate IsFailure() { !Ok? }

    function PropagateFailure<U>(): Parsed<U>
      requires IsFailure()
    {
      if Eof? then Parsed<U>.Eof else Parsed<U>.Corrupt
    }

    function Extract(): (T, Bytes)
      requires Ok?
    {
      (value, rest)
    }
  }

  function Pow256(width: nat): (p: nat)
    ensures p >= 1
  {
    if width == 0 then 1 else 256 * Pow256(width - 1)
  }

  lemma Widths()
    ensures Pow256(1) == 0x100
    ensures Pow256(2) == 0x1_0000
    ensures Pow256(4) == 0x1_0000_0000
    ensures Pow256(8) == 0x1_0000_0000_0000_0000
  {
    assert Pow256(2) == 0x1_0000;
    assert Pow256(4) == 0x1_0000 * Pow256(2);
    assert Pow256(6) == 0x1_0000 * Pow256(4);
    assert Pow256(8) == 0x1_0000 * Pow256(6);
  }

  /** The low `width` bytes of n, least significant first; higher bytes are dropped as `as u16` and `as u32` do. */
  function Le(n: nat, width: nat): (r: Bytes)
    ensures |r| == width
    decreases width
  {
    if width == 0 then [] else [n % 256] + Le(n / 256, width - 1)
  }

  function FromLe(bs: Bytes): (n: nat)
    ensures n < Pow256(|bs|)
  {
    if bs == [] then 0 else bs[0] + 256 * FromLe(bs[1..])
  }

  lemma {:induction false} LeRoundTrip(n: nat, width: nat)
    requires n < Pow256(width)
    ensures FromLe(Le(n, width)) == n
    decreases width
  {
    if width > 0 {
      LeRoundTrip(n / 256, width - 1);
      assert Le(n, width)[1..] == Le(n / 256, width - 1);
    }
  }

  /** Byte i is the i-th digit to the base 256, the lowest first. */
  lemma {:induction false} LeDigit(n: nat, width: nat, i: nat)
    requires i < width
    ensures Le(n, width)[i] == n / Pow256(i) % 256
    decreases width
  {
    if i > 0 {
      LeDigit(n / 256, width - 1, i - 1);
      DivDiv(n, Pow256(i - 1));
    }
  }

  lemma DivDiv(n: nat, p: nat)
    requires p > 0
    ensures n / 256 / p == n / (256 * p)
  {
    var q, r := n / 256 / p, n / 256 % p;
    assert n / 256 == q * p + r;
    assert n == 256 * (q * p + r) + n % 256;
    assert n == q * (256 * p) + (256 * r + n % 256);
    assert 256 * r + n % 256 < 256 * p;
    Quotient(n, 256 * p, q, 256 * r + n % 256);
  }

  lemma Quotient(n: nat, d: nat, q: nat, r: nat)
    requires d > 0 && r < d && n == q * d + r
    ensures n / d == q
  {
    var k, m := n / d, n % d;
    assert n == k * d + m;
    if k > q {
      NextMultiple(k, q, d);
    } else if k < q {
      NextMultiple(q, k, d);
    }
  }

  lemma NextMultiple(a: nat, b: nat, d: nat)
    requires a > b
    ensures a * d >= b * d + d
  {
    var t := a - b - 1;
    assert a == b + 1 + t;
    assert (b + 1 + t) * d == b * d + d + t * d;
  }

  /** `read_exact`: n bytes or a premature end. */
  function Take(n: nat, bs: Bytes): (r: Parsed<Bytes>)
    ensures r.Ok? <==> n <= |bs|
    ensures r.Ok? ==> r.value + r.rest == bs && |r.value| == n
    ensures !r.Corrupt?
  {
    if n <= |bs| then Ok(bs[..n], bs[n..]) else Eof
  }

  function ParseU8(bs: Bytes): Parsed<byte> {
    if bs == [] then Eof else Ok(bs[0], bs[1..])
  }

  function ParseU16(bs: Bytes): Parsed<u16> {
    var (b, rest) :- Take(2, bs);
    Widths();
    Ok(FromLe(b), rest)
  }

  function ParseU32(bs: Bytes): Parsed<u32> {
    var (b, rest) :- Take(4, bs);
    Widths();
    Ok(FromLe(b), rest)
  }

  function ParseU64(bs: Bytes): Parsed<u64> {
    var (b, rest) :- Take(8, bs);
    Widths();
    Ok(FromLe(b), rest)
  }

  lemma Split(a: Bytes, tail: Bytes)
    ensures (a + tail)[..|a|] == a && (a + tail)[|a|..] == tail
  {}

  lemma Associative<T>(a: seq<T>, b: seq<T>, c: seq<T>)
    ensures (a + b) + c == a + (b + c)
  {}

  lemma ParseLe(n: nat, tail: Bytes)
    ensures n < 0x1_0000 ==> ParseU16(Le(n, 2) + tail) == Ok(n, tail)
    ensures n < 0x1_0000_0000 ==> ParseU32(Le(n, 4) + tail) == Ok(n, tail)
    ensures n < 0x1_0000_0000_0000_0000 ==> ParseU64(Le(n, 8) + tail) == Ok(n, tail)
  {
    Widths();
    Split(Le(n, 2), tail);
    Split(Le(n, 4), tail);
    Split(Le(n, 8), tail);
    if n < 0x1_0000 { LeRoundTrip(n, 2); }
    if n < 0x1_0000_0000 { LeRoundTrip(n, 4); }
    if n < 0x1_0000_0000_0000_0000 { LeRoundTrip(n, 8); }
  }

  // --- Vec<T>: a u32 count, then the items ---

  function EncodeItems<T>(enc: T -> Bytes, xs: seq<T>): Bytes {
    if xs == [] then [] else enc(xs[0]) + EncodeItems(enc, xs[1..])
  }

  function EncodeVec<T>(enc: T -> Bytes, xs: seq<T>): Bytes {
    Le(|xs|, 4) + EncodeItems(enc, xs)
  }

  function ParseItems<T>(dec: Bytes -> Parsed<T>, n: nat, bs: Bytes): (r: Parsed<seq<T>>)
    ensures r.Ok? ==> |r.value| == n
  {
    if n == 0 then Ok([], bs)
    else
      var (x, rest) :- dec(bs);
      var (xs, tail) :- ParseItems(dec, n - 1, rest);
      Ok([x] + xs, tail)
  }

  function ParseVec<T>(dec: Bytes -> Parsed<T>, bs: Bytes): Parsed<seq<T>> {
    var (n, rest) :- ParseU32(bs);
    ParseItems(dec, n, rest)
  }

  /** dec undoes enc on x, whatever follows. */
  ghost predicate Undoes<T(!new)>(dec: Bytes -> Parsed<T>, enc: T -> Bytes, x: T) {
    forall tail: Bytes :: dec(enc(x) + tail) == Ok(x, tail)
  }

  lemma {:induction false} ItemsRoundTrip<T(!new)>(dec: Bytes -> Parsed<T>, enc: T -> Bytes, xs: seq<T>, tail: Bytes)
    requires forall i :: 0 <= i < |xs| ==> Undoes(dec, enc, xs[i])
    ensures ParseItems(dec, |xs|, EncodeItems(enc, xs) + tail) == Ok(xs, tail)
  {
    if xs == [] {
      assert EncodeItems(enc, xs) + tail == tail;
    } else {
      var more := EncodeItems(enc, xs[1..]) + tail;
      assert EncodeItems(enc, xs) + tail == enc(xs[0]) + more;
      assert Undoes(dec, enc, xs[0]);
      ItemsRoundTrip(dec, enc, xs[1..], tail);
      assert [xs[0]] + xs[1..] == xs;
    }
  }

  lemma VecRoundTrip<T(!new)>(dec: Bytes -> Parsed<T>, enc: T -> Bytes, xs: seq<T>, tail: Bytes)
    requires |xs| < 0x1_0000_0000
    requires forall i :: 0 <= i < |xs| ==> Undoes(dec, enc, xs[i])
    ensures ParseVec(dec, EncodeVec(enc, xs) + tail) == Ok(xs, tail)
  {
    var more := EncodeItems(enc, xs) + tail;
    assert EncodeVec(enc, xs) + tail == Le(|xs|, 4) + more;
    ParseLe(|xs|, more);
    ItemsRoundTrip(dec, enc, xs, tail);
  }

  lemma {:induction false} EncodeItemsSnoc<T>(enc: T -> Bytes, xs: seq<T>, x: T)
    ensures EncodeItems(enc, xs + [x]) == EncodeItems(enc, xs) + enc(x)
  {
    if xs == [] {
      assert xs + [x] == [x];
      assert EncodeItems(enc, [x]) == enc(x) + EncodeItems(enc, []);
    } else {
      assert (xs + [x])[1..] == xs[1..] + [x];
      EncodeItemsSnoc(enc, xs[1..], x);
    }
  }

  /** The encoding loop of Vec<T>: appends to the writer's bytes one item at a time. */
  method WriteVec<T>(enc: T -> Bytes, xs: seq<T>, writer: Bytes) returns (out: Bytes)
    ensures out == writer + EncodeVec(enc, xs)
  {
    out := writer + Le(|xs|, 4);
    for i := 0 to |xs|
      invariant out == writer + Le(|xs|, 4) + EncodeItems(enc, xs[..i])
    {
      EncodeItemsSnoc(enc, xs[..i], xs[i]);
      assert xs[..i + 1] == xs[..i] + [xs[i]];
      out := out + enc(xs[i]);
    }
    assert xs[..|xs|] == xs;
  }

  lemma {:induction false} ParseItemsSnoc<T>(dec: Bytes -> Parsed<T>, n: nat, bs: Bytes)
    ensures var p := ParseItems(dec, n, bs);
            ParseItems(dec, n + 1, bs) ==
            if p.IsFailure() then p
            else if dec(p.rest).IsFailure() then dec(p.rest).PropagateFailure()
            else Ok(p.value + [dec(p.rest).value], dec(p.rest).rest)
  {
    var head := dec(bs);
    if n == 0 {
      if head.Ok? {
        assert ParseItems(dec, 0, head.rest) == Ok([], head.rest);
        assert [head.value] + [] == [] + [head.value];
      }
    } else if head.Ok? {
      ParseItemsSnoc(dec, n - 1, head.rest);
      var p := ParseItems(dec, n - 1, head.rest);
      if p.Ok? {
        var last := dec(p.rest);
        if last.Ok? {
          assert [head.value] + (p.value + [last.value]) == ([head.value] + p.value) + [last.value];
        }
      }
    }
  }

  lemma {:induction false} ParseItemsFails<T>(dec: Bytes -> Parsed<T>, n: nat, m: nat, bs: Bytes)
    requires n <= m && ParseItems(dec, n, bs).IsFailure()
    ensures ParseItems(dec, m, bs) == ParseItems(dec, n, bs)
  {
    if dec(bs).Ok? {
      ParseItemsFails(dec, n - 1, m - 1, dec(bs).rest);
    }
  }

  /** The decoding loop of Vec<T>: fills a vector from the reader and stops at the first failure. */
  method ReadVec<T>(dec: Bytes -> Parsed<T>, reader: Bytes) returns (r: Parsed<seq<T>>)
    ensures r == ParseVec(dec, reader)
  {
    var n := ParseU32(reader);
    if n.IsFailure() { return n.PropagateFailure(); }
    var xs: seq<T>, rest := [], n.rest;
    var i := 0;
    while i < n.value
      invariant 0 <= i <= n.value
      invariant ParseItems(dec, i, n.rest) == Ok(xs, rest)
    {
      var x := dec(rest);
      ParseItemsSnoc(dec, i, n.rest);
      if x.IsFailure() {
        ParseItemsFails(dec, i + 1, n.value, n.rest);
        return x.PropagateFailure();
      }
      xs, rest, i := xs + [x.value], x.rest, i + 1;
    }
    r := Ok(xs, rest);
  }
}
