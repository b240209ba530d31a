/** Internal keys: user bytes ascending, then LSN descending, so the newest version sorts first. */
module Keys {
  import opened Codec

  datatype Key = Key(bytes: Bytes, lsn: u64)

  const MAX_LSN: u64 := 0xFFFF_FFFF_FFFF_FFFF

  predicate BytesLess(a: Bytes, b: Bytes) {
    b != [] && (a == [] || a[0] < b[0] || (a[0] == b[0] && BytesLess(a[1..], b[1..])))
  }

  predicate Less(a: Key, b: Key) {
    BytesLess(a.bytes, b.bytes) || (a.bytes == b.bytes && a.lsn > b.lsn)
  }

  predicate Leq(a: Key, b: Key) {
    a == b || Less(a, b)
  }

  /** They agree up to n, where the first ends or has the smaller byte. */
  predicate Precedes(a: Bytes, b: Bytes, n: nat) {
    n <= |a| && n < |b| && a[..n] == b[..n] && (n == |a| || a[n] < b[n])
  }

  lemma FirstDiffer(a: Bytes, b: Bytes)
    requires a != [] && b != [] && a[0] != b[0]
    ensures Precedes(a, b, 0) <==> a[0] < b[0]
    ensures forall n: nat :: Precedes(a, b, n) ==> n == 0
  {
    forall n: nat | n > 0 ensures !Precedes(a, b, n) {
      assert n <= |a| && n < |b| ==> a[..n][0] == a[0] && b[..n][0] == b[0];
    }
  }

  /** The order of user keys is the lexicographic one on their bytes. */
  lemma {:induction false} BytesLessIff(a: Bytes, b: Bytes)
    ensures BytesLess(a, b) <==> exists n: nat :: Precedes(a, b, n)
  {
    if b == [] {
    } else if a == [] {
      assert Precedes(a, b, 0);
    } else if a[0] != b[0] {
      FirstDiffer(a, b);
    } else {
      BytesLessIff(a[1..], b[1..]);
      if n: nat :| Precedes(a[1..], b[1..], n) {
        assert a[..n + 1] == [a[0]] + a[1..][..n] == b[..n + 1];
        assert Precedes(a, b, n + 1);
      }
      if n: nat :| Precedes(a, b, n) {
        assert n > 0;
        assert a[1..][..n - 1] == a[..n][1..] == b[..n][1..] == b[1..][..n - 1];
        assert Precedes(a[1..], b[1..], n - 1);
      }
    }
  }

  lemma {:induction false} BytesTrichotomy(a: Bytes, b: Bytes)
    ensures a == b || BytesLess(a, b) || BytesLess(b, a)
    ensures !(BytesLess(a, b) && BytesLess(b, a))
    ensures a == b ==> !BytesLess(a, b)
  {
    if a != [] && b != [] {
      BytesTrichotomy(a[1..], b[1..]);
      if a[0] == b[0] && a[1..] == b[1..] {
        assert a == [a[0]] + a[1..] == [b[0]] + b[1..] == b;
      }
    }
  }

  lemma {:induction false} BytesTransitive(a: Bytes, b: Bytes, c: Bytes)
    requires BytesLess(a, b) && BytesLess(b, c)
    ensures BytesLess(a, c)
  {
    if a != [] && a[0] == b[0] == c[0] && BytesLess(a[1..], b[1..]) && BytesLess(b[1..], c[1..]) {
      BytesTransitive(a[1..], b[1..], c[1..]);
    }
  }

  lemma Trichotomy(a: Key, b: Key)
    ensures a == b || Less(a, b) || Less(b, a)
    ensures !(Less(a, b) && Less(b, a))
    ensures !Less(a, a)
  {
    BytesTrichotomy(a.bytes, b.bytes);
    BytesTrichotomy(a.bytes, a.bytes);
  }

  lemma Transitive(a: Key, b: Key, c: Key)
    requires Leq(a, b) && Leq(b, c)
    ensures Leq(a, c)
    ensures Less(a, b) || Less(b, c) ==> Less(a, c)
  {
    if BytesLess(a.bytes, b.bytes) && BytesLess(b.bytes, c.bytes) {
      BytesTransitive(a.bytes, b.bytes, c.bytes);
    }
  }

  /** Internal keys are strictly totally ordered: what every sort, search and merge below relies on. */
  lemma TotalOrder()
    ensures forall a, b {:trigger Less(a, b)} :: Less(a, b) ==> !Less(b, a) && a != b
    ensures forall a, b {:trigger Less(a, b)} :: !Less(a, b) ==> Leq(b, a)
    ensures forall a, b, c {:trigger Less(a, b), Less(b, c)} :: Less(a, b) && Less(b, c) ==> Less(a, c)
  {
    forall a, b ensures Less(a, b) ==> !Less(b, a) && a != b
      ensures !Less(a, b) ==> Leq(b, a)
    {
      Trichotomy(a, b);
    }
    forall a, b, c | Less(a, b) && Less(b, c) ensures Less(a, c) { Transitive(a, b, c); }
  }

  /** Between the newest and the oldest conceivable version of k lie exactly the versions of k. */
  lemma VersionsAreContiguous(k: Bytes, x: Key)
    ensures (Leq(Key(k, MAX_LSN), x) && Leq(x, Key(k, 0))) <==> x.bytes == k
  {
    BytesTrichotomy(k, x.bytes);
    BytesTrichotomy(k, k);
  }

  // --- Loggable for Key: LSN (8), length (2), bytes ---

  const HEADER_SIZE: nat := 10

  function Encode(k: Key): (r: Bytes)
    ensures |r| == HEADER_SIZE + |k.bytes|
  {
    Le(k.lsn, 8) + Le(|k.bytes|, 2) + k.bytes
  }

  function Parse(bs: Bytes): (r: Parsed<Key>)
    ensures r.Ok? ==> |r.rest| + HEADER_SIZE + |r.value.bytes| == |bs|
  {
    var (lsn, r1) :- ParseU64(bs);
    var (len, r2) :- ParseU16(r1);
    var (bytes, r3) :- Take(len, r2);
    Ok(Key(bytes, lsn), r3)
  }

  /** The unread bytes are a suffix of the input. */
  lemma ParsePrefix(bs: Bytes)
    requires Parse(bs).Ok?
    ensures Parse(bs).rest == bs[|bs| - |Parse(bs).rest|..]
  {
    assert bs[8..][2..] == bs[10..];
    assert bs[10..][|Parse(bs).value.bytes|..] == bs[10 + |Parse(bs).value.bytes|..];
  }

  predicate Encodable(k: Key) { |k.bytes| < 0x1_0000 }

  /** On disk: the LSN in eight bytes, the length in two, the bytes. */
  lemma Layout(k: Key)
    requires Encodable(k)
    ensures var bs := Encode(k);
            |bs| == 10 + |k.bytes| && FromLe(bs[..8]) == k.lsn && FromLe(bs[8..10]) == |k.bytes| && bs[10..] == k.bytes
  {
    Widths();
    LeRoundTrip(k.lsn, 8);
    LeRoundTrip(|k.bytes|, 2);
    assert Encode(k)[..8] == Le(k.lsn, 8) && Encode(k)[8..10] == Le(|k.bytes|, 2);
  }

  lemma RoundTrip(k: Key, tail: Bytes)
    requires Encodable(k)
    ensures Parse(Encode(k) + tail) == Ok(k, tail)
  {
    var r1 := Le(|k.bytes|, 2) + (k.bytes + tail);
    assert Encode(k) + tail == Le(k.lsn, 8) + r1;
    ParseLe(k.lsn, r1);
    ParseLe(|k.bytes|, k.bytes + tail);
    Split(k.bytes, tail);
  }

  /** Every proper prefix of an encoded key reads as a premature end of input. */
  lemma Torn(k: Key, cut: nat)
    requires Encodable(k) && cut < |Encode(k)|
    ensures Parse(Encode(k)[..cut]).Eof?
  {
    var p := Encode(k)[..cut];
    if cut >= 8 {
      var r1 := p[8..];
      assert p == Le(k.lsn, 8) + r1;
      ParseLe(k.lsn, r1);
      if cut >= 10 {
        assert r1 == Le(|k.bytes|, 2) + p[10..];
        ParseLe(|k.bytes|, p[10..]);
      }
    }
  }
}
