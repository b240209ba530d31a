/** The manifest: the list of logs and levels that make up the database, and its file format. */
module Manifests {
  import opened Codec
  import Keys

  type Crc = Bytes -> u32

  datatype FileMeta = FileMeta(fileId: u32, fileSize: u32, minKey: Keys.Key, maxKey: Keys.Key)

  type Level = seq<FileMeta>

  datatype Manifest = Manifest(wals: seq<u32>, levels: seq<Level>, nextWalId: nat, nextSstableId: nat, version: nat)

  const MAGIC: u32 := 0x4D53_4C45
  const FORMAT_VERSION: u32 := 0

  // --- Nested vectors of file metadata ---

  function EncodeU32(n: u32): Bytes { Le(n, 4) }

  function EncodeMeta(f: FileMeta): Bytes {
    Le(f.fileId, 4) + (Le(f.fileSize, 4) + (Keys.Encode(f.minKey) + Keys.Encode(f.maxKey)))
  }

  function ParseMeta(bs: Bytes): Parsed<FileMeta> {
    var (fileId, r1) :- ParseU32(bs);
    var (fileSize, r2) :- ParseU32(r1);
    var (minKey, r3) :- Keys.Parse(r2);
    var (maxKey, r4) :- Keys.Parse(r3);
    Ok(FileMeta(fileId, fileSize, minKey, maxKey), r4)
  }

  function EncodeLevel(l: Level): Bytes { EncodeVec(EncodeMeta, l) }

  function ParseLevel(bs: Bytes): Parsed<Level> { ParseVec(ParseMeta, bs) }

  function Body(m: Manifest): Bytes {
    EncodeVec(EncodeU32, m.wals) + EncodeVec(EncodeLevel, m.levels)
  }

  function Encode(crc: Crc, m: Manifest): Bytes {
    var body := Body(m);
    Le(MAGIC, 4) + (Le(crc(body), 4) + (Le(|body|, 4) + (Le(FORMAT_VERSION, 4) +
    (Le(|m.wals|, 4) + (Le(|m.levels|, 4) + body)))))
  }

  function ParseBody(bs: Bytes): Parsed<Manifest> {
    var (wals, r1) :- ParseVec(ParseU32, bs);
    var (levels, r2) :- ParseVec(ParseLevel, r1);
    Ok(Manifest(wals, levels, 0, 0, 0), r2)
  }

  function Parse(crc: Crc, bs: Bytes): Parsed<Manifest> {
    var (magic, r1) :- ParseU32(bs);
    if magic != MAGIC then Corrupt else
    var (sum, r2) :- ParseU32(r1);
    var (size, r3) :- ParseU32(r2);
    var (format, r4) :- ParseU32(r3);
    if format != FORMAT_VERSION then Corrupt else
    var (_, r5) :- ParseU32(r4);
    var (_, r6) :- ParseU32(r5);
    var (body, rest) :- Take(size, r6);
    if crc(body) != sum then Corrupt else
    var (m, _) :- ParseBody(body);
    Ok(m, rest)
  }

  // --- Round trip ---

  predicate MetaEncodable(f: FileMeta) {
    Keys.Encodable(f.minKey) && Keys.Encodable(f.maxKey)
  }

  /** Every length fits its field. */
  predicate Encodable(m: Manifest) {
    && |m.wals| < 0x1_0000_0000 && |m.levels| < 0x1_0000_0000 && |Body(m)| < 0x1_0000_0000
    && (forall l :: l in m.levels ==> |l| < 0x1_0000_0000)
    && (forall l, f :: l in m.levels && f in l ==> MetaEncodable(f))
  }

  /** A file's entry on disk: id, size, first key, last key. */
  lemma MetaLayout(f: FileMeta)
    ensures var bs := EncodeMeta(f);
            && FromLe(bs[..4]) == f.fileId && FromLe(bs[4..8]) == f.fileSize
            && bs[8..] == Keys.Encode(f.minKey) + Keys.Encode(f.maxKey)
  {
    hide Le, FromLe, Keys.Encode;
    Widths();
    LeRoundTrip(f.fileId, 4);
    LeRoundTrip(f.fileSize, 4);
    assert EncodeMeta(f)[..4] == Le(f.fileId, 4) && EncodeMeta(f)[4..8] == Le(f.fileSize, 4);
  }

  lemma MetaRoundTrip(f: FileMeta)
    requires MetaEncodable(f)
    ensures Undoes(ParseMeta, EncodeMeta, f)
  {
    hide Le, ParseU32, Keys.Parse, Keys.Encode;
    forall tail: Bytes ensures ParseMeta(EncodeMeta(f) + tail) == Ok(f, tail) {
      var r3 := Keys.Encode(f.maxKey) + tail;
      var r2 := Keys.Encode(f.minKey) + r3;
      var r1 := Le(f.fileSize, 4) + r2;
      assert EncodeMeta(f) + tail == Le(f.fileId, 4) + r1;
      ParseLe(f.fileId, r1);
      ParseLe(f.fileSize, r2);
      Keys.RoundTrip(f.minKey, r3);
      Keys.RoundTrip(f.maxKey, tail);
    }
  }

  lemma LevelRoundTrip(l: Level)
    requires |l| < 0x1_0000_0000 && forall f :: f in l ==> MetaEncodable(f)
    ensures Undoes(ParseLevel, EncodeLevel, l)
  {
    hide ParseMeta, EncodeMeta;
    forall tail: Bytes ensures ParseLevel(EncodeLevel(l) + tail) == Ok(l, tail) {
      forall i | 0 <= i < |l| ensures Undoes(ParseMeta, EncodeMeta, l[i]) {
        MetaRoundTrip(l[i]);
      }
      VecRoundTrip(ParseMeta, EncodeMeta, l, tail);
    }
  }

  lemma U32RoundTrip(n: u32)
    ensures Undoes(ParseU32, EncodeU32, n)
  {
    forall tail: Bytes ensures ParseU32(EncodeU32(n) + tail) == Ok(n, tail) {
      ParseLe(n, tail);
    }
  }

  lemma BodyRoundTrip(m: Manifest)
    requires Encodable(m)
    ensures ParseBody(Body(m)) == Ok(Manifest(m.wals, m.levels, 0, 0, 0), [])
  {
    hide EncodeU32, ParseU32, EncodeLevel, ParseLevel, EncodeVec, ParseVec;
    forall i | 0 <= i < |m.wals| ensures Undoes(ParseU32, EncodeU32, m.wals[i]) {
      U32RoundTrip(m.wals[i]);
    }
    forall i | 0 <= i < |m.levels| ensures Undoes(ParseLevel, EncodeLevel, m.levels[i]) {
      assert m.levels[i] in m.levels;
      LevelRoundTrip(m.levels[i]);
    }
    var levels := EncodeVec(EncodeLevel, m.levels);
    VecRoundTrip(ParseU32, EncodeU32, m.wals, levels);
    VecRoundTrip(ParseLevel, EncodeLevel, m.levels, []);
    assert levels + [] == levels;
  }

  /** Decoding an encoded manifest followed by any bytes returns its logs and levels and reads no further. */
  lemma RoundTrip(crc: Crc, m: Manifest, tail: Bytes)
    requires Encodable(m)
    ensures Parse(crc, Encode(crc, m) + tail) == Ok(Manifest(m.wals, m.levels, 0, 0, 0), tail)
  {
    hide Le, ParseU32, Body, ParseBody;
    var body := Body(m);
    var r6 := body + tail;
    var r5 := Le(|m.levels|, 4) + r6;
    var r4 := Le(|m.wals|, 4) + r5;
    var r3 := Le(FORMAT_VERSION, 4) + r4;
    var r2 := Le(|body|, 4) + r3;
    var r1 := Le(crc(body), 4) + r2;
    assert Encode(crc, m) + tail == Le(MAGIC, 4) + r1;
    ParseLe(MAGIC, r1);
    ParseLe(crc(body), r2);
    ParseLe(|body|, r3);
    ParseLe(FORMAT_VERSION, r4);
    ParseLe(|m.wals|, r5);
    ParseLe(|m.levels|, r6);
    Split(body, tail);
    BodyRoundTrip(m);
  }

  // --- Damage ---

  /** A header with these fields, and what follows it. */
  function Headed(magic: u32, sum: u32, size: nat, format: u32, wals: u32, levels: u32, rest: Bytes): Bytes {
    Le(magic, 4) + (Le(sum, 4) + (Le(size, 4) + (Le(format, 4) + (Le(wals, 4) + (Le(levels, 4) + rest)))))
  }

  /** What is written: the header with the body's checksum and length and the numbers of WALs and levels, then the
      body. */
  lemma EncodeIsHeaded(crc: Crc, m: Manifest)
    requires Encodable(m)
    ensures Encode(crc, m)
         == Headed(MAGIC, crc(Body(m)), |Body(m)|, FORMAT_VERSION, |m.wals|, |m.levels|, Body(m))
  {
    hide Body;
  }

  /** A manifest whose magic, format version or body checksum is another is refused, whatever the rest. */
  lemma DamagedIsCorrupt(crc: Crc, magic: u32, sum: u32, format: u32, wals: u32, levels: u32, body: Bytes, tail: Bytes)
    requires |body| < 0x1_0000_0000
    requires magic != MAGIC || format != FORMAT_VERSION || sum != crc(body)
    ensures Parse(crc, Headed(magic, sum, |body|, format, wals, levels, body + tail)).Corrupt?
  {
    hide Le, ParseU32, ParseBody, Parse;
    var r6 := body + tail;
    var r5 := Le(levels, 4) + r6;
    var r4 := Le(wals, 4) + r5;
    var r3 := Le(format, 4) + r4;
    var r2 := Le(|body|, 4) + r3;
    var r1 := Le(sum, 4) + r2;
    var bs := Le(magic, 4) + r1;
    assert bs == Headed(magic, sum, |body|, format, wals, levels, body + tail);
    ParseLe(magic, r1);
    ParseLe(sum, r2);
    ParseLe(|body|, r3);
    ParseLe(format, r4);
    ParseLe(wals, r5);
    ParseLe(levels, r6);
    Split(body, tail);
    FieldsDecide(crc, bs, r1, r2, r3, r4, r5, body, tail);
  }

  lemma FieldsDecide(crc: Crc, bs: Bytes, r1: Bytes, r2: Bytes, r3: Bytes, r4: Bytes, r5: Bytes, body: Bytes,
                     tail: Bytes)
    requires ParseU32(bs).Ok? && ParseU32(bs).rest == r1 && ParseU32(r1).Ok? && ParseU32(r1).rest == r2
    requires ParseU32(r2) == Ok(|body|, r3) && ParseU32(r3).Ok? && ParseU32(r3).rest == r4
    requires ParseU32(r4).Ok? && ParseU32(r4).rest == r5 && ParseU32(r5).Ok? && ParseU32(r5).rest == body + tail
    requires || ParseU32(bs).value != MAGIC || ParseU32(r3).value != FORMAT_VERSION
             || ParseU32(r1).value != crc(body)
    ensures Parse(crc, bs).Corrupt?
  {
    hide ParseU32, ParseBody;
    assert (body + tail)[..|body|] == body;
  }

  /** The body: how many WALs and their ids, then how many levels and what they are. */
  lemma BodyLayout(m: Manifest)
    requires |m.wals| < 0x1_0000_0000
    ensures var bs, n := Body(m), 4 + |EncodeItems(EncodeU32, m.wals)|;
            && n == 4 + 4 * |m.wals| <= |bs| && FromLe(bs[..4]) == |m.wals|
            && (forall i :: 0 <= i < |m.wals| ==> FromLe(bs[4 + 4 * i..8 + 4 * i]) == m.wals[i])
            && bs[n..] == Le(|m.levels|, 4) + EncodeItems(EncodeLevel, m.levels)
  {
    hide Le, FromLe, EncodeItems;
    Widths();
    LeRoundTrip(|m.wals|, 4);
    IdsLayout(m.wals);
    var ids := EncodeItems(EncodeU32, m.wals);
    var bs, levels := Body(m), Le(|m.levels|, 4) + EncodeItems(EncodeLevel, m.levels);
    assert bs == Le(|m.wals|, 4) + (ids + levels);
    assert bs[..4] == Le(|m.wals|, 4);
    forall i | 0 <= i < |m.wals| ensures FromLe(bs[4 + 4 * i..8 + 4 * i]) == m.wals[i] {
      assert bs[4 + 4 * i..8 + 4 * i] == ids[4 * i..4 * i + 4];
    }
  }

  lemma {:induction false} IdsLayout(ids: seq<u32>)
    ensures |EncodeItems(EncodeU32, ids)| == 4 * |ids|
    ensures forall i :: 0 <= i < |ids| ==> FromLe(EncodeItems(EncodeU32, ids)[4 * i..4 * i + 4]) == ids[i]
  {
    hide Le, FromLe;
    if ids != [] {
      var rest := EncodeItems(EncodeU32, ids[1..]);
      IdsLayout(ids[1..]);
      Widths();
      LeRoundTrip(ids[0], 4);
      assert EncodeItems(EncodeU32, ids) == Le(ids[0], 4) + rest;
      forall i | 0 <= i < |ids| ensures FromLe(EncodeItems(EncodeU32, ids)[4 * i..4 * i + 4]) == ids[i] {
        if i == 0 {
          assert EncodeItems(EncodeU32, ids)[0..4] == Le(ids[0], 4);
        } else {
          assert EncodeItems(EncodeU32, ids)[4 * i..4 * i + 4] == rest[4 * (i - 1)..4 * (i - 1) + 4];
        }
      }
    }
  }

  /** One that is read has the magic, the format version and the checksum of the body it was decoded from. */
  lemma ReadIsChecked(crc: Crc, bs: Bytes)
    requires Parse(crc, bs).Ok?
    ensures |bs| >= 24 && FromLe(bs[..4]) == MAGIC && FromLe(bs[12..16]) == FORMAT_VERSION
    ensures var size := FromLe(bs[8..12]);
            && 24 + size <= |bs| && FromLe(bs[4..8]) == crc(bs[24..24 + size])
            && ParseBody(bs[24..24 + size]).Ok? && ParseBody(bs[24..24 + size]).value == Parse(crc, bs).value
  {
    hide FromLe, ParseBody;
    var r1 := bs[4..];
    var r2 := r1[4..];
    var r3 := r2[4..];
    var r4 := r3[4..];
    var r5 := r4[4..];
    assert r1[..4] == bs[4..8] && r2 == bs[8..] && r2[..4] == bs[8..12] && r3 == bs[12..] && r3[..4] == bs[12..16];
    assert r4 == bs[16..] && r5 == bs[20..] && r5[4..] == bs[24..];
    var size := FromLe(bs[8..12]);
    assert bs[24..][..size] == bs[24..24 + size];
  }

  // --- Counters recovered at startup ---

  function Max(a: nat, b: nat): nat { if a > b then a else b }

  function MaxId(ids: seq<u32>): (r: nat)
    ensures forall i :: i in ids ==> i <= r
    ensures r == 0 || r in ids
  {
    if ids == [] then 0
    else
      assert ids == [ids[0]] + ids[1..];
      Max(ids[0], MaxId(ids[1..]))
  }

  function FileIds(levels: seq<Level>): (r: seq<u32>)
    ensures forall l, f :: l in levels && f in l ==> f.fileId in r
    ensures forall id :: id in r ==> exists l, f :: l in levels && f in l && f.fileId == id
  {
    if levels == [] then []
    else
      assert levels == [levels[0]] + levels[1..];
      var here, there := LevelIds(levels[0]), FileIds(levels[1..]);
      assert forall id :: id in there ==> exists l, f :: l in levels && f in l && f.fileId == id by {
        forall id | id in there ensures exists l, f :: l in levels && f in l && f.fileId == id {
          var l, f :| l in levels[1..] && f in l && f.fileId == id;
          assert l in levels;
        }
      }
      here + there
  }

  function LevelIds(l: Level): (r: seq<u32>)
    ensures |r| == |l| && forall i :: 0 <= i < |l| ==> r[i] == l[i].fileId
    ensures forall id :: id in r ==> exists f :: f in l && f.fileId == id
  {
    seq(|l|, i requires 0 <= i < |l| => l[i].fileId)
  }

  /** `try_open` on a file named after `version`. */
  function TryOpen(crc: Crc, file: Bytes, version: u32): Option<Manifest> {
    var p := Parse(crc, file);
    if !p.Ok? then None
    else Some(p.value.(version := version,
                       nextWalId := MaxId(p.value.wals) + 1,
                       nextSstableId := MaxId(FileIds(p.value.levels)) + 1))
  }

  /** Reopening a written manifest keeps its content, and the fresh ids it hands out are above
      every id the manifest names: the least such counters. */
  lemma ReopenedCountersAreFresh(crc: Crc, m: Manifest, version: u32)
    requires Encodable(m)
    ensures var r := TryOpen(crc, Encode(crc, m), version);
            && r.Some? && r.value.wals == m.wals && r.value.levels == m.levels && r.value.version == version
            && (forall w :: w in m.wals ==> w < r.value.nextWalId)
            && (forall l, f :: l in m.levels && f in l ==> f.fileId < r.value.nextSstableId)
            && (r.value.nextWalId > 1 ==> r.value.nextWalId - 1 in m.wals)
            && (r.value.nextSstableId > 1 ==>
                  exists l, f :: l in m.levels && f in l && f.fileId == r.value.nextSstableId - 1)
  {
    hide Encode, Parse;
    RoundTrip(crc, m, []);
    assert Encode(crc, m) + [] == Encode(crc, m);
  }
}
