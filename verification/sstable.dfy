/** The SSTable file format and its meaning: blocks, index, Bloom filter and footer. */
module SstableFormat {
  import opened Codec
  import opened Entries
  import opened Blooms
  import Keys
  import Values

  type Crc = Bytes -> u32
  type Key = Keys.Key

  const BLOCK_SIZE: nat := 4096
  const MAGIC: Bytes := [0x41, 0x42, 0x43, 0x44]
  const FOOTER_SIZE: nat := 24

  /** Index entry: first and last key of a block, and where its frame starts. */
  datatype Fence = Fence(min: Key, max: Key, offset: nat)

  type Block = seq<Entry>

  // --- How a sequence of entries is cut into blocks ---

  /** The flushed blocks and the entries still buffered after writing es. */
  datatype Cut = Cut(flushed: seq<Block>, pending: Block)

  function Fill(es: seq<Entry>): (c: Cut)
    decreases |es|
  {
    if es == [] then Cut([], [])
    else
      var c := Fill(es[..|es| - 1]);
      var block := c.pending + [es[|es| - 1]];
      if |EncodeAll(block)| >= BLOCK_SIZE then Cut(c.flushed + [block], []) else Cut(c.flushed, block)
  }

  /** The blocks of the finished file. */
  function BlocksOf(es: seq<Entry>): seq<Block> {
    var c := Fill(es);
    if c.pending == [] then c.flushed else c.flushed + [c.pending]
  }

  function Flatten<T>(ss: seq<seq<T>>): seq<T> {
    if ss == [] then [] else ss[0] + Flatten(ss[1..])
  }

  lemma {:induction false} FlattenSnoc<T>(ss: seq<seq<T>>, s: seq<T>)
    ensures Flatten(ss + [s]) == Flatten(ss) + s
  {
    if ss == [] {
      assert ss + [s] == [s];
      assert Flatten([s]) == s + Flatten([]);
    } else {
      assert (ss + [s])[1..] == ss[1..] + [s];
      FlattenSnoc(ss[1..], s);
    }
  }

  predicate NonEmpty(blocks: seq<Block>) {
    forall i :: 0 <= i < |blocks| ==> blocks[i] != []
  }

  lemma FillSnoc(init: seq<Entry>, e: Entry)
    ensures var c := Fill(init);
            var block := c.pending + [e];
            Fill(init + [e]) == Cut(c.flushed + [block], []) || Fill(init + [e]) == Cut(c.flushed, block)
  {
    hide EncodeAll;
    assert (init + [e])[..|init|] == init;
  }

  /** Cutting loses, reorders and invents nothing, and makes no empty block. */
  lemma {:induction false} FillKeepsAll(es: seq<Entry>)
    ensures Flatten(Fill(es).flushed) + Fill(es).pending == es
    ensures NonEmpty(Fill(es).flushed)
    decreases |es|
  {
    if es != [] {
      hide Fill, Flatten;
      var init, e := es[..|es| - 1], es[|es| - 1];
      assert es == init + [e];
      FillKeepsAll(init);
      FillSnoc(init, e);
      var c := Fill(init);
      FlattenSnoc(c.flushed, c.pending + [e]);
      Associative(Flatten(c.flushed), c.pending, [e]);
      NothingAfter(Flatten(c.flushed + [c.pending + [e]]));
    } else {
      NothingAfter<Entry>([]);
    }
  }

  lemma NothingAfter<T>(a: seq<T>)
    ensures a + [] == a
  {}

  lemma BlocksKeepAll(es: seq<Entry>)
    ensures Flatten(BlocksOf(es)) == es && NonEmpty(BlocksOf(es))
    ensures es != [] ==> BlocksOf(es) != []
  {
    hide Fill, Flatten;
    var c := Fill(es);
    FillKeepsAll(es);
    FlattenSnoc(c.flushed, c.pending);
    NothingAfter(Flatten(c.flushed));
    assert es != [] ==> c.flushed != [] || c.pending != [] by { FlattenNothing(); }
  }

  lemma FlattenNothing()
    ensures Flatten<Entry>([]) == []
  {}

  // --- Layout ---

  /** [len][crc][data], the wrapping of every block. */
  function Frame(crc: Crc, data: Bytes): (r: Bytes)
    ensures |r| == 8 + |data|
  {
    Le(|data|, 4) + (Le(crc(data), 4) + data)
  }

  function DataImage(crc: Crc, blocks: seq<Block>): Bytes
    decreases |blocks|
  {
    if blocks == [] then []
    else DataImage(crc, blocks[..|blocks| - 1]) + Frame(crc, EncodeAll(blocks[|blocks| - 1]))
  }

  function Fences(crc: Crc, blocks: seq<Block>): (r: seq<Fence>)
    requires NonEmpty(blocks)
    ensures |r| == |blocks|
    decreases |blocks|
  {
    if blocks == [] then []
    else
      var init, last := blocks[..|blocks| - 1], blocks[|blocks| - 1];
      Fences(crc, init) + [Fence(last[0].key, last[|last| - 1].key, |DataImage(crc, init)|)]
  }

  lemma {:induction false} FenceAt(crc: Crc, blocks: seq<Block>, i: nat)
    requires NonEmpty(blocks) && i < |blocks|
    ensures Fences(crc, blocks)[i]
         == Fence(blocks[i][0].key, blocks[i][|blocks[i]| - 1].key, |DataImage(crc, blocks[..i])|)
    decreases |blocks|
  {
    hide DataImage;
    var n := |blocks| - 1;
    if i < n {
      FenceAt(crc, blocks[..n], i);
      assert blocks[..n][..i] == blocks[..i];
    }
  }

  function EncodeFence(f: Fence): Bytes {
    Keys.Encode(f.min) + (Keys.Encode(f.max) + Le(f.offset, 8))
  }

  function IndexBytes(min: Key, max: Key, fences: seq<Fence>): Bytes {
    Keys.Encode(min) + (Keys.Encode(max) + EncodeItems(EncodeFence, fences))
  }

  function Footer(crc: Crc, indexOffset: nat, bloomOffset: nat): (r: Bytes)
    ensures |r| == FOOTER_SIZE
  {
    var offsets := Le(indexOffset, 8) + Le(bloomOffset, 8);
    offsets + (Le(crc(offsets), 4) + MAGIC)
  }

  /** The index block's content: nothing at all for a file without entries. */
  function IndexData(crc: Crc, blocks: seq<Block>): Bytes
    requires NonEmpty(blocks)
  {
    if blocks == [] then []
    else
      var last := blocks[|blocks| - 1];
      IndexBytes(blocks[0][0].key, last[|last| - 1].key, Fences(crc, blocks))
  }

  function Image(crc: Crc, blocks: seq<Block>, bloom: Bloom): Bytes
    requires NonEmpty(blocks)
  {
    var data := DataImage(crc, blocks);
    var index := Frame(crc, IndexData(crc, blocks));
    var filter := Frame(crc, Blooms.Encode(bloom));
    data + (index + (filter + Footer(crc, |data|, |data + index|)))
  }

  /** The sizes the format can record: u32 lengths, u64 offsets. */
  predicate Fits(crc: Crc, blocks: seq<Block>, bloom: Bloom)
    requires NonEmpty(blocks)
  {
    && (forall i :: 0 <= i < |blocks| ==> AllEncodable(blocks[i]) && |EncodeAll(blocks[i])| < 0x1_0000_0000)
    && |IndexData(crc, blocks)| < 0x1_0000_0000
    && |Blooms.Encode(bloom)| < 0x1_0000_0000
    && |bloom.bitmap| < TWO64
    && |Image(crc, blocks, bloom)| < TWO64
  }

  // --- Reading ---

  /** `read_block_with_crc_at`. */
  function ReadFrame(crc: Crc, file: Bytes, offset: nat): Parsed<Bytes> {
    if offset > |file| then Eof
    else
      var (len, r1) :- ParseU32(file[offset..]);
      var (sum, r2) :- ParseU32(r1);
      var (data, r3) :- Take(len, r2);
      if crc(data) == sum then Ok(data, r3) else Corrupt
  }

  function ParseFence(bs: Bytes): (r: Parsed<Fence>)
    ensures r.Ok? ==> |r.rest| < |bs|
  {
    var (min, r1) :- Keys.Parse(bs);
    var (max, r2) :- Keys.Parse(r1);
    var (offset, r3) :- ParseU64(r2);
    Ok(Fence(min, max, offset), r3)
  }

  /** The index loop: fences until the block is used up. */
  function ParseFences(bs: Bytes): Parsed<seq<Fence>>
    decreases |bs|
  {
    if bs == [] then Ok([], [])
    else
      var (f, r1) :- ParseFence(bs);
      var (fs, r2) :- ParseFences(r1);
      Ok([f] + fs, r2)
  }

  /** An opened table: the file, its index and filter in memory. */
  datatype Table = Table(file: Bytes, index: seq<Fence>, bloom: Bloom, min: Key, max: Key)

  datatype Opened = Opened(table: Table) | Refused

  function ParseIndex(file: Bytes, bloom: Bloom, index: Bytes): Opened {
    var min := Keys.Parse(index);
    if !min.Ok? then Refused else
    var max := Keys.Parse(min.rest);
    if !max.Ok? then Refused else
    var fences := ParseFences(max.rest);
    if !fences.Ok? then Refused
    else Opened(Table(file, fences.value, bloom, min.value, max.value))
  }

  function Open(crc: Crc, file: Bytes): Opened {
    if |file| < FOOTER_SIZE then Refused
    else
      var footer := file[|file| - FOOTER_SIZE..];
      var sum := ParseU32(footer[16..]);
      var io := ParseU64(footer);
      var bo := ParseU64(footer[8..]);
      if footer[20..] != MAGIC || !io.Ok? || !bo.Ok? || !sum.Ok? || sum.value != crc(footer[..16]) then Refused
      else
        var filter := ReadFrame(crc, file, bo.value);
        if !filter.Ok? then Refused else
        var bloom := Blooms.Parse(filter.value);
        if !bloom.Ok? then Refused else
        var index := ReadFrame(crc, file, io.value);
        if !index.Ok? then Refused else
        ParseIndex(file, bloom.value, index.value)
  }

  // --- Reopening gives back what was laid out ---

  lemma ReadFrameAt(crc: Crc, before: Bytes, data: Bytes, after: Bytes)
    requires |data| < 0x1_0000_0000
    ensures ReadFrame(crc, before + (Frame(crc, data) + after), |before|) == Ok(data, after)
  {
    hide Le, ParseU32;
    var file := before + (Frame(crc, data) + after);
    var r2 := data + after;
    var r1 := Le(crc(data), 4) + r2;
    assert file[|before|..] == Frame(crc, data) + after;
    assert Frame(crc, data) + after == Le(|data|, 4) + r1;
    ParseLe(|data|, r1);
    ParseLe(crc(data), r2);
    Split(data, after);
  }

  // --- Damage ---

  /** At the offset stands a frame whose checksum is not that of its data. */
  ghost predicate Spoiled(crc: Crc, file: Bytes, offset: nat) {
    exists data: Bytes, sum: u32, after: Bytes ::
      && offset <= |file| && |data| < 0x1_0000_0000 && sum != crc(data)
      && file[offset..] == Le(|data|, 4) + (Le(sum, 4) + (data + after))
  }

  lemma ReadSpoiled(crc: Crc, file: Bytes, offset: nat)
    requires Spoiled(crc, file, offset)
    ensures ReadFrame(crc, file, offset).Corrupt?
  {
    hide Le, ParseU32;
    var data: Bytes, sum: u32, after: Bytes :|
      && offset <= |file| && |data| < 0x1_0000_0000 && sum != crc(data)
      && file[offset..] == Le(|data|, 4) + (Le(sum, 4) + (data + after));
    ParseLe(|data|, Le(sum, 4) + (data + after));
    ParseLe(sum, data + after);
    Split(data, after);
  }

  /** A block is read only as it stands in the file, under its length and its checksum. */
  lemma ReadIsChecked(crc: Crc, file: Bytes, offset: nat)
    requires ReadFrame(crc, file, offset).Ok?
    ensures var data := ReadFrame(crc, file, offset).value;
            && offset + 8 + |data| <= |file| && data == file[offset + 8..offset + 8 + |data|]
            && FromLe(file[offset..offset + 4]) == |data| && FromLe(file[offset + 4..offset + 8]) == crc(data)
  {
    hide FromLe;
    var r := file[offset..];
    assert r[..4] == file[offset..offset + 4];
    assert r[4..][..4] == file[offset + 4..offset + 8];
    assert r[4..][4..] == file[offset + 8..];
  }

  /** A block on disk: the data's length, its checksum, the data. */
  lemma FrameLayout(crc: Crc, data: Bytes)
    requires |data| < 0x1_0000_0000
    ensures var bs := Frame(crc, data);
            FromLe(bs[..4]) == |data| && FromLe(bs[4..8]) == crc(data) && bs[8..] == data
  {
    hide Le, FromLe;
    Widths();
    LeRoundTrip(|data|, 4);
    LeRoundTrip(crc(data), 4);
    assert Frame(crc, data)[..4] == Le(|data|, 4) && Frame(crc, data)[4..8] == Le(crc(data), 4);
  }

  /** An index entry: first key, last key, offset. */
  lemma FenceLayout(f: Fence)
    requires f.offset < TWO64
    ensures EncodeFence(f)[..|EncodeFence(f)| - 8] == Keys.Encode(f.min) + Keys.Encode(f.max)
    ensures FromLe(EncodeFence(f)[|EncodeFence(f)| - 8..]) == f.offset
  {
    hide Le, FromLe, Keys.Encode;
    Widths();
    LeRoundTrip(f.offset, 8);
    var keys := Keys.Encode(f.min) + Keys.Encode(f.max);
    assert EncodeFence(f) == keys + Le(f.offset, 8);
  }

  /** What opens was read as the footer says: the index, starting with the table's first and last keys, at the first
      offset, the filter at the second. */
  lemma OpenIsRead(crc: Crc, file: Bytes)
    requires Open(crc, file).Opened?
    ensures |file| >= FOOTER_SIZE && Open(crc, file).table.file == file
    ensures var t, footer := Open(crc, file).table, file[|file| - FOOTER_SIZE..];
            var index := ReadFrame(crc, file, FromLe(footer[..8]));
            var filter := ReadFrame(crc, file, FromLe(footer[8..16]));
            && footer[20..] == MAGIC && FromLe(footer[16..20]) == crc(footer[..16])
            && index.Ok? && filter.Ok? && Blooms.Parse(filter.value).Ok? && Blooms.Parse(filter.value).value == t.bloom
            && Keys.Parse(index.value).Ok? && Keys.Parse(index.value).value == t.min
            && Keys.Parse(Keys.Parse(index.value).rest).Ok? && Keys.Parse(Keys.Parse(index.value).rest).value == t.max
            && ParseFences(Keys.Parse(Keys.Parse(index.value).rest).rest).Ok?
            && ParseFences(Keys.Parse(Keys.Parse(index.value).rest).rest).value == t.index
  {
    hide ReadFrame, FromLe, Blooms.Parse, Keys.Parse, ParseFences;
    var footer := file[|file| - FOOTER_SIZE..];
    assert footer[16..][..4] == footer[16..20] && footer[8..][..8] == footer[8..16];
  }

  /** A file is refused when it is too short for a footer, or its footer has another magic or a wrong checksum, or the
      filter or index block that the footer points at is damaged. */
  lemma DamagedIsRefused(crc: Crc, file: Bytes)
    ensures |file| < FOOTER_SIZE ==> Open(crc, file).Refused?
    ensures |file| >= FOOTER_SIZE ==>
              var footer := file[|file| - FOOTER_SIZE..];
              && (footer[20..] != MAGIC ==> Open(crc, file).Refused?)
              && (FromLe(footer[16..20]) != crc(footer[..16]) ==> Open(crc, file).Refused?)
              && (Spoiled(crc, file, FromLe(footer[..8])) || Spoiled(crc, file, FromLe(footer[8..16])) ==>
                    Open(crc, file).Refused?)
  {
    hide ReadFrame, FromLe, ParseIndex, Blooms.Parse, Spoiled;
    if |file| >= FOOTER_SIZE {
      var footer := file[|file| - FOOTER_SIZE..];
      assert footer[16..][..4] == footer[16..20] && footer[8..][..8] == footer[8..16];
      if Spoiled(crc, file, FromLe(footer[..8])) { ReadSpoiled(crc, file, FromLe(footer[..8])); }
      if Spoiled(crc, file, FromLe(footer[8..16])) { ReadSpoiled(crc, file, FromLe(footer[8..16])); }
    }
  }

  predicate FenceEncodable(f: Fence) {
    Keys.Encodable(f.min) && Keys.Encodable(f.max) && f.offset < TWO64
  }

  lemma FenceRoundTrip(f: Fence, tail: Bytes)
    requires FenceEncodable(f)
    ensures ParseFence(EncodeFence(f) + tail) == Ok(f, tail)
    ensures EncodeFence(f) + tail != []
  {
    hide Le, ParseU64, Keys.Encode, Keys.Parse;
    var r2 := Le(f.offset, 8) + tail;
    var r1 := Keys.Encode(f.max) + r2;
    assert EncodeFence(f) + tail == Keys.Encode(f.min) + r1;
    Keys.RoundTrip(f.min, r1);
    Keys.RoundTrip(f.max, r2);
    ParseLe(f.offset, tail);
  }

  lemma {:induction false} FencesRoundTrip(fs: seq<Fence>)
    requires forall i :: 0 <= i < |fs| ==> FenceEncodable(fs[i])
    ensures ParseFences(EncodeItems(EncodeFence, fs)) == Ok(fs, [])
  {
    if fs != [] {
      var tail := EncodeItems(EncodeFence, fs[1..]);
      assert EncodeItems(EncodeFence, fs) == EncodeFence(fs[0]) + tail;
      assert [fs[0]] + fs[1..] == fs;
      hide EncodeFence, ParseFence, FenceEncodable, EncodeItems, ParseFences;
      FencesRoundTrip(fs[1..]);
      OneMoreFence(fs[0], tail, fs[1..]);
    }
  }

  lemma OneMoreFence(f: Fence, tail: Bytes, fs: seq<Fence>)
    requires FenceEncodable(f) && ParseFences(tail) == Ok(fs, [])
    ensures ParseFences(EncodeFence(f) + tail) == Ok([f] + fs, [])
  {
    hide EncodeFence, ParseFence, FenceEncodable;
    FenceRoundTrip(f, tail);
  }

  lemma IndexRoundTrip(file: Bytes, bloom: Bloom, min: Key, max: Key, fs: seq<Fence>)
    requires Keys.Encodable(min) && Keys.Encodable(max)
    requires forall i :: 0 <= i < |fs| ==> FenceEncodable(fs[i])
    ensures ParseIndex(file, bloom, IndexBytes(min, max, fs)) == Opened(Table(file, fs, bloom, min, max))
  {
    hide Keys.Encode, Keys.Parse, ParseFences;
    var r2 := EncodeItems(EncodeFence, fs);
    Keys.RoundTrip(min, Keys.Encode(max) + r2);
    Keys.RoundTrip(max, r2);
    FencesRoundTrip(fs);
  }

  lemma {:induction false} DataImagePrefix(crc: Crc, blocks: seq<Block>, i: nat)
    requires i < |blocks|
    ensures exists after ::
              DataImage(crc, blocks) == DataImage(crc, blocks[..i]) + (Frame(crc, EncodeAll(blocks[i])) + after)
    decreases |blocks|
  {
    hide Frame, EncodeAll;
    var n := |blocks| - 1;
    var last := Frame(crc, EncodeAll(blocks[n]));
    if i == n {
      assert DataImage(crc, blocks) == DataImage(crc, blocks[..i]) + (last + []);
    } else {
      DataImagePrefix(crc, blocks[..n], i);
      assert blocks[..n][..i] == blocks[..i];
      var head, mine := DataImage(crc, blocks[..i]), Frame(crc, EncodeAll(blocks[i]));
      var after :| DataImage(crc, blocks[..n]) == head + (mine + after);
      assert DataImage(crc, blocks) == head + (mine + (after + last));
    }
  }

  lemma FencesEncodable(crc: Crc, blocks: seq<Block>)
    requires NonEmpty(blocks)
    requires forall i :: 0 <= i < |blocks| ==> AllEncodable(blocks[i])
    requires |DataImage(crc, blocks)| < TWO64
    ensures forall i :: 0 <= i < |blocks| ==> FenceEncodable(Fences(crc, blocks)[i])
  {
    hide DataImage, Entries.Encode, EncodeAll, Frame;
    forall i | 0 <= i < |blocks| ensures FenceEncodable(Fences(crc, blocks)[i]) {
      FenceAt(crc, blocks, i);
      DataImagePrefix(crc, blocks, i);
    }
  }

  lemma FooterFields(crc: Crc, io: nat, bo: nat)
    requires io < TWO64 && bo < TWO64
    ensures var f := Footer(crc, io, bo);
            && f[20..] == MAGIC
            && ParseU64(f) == Ok(io, f[8..]) && ParseU64(f[8..]) == Ok(bo, f[16..])
            && ParseU32(f[16..]) == Ok(crc(f[..16]), MAGIC)
  {
    hide Le, ParseU64, ParseU32;
    var f := Footer(crc, io, bo);
    var offsets := Le(io, 8) + Le(bo, 8);
    var sum := Le(crc(offsets), 4);
    assert f[16..] == sum + MAGIC && f[..16] == offsets;
    assert f[8..] == Le(bo, 8) + f[16..];
    assert f == Le(io, 8) + f[8..];
    ParseLe(io, f[8..]);
    ParseLe(bo, f[16..]);
    ParseLe(crc(offsets), MAGIC);
  }

  /** The table that reopening a finished file should give. */
  function Reopened(crc: Crc, blocks: seq<Block>, bloom: Bloom): Table
    requires NonEmpty(blocks) && blocks != []
  {
    var last := blocks[|blocks| - 1];
    Table(Image(crc, blocks, bloom), Fences(crc, blocks), bloom, blocks[0][0].key, last[|last| - 1].key)
  }

  /** The footer's offsets locate the index and the filter. */
  lemma LocateParts(crc: Crc, data: Bytes, content: Bytes, filter: Bytes, file: Bytes)
    requires |content| < 0x1_0000_0000 && |filter| < 0x1_0000_0000
    requires var index := Frame(crc, content);
             file == data + (index + (Frame(crc, filter) + Footer(crc, |data|, |data + index|)))
    ensures var footer := Footer(crc, |data|, |data + Frame(crc, content)|);
            && |file| >= FOOTER_SIZE && file[|file| - FOOTER_SIZE..] == footer
            && ReadFrame(crc, file, |data|).Ok? && ReadFrame(crc, file, |data|).value == content
            && ReadFrame(crc, file, |data + Frame(crc, content)|) == Ok(filter, footer)
  {
    hide Frame, Footer, ReadFrame;
    var index, bloom := Frame(crc, content), Frame(crc, filter);
    var footer := Footer(crc, |data|, |data + index|);
    ReadFrameAt(crc, data, content, bloom + footer);
    Associative(data, index, bloom + footer);
    ReadFrameAt(crc, data + index, filter, footer);
  }

  /** Opening a finished file recovers its index, filter and key range exactly. */
  lemma OpenImage(crc: Crc, blocks: seq<Block>, bloom: Bloom)
    requires NonEmpty(blocks) && blocks != [] && Fits(crc, blocks, bloom)
    ensures Open(crc, Image(crc, blocks, bloom)) == Opened(Reopened(crc, blocks, bloom))
  {
    hide DataImage, Fences, Frame, Footer, ReadFrame, ParseIndex, Blooms.Encode, Blooms.Parse, IndexBytes,
         Entries.Encode, EncodeAll, ParseU32, ParseU64, IndexData;
    var file := Image(crc, blocks, bloom);
    var data, content := DataImage(crc, blocks), IndexData(crc, blocks);
    LocateParts(crc, data, content, Blooms.Encode(bloom), file);
    FooterFields(crc, |data|, |data + Frame(crc, content)|);
    Blooms.RoundTrip(bloom);
    ParseIndexData(crc, file, blocks, bloom);
  }

  lemma ParseIndexData(crc: Crc, file: Bytes, blocks: seq<Block>, bloom: Bloom)
    requires NonEmpty(blocks) && blocks != []
    requires forall i :: 0 <= i < |blocks| ==> AllEncodable(blocks[i])
    requires |DataImage(crc, blocks)| < TWO64
    ensures ParseIndex(file, bloom, IndexData(crc, blocks)) == Opened(Reopened(crc, blocks, bloom).(file := file))
  {
    hide DataImage, Fences, ParseIndex, IndexBytes, Image;
    FencesEncodable(crc, blocks);
    var last := blocks[|blocks| - 1];
    assert AllEncodable(blocks[0]) && AllEncodable(last);
    IndexRoundTrip(file, bloom, blocks[0][0].key, last[|last| - 1].key, Fences(crc, blocks));
  }

  /** Every index offset locates its block. */
  lemma BlockAt(crc: Crc, blocks: seq<Block>, bloom: Bloom, i: nat)
    requires NonEmpty(blocks) && Fits(crc, blocks, bloom) && i < |blocks|
    ensures ReadFrame(crc, Image(crc, blocks, bloom), Fences(crc, blocks)[i].offset).Ok?
    ensures ReadFrame(crc, Image(crc, blocks, bloom), Fences(crc, blocks)[i].offset).value == EncodeAll(blocks[i])
  {
    hide Frame, Footer, ReadFrame, Blooms.Encode, IndexData, DataImage, Entries.Encode, EncodeAll;
    FenceAt(crc, blocks, i);
    DataImagePrefix(crc, blocks, i);
    var data := DataImage(crc, blocks);
    var head, mine := DataImage(crc, blocks[..i]), Frame(crc, EncodeAll(blocks[i]));
    var after :| data == head + (mine + after);
    var index, filter := Frame(crc, IndexData(crc, blocks)), Frame(crc, Blooms.Encode(bloom));
    var tail := index + (filter + Footer(crc, |data|, |data + index|));
    Associative(head, mine + after, tail);
    Associative(mine, after, tail);
    ReadFrameAt(crc, head, EncodeAll(blocks[i]), after + tail);
  }
}
