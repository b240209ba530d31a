/** A table as a whole: the file a writer makes of a sequence of entries, and what readers see in it. */
module Tables {
  import opened Codec
  import opened Entries
  import opened SstableFormat
  import opened SstableWriters
  import opened SstableReaders
  import opened Blooms
  import opened Manifests
  import Keys

  /** How filters are made: the sizing that a new filter starts from and the hash it uses. */
  datatype Env = Env(crc: Crc, sip: Sip, bits: u64, k: u32, keys: SipKeys)
  {
    predicate Valid() { 0 < bits <= 0x1_0000_0000 }

    predicate Made(b: Bloom) { b.bits == bits && |b.bitmap| == (bits + 63) / 64 }
  }

  /** The file holds exactly es, with a filter that knows them. */
  ghost predicate TableWith(env: Env, file: Bytes, es: seq<Entry>, bloom: Bloom) {
    && bloom.Sized() && env.Made(bloom) && FilterKnows(env.sip, bloom, es)
    && NonEmpty(BlocksOf(es)) && file == Image(env.crc, BlocksOf(es), bloom)
  }

  /** Some writer made this file of es. */
  ghost predicate TableOf(env: Env, file: Bytes, es: seq<Entry>) {
    exists bloom :: TableWith(env, file, es, bloom)
  }

  /** A table of es within the sizes the format can record. */
  ghost predicate Holds(env: Env, file: Bytes, es: seq<Entry>) {
    es != [] && exists bloom :: TableWith(env, file, es, bloom) && Fits(env.crc, BlocksOf(es), bloom)
  }

  method FinishTable(env: Env, writer: SstableWriter) returns (file: Bytes, meta: FileMeta)
    requires writer.Valid() && writer.crc == env.crc && writer.bloom.sip == env.sip && env.Made(writer.bloom.Contents())
    modifies writer`file, writer`index, writer.block
    ensures TableOf(env, file, writer.written) && meta == MetaOf(0, |file|, writer.written)
    ensures |file| < 0x1_0000_0000 ==> meta.fileSize == |file|
  {
    hide Covers, Image, BlocksOf, Fill, MetaOf;
    meta := writer.Finalize();
    file := writer.file;
    assert TableWith(env, file, writer.written, writer.bloom.Contents());
  }

  /** One pass of a writer over es. */
  method WriteTable(env: Env, es: seq<Entry>) returns (file: Bytes, meta: FileMeta)
    requires env.Valid()
    ensures TableOf(env, file, es)
    ensures meta == MetaOf(0, |file|, es) && (|file| < 0x1_0000_0000 ==> meta.fileSize == |file|)
  {
    hide TableOf, Fill, MetaOf, SstableWriter.Valid, SstableWriter.Covered, SstableWriter.Layout;
    var bloom := new BloomFilter(env.sip, env.bits, env.k, env.keys);
    var writer := new SstableWriter(env.crc, bloom);
    for i := 0 to |es|
      invariant writer.Valid() && writer.written == es[..i] && fresh(writer) && fresh(writer.block)
                && fresh(bloom.bitmap)
      invariant writer.crc == env.crc && writer.bloom == bloom && bloom.sip == env.sip && env.Made(bloom.Contents())
    {
      writer.Write(es[i]);
      assert es[..i + 1] == es[..i] + [es[i]];
    }
    assert es[..|es|] == es;
    file, meta := FinishTable(env, writer);
  }

  /** What a reader finds in a file that holds es: every lookup is a linear scan of es, and iterating
      yields es. */
  lemma HoldsMeans(env: Env, file: Bytes, es: seq<Entry>, k: Bytes) returns (t: Table)
    requires Holds(env, file, es) && Sorted(es)
    ensures Open(env.crc, file) == Opened(t) && t.bloom.Sized()
    ensures Partitioned(t.index, k) && SearchResult(env.crc, env.sip, t, k) == Found(FirstFor(es, k))
    ensures Remaining(env.crc, t, 0, []) == Log(es, true)
  {
    hide Fits, Covers, Fences, Image, BlocksOf, SearchResult, Remaining, Open, Sorted, Partitioned;
    var bloom :| TableWith(env, file, es, bloom) && Fits(env.crc, BlocksOf(es), bloom);
    var blocks := BlocksOf(es);
    BlocksKeepAll(es);
    OpenImage(env.crc, blocks, bloom);
    SearchIsLinearScan(env.crc, env.sip, blocks, bloom, k);
    IterationIsRoundTrip(env.crc, es, bloom);
    t := Reopened(env.crc, blocks, bloom);
  }

  // --- The format's limits ---

  const MAX_ENTRY: nat := 0x4000_0000
  const TARGET_FILE_SIZE: nat := 64 * 1024 * 1024

  /** Encodable and at most 1 GiB long. */
  predicate Small(e: Entry) {
    Entries.Encodable(e) && |Entries.Encode(e)| <= MAX_ENTRY
  }

  predicate AllSmall(es: seq<Entry>) {
    forall i :: 0 <= i < |es| ==> Small(es[i])
  }

  predicate SmallBlock(block: Block) {
    AllSmall(block) && |EncodeAll(block)| < BLOCK_SIZE + MAX_ENTRY
  }

  /** Full blocks are at least a block long and less than an entry more; the buffer is shorter than a block. */
  predicate SmallCut(c: Cut) {
    && (forall i :: 0 <= i < |c.flushed| ==> SmallBlock(c.flushed[i]) && |EncodeAll(c.flushed[i])| >= BLOCK_SIZE)
    && AllSmall(c.pending) && |EncodeAll(c.pending)| < BLOCK_SIZE
  }

  lemma {:induction false} FillSmall(es: seq<Entry>)
    requires AllSmall(es)
    ensures SmallCut(Fill(es))
    decreases |es|
  {
    hide Small, EncodeAll, Fill;
    FillNone();
    if es != [] {
      var init, e := es[..|es| - 1], es[|es| - 1];
      assert es == init + [e];
      FillSmall(init);
      FillSnocExactly(init, e);
      SmallSnoc(Fill(init).pending, e);
    }
  }

  lemma FillNone()
    ensures Fill([]) == Cut([], []) && EncodeAll([]) == []
  {}

  lemma SmallSnoc(pending: Block, e: Entry)
    requires AllSmall(pending) && Small(e) && |EncodeAll(pending)| < BLOCK_SIZE
    ensures SmallBlock(pending + [e])
  {
    EncodeAllAppend(pending, [e]);
    EncodeOne(e);
    hide EncodeAll, Entries.Encodable;
  }

  lemma {:induction false} DataAtLeast(crc: Crc, blocks: seq<Block>)
    requires forall i :: 0 <= i < |blocks| ==> |EncodeAll(blocks[i])| >= BLOCK_SIZE
    ensures |DataImage(crc, blocks)| >= |blocks| * BLOCK_SIZE
  {
    hide EncodeAll, Frame;
    if blocks != [] {
      DataAtLeast(crc, blocks[..|blocks| - 1]);
    }
  }

  lemma {:induction false} DataAtMost(crc: Crc, blocks: seq<Block>)
    requires forall i :: 0 <= i < |blocks| ==> |EncodeAll(blocks[i])| < BLOCK_SIZE + MAX_ENTRY
    ensures |DataImage(crc, blocks)| <= |blocks| * (8 + BLOCK_SIZE + MAX_ENTRY)
  {
    hide EncodeAll, Frame;
    if blocks != [] {
      DataAtMost(crc, blocks[..|blocks| - 1]);
    }
  }

  /** A file that had not reached its target one entry earlier has few blocks. */
  lemma FewBlocks(crc: Crc, es: seq<Entry>)
    requires es != [] && AllSmall(es)
    requires |DataImage(crc, Fill(es[..|es| - 1]).flushed)| < TARGET_FILE_SIZE
    ensures |BlocksOf(es)| <= TARGET_FILE_SIZE / BLOCK_SIZE + 1
  {
    hide EncodeAll, Fill, Small, DataImage;
    var init, e := es[..|es| - 1], es[|es| - 1];
    assert es == init + [e];
    FillSmall(init);
    FillSnocExactly(init, e);
    DataAtLeast(crc, Fill(init).flushed);
  }

  lemma {:induction false} FencesShort(fences: seq<Fence>)
    requires forall i :: 0 <= i < |fences| ==> Keys.Encodable(fences[i].min) && Keys.Encodable(fences[i].max)
    ensures |EncodeItems(EncodeFence, fences)| <= |fences| * 0x20_020
  {
    if fences != [] {
      FencesShort(fences[1..]);
    }
  }

  lemma IndexShort(crc: Crc, blocks: seq<Block>)
    requires NonEmpty(blocks) && forall i :: 0 <= i < |blocks| ==> SmallBlock(blocks[i])
    ensures |IndexData(crc, blocks)| <= 0x20_020 + |blocks| * 0x20_020
  {
    hide DataImage, EncodeAll, EncodeFence, Fences, Entries.Encode;
    if blocks != [] {
      var fences := Fences(crc, blocks);
      forall i | 0 <= i < |blocks| ensures Keys.Encodable(fences[i].min) && Keys.Encodable(fences[i].max) {
        FenceAt(crc, blocks, i);
        assert SmallBlock(blocks[i]) && Small(blocks[i][0]) && Small(blocks[i][|blocks[i]| - 1]);
      }
      FencesShort(fences);
      assert SmallBlock(blocks[0]) && Small(blocks[0][0]);
      var last := blocks[|blocks| - 1];
      assert SmallBlock(last) && Small(last[|last| - 1]);
    }
  }

  lemma {:induction false} WordsShort(words: seq<Word>)
    ensures |EncodeItems(EncodeWord, words)| == 8 * |words|
  {
    if words != [] {
      WordsShort(words[1..]);
    }
  }

  lemma SmallBlocks(es: seq<Entry>)
    requires AllSmall(es)
    ensures forall i :: 0 <= i < |BlocksOf(es)| ==> SmallBlock(BlocksOf(es)[i])
  {
    hide EncodeAll, Fill, Small;
    FillSmall(es);
  }

  /** A file of few enough blocks, each shorter than a block and an entry of 1 GiB, fits the format. */
  lemma FewBlocksFit(env: Env, es: seq<Entry>, bloom: Bloom)
    requires env.Valid() && env.Made(bloom)
    requires es != [] && AllSmall(es) && |BlocksOf(es)| <= MAX_FLUSHED / BLOCK_SIZE + 1
    ensures NonEmpty(BlocksOf(es)) && Fits(env.crc, BlocksOf(es), bloom)
  {
    hide EncodeAll, Fill, DataImage, IndexData, Frame, Footer, Entries.Encodable, Entries.Encode;
    var blocks := BlocksOf(es);
    BlocksKeepAll(es);
    SmallBlocks(es);
    hide BlocksOf;
    DataAtMost(env.crc, blocks);
    IndexShort(env.crc, blocks);
    WordsShort(bloom.bitmap);
  }

  /** Files that compaction writes always stay within the format's limits, as long as no single entry
      exceeds 1 GiB. */
  lemma CompactedFits(env: Env, es: seq<Entry>, bloom: Bloom)
    requires env.Valid() && env.Made(bloom)
    requires es != [] && AllSmall(es)
    requires |DataImage(env.crc, Fill(es[..|es| - 1]).flushed)| < TARGET_FILE_SIZE
    ensures NonEmpty(BlocksOf(es)) && Fits(env.crc, BlocksOf(es), bloom)
  {
    hide Fill, DataImage, BlocksOf, AllSmall, Fits;
    FewBlocks(env.crc, es);
    FewBlocksFit(env, es, bloom);
  }

  /** A compacted file holds its entries, and its length fits the 32 bits that record it. */
  lemma CompactedHolds(env: Env, file: Bytes, es: seq<Entry>)
    requires env.Valid() && TableOf(env, file, es) && es != [] && AllSmall(es)
    requires |DataImage(env.crc, Fill(es[..|es| - 1]).flushed)| < TARGET_FILE_SIZE
    ensures Holds(env, file, es) && |file| < 0x1_0000_0000
  {
    hide Fits, BlocksOf, Fill, Image, Covers, AllSmall, DataImage;
    var bloom :| TableWith(env, file, es, bloom);
    CompactedFits(env, es, bloom);
    CompactedData(env.crc, es);
    SmallBlocks(es);
    ImageShort(env, BlocksOf(es), bloom);
  }

  // --- Lengths ---

  lemma KeyWithin(e: Entry)
    ensures |Keys.Encode(e.key)| <= |Entries.Encode(e)|
  {}

  /** Two keys of a block are no longer than twice the block. */
  lemma FenceWithin(block: Block, f: Fence)
    requires block != [] && f.min == block[0].key && f.max == block[|block| - 1].key
    ensures |EncodeFence(f)| <= 2 * |EncodeAll(block)| + 8
  {
    hide Entries.Encode, EncodeAll, Keys.Encode;
    EntryWithin(block, 0);
    EntryWithin(block, |block| - 1);
    KeyWithin(block[0]);
    KeyWithin(block[|block| - 1]);
  }

  lemma {:induction false} FencesWithin(crc: Crc, blocks: seq<Block>)
    requires NonEmpty(blocks)
    ensures |EncodeItems(EncodeFence, Fences(crc, blocks))| <= 2 * |DataImage(crc, blocks)|
    decreases |blocks|
  {
    hide EncodeAll, EncodeFence, Frame, EncodeItems, Fences, DataImage;
    if blocks == [] {
      NoFences(crc);
    } else {
      var n := |blocks| - 1;
      var last := Fence(blocks[n][0].key, blocks[n][|blocks[n]| - 1].key, |DataImage(crc, blocks[..n])|);
      assert blocks == blocks[..n] + [blocks[n]];
      FencesWithin(crc, blocks[..n]);
      LayoutSnoc(crc, blocks[..n], blocks[n]);
      FenceWithin(blocks[n], last);
      ItemsSnoc(Fences(crc, blocks[..n]), last);
    }
  }

  lemma NoFences(crc: Crc)
    ensures EncodeItems(EncodeFence, Fences(crc, [])) == []
  {}

  lemma {:induction false} ItemsSnoc(fences: seq<Fence>, f: Fence)
    ensures |EncodeItems(EncodeFence, fences + [f])| == |EncodeItems(EncodeFence, fences)| + |EncodeFence(f)|
  {
    hide EncodeFence;
    if fences == [] {
      assert fences + [f] == [f];
      assert [f][1..] == [];
    } else {
      assert (fences + [f])[1..] == fences[1..] + [f];
      ItemsSnoc(fences[1..], f);
    }
  }

  /** The whole file is at most three times the data, with some room for the filter. */
  lemma ImageShort(env: Env, blocks: seq<Block>, bloom: Bloom)
    requires env.Valid() && env.Made(bloom) && NonEmpty(blocks)
    requires forall i :: 0 <= i < |blocks| ==> SmallBlock(blocks[i])
    requires |DataImage(env.crc, blocks)| <= 0x4800_0000
    ensures |Image(env.crc, blocks, bloom)| < 0x1_0000_0000
  {
    hide DataImage, EncodeAll, EncodeFence, Fences, Entries.Encode, Frame, Footer;
    WordsShort(bloom.bitmap);
    FencesWithin(env.crc, blocks);
    if blocks != [] {
      var last := blocks[|blocks| - 1];
      assert SmallBlock(blocks[0]) && Small(blocks[0][0]);
      assert SmallBlock(last) && Small(last[|last| - 1]);
    }
  }

  /** The last block is at most a block and an entry long. */
  lemma CompactedData(crc: Crc, es: seq<Entry>)
    requires es != [] && AllSmall(es)
    requires |DataImage(crc, Fill(es[..|es| - 1]).flushed)| < TARGET_FILE_SIZE
    ensures |DataImage(crc, BlocksOf(es))| <= 0x4800_0000
  {
    hide EncodeAll, Fill, Small, Frame;
    var init, e := es[..|es| - 1], es[|es| - 1];
    assert es == init + [e];
    FillSmall(init);
    FillSnocExactly(init, e);
    SmallSnoc(Fill(init).pending, e);
    var flushed, block := Fill(init).flushed, Fill(init).pending + [e];
    assert BlocksOf(es) == flushed + [block];
    assert (flushed + [block])[..|flushed|] == flushed;
    assert SmallBlock(block);
  }

  lemma {:induction false} DataIs(crc: Crc, blocks: seq<Block>)
    ensures |DataImage(crc, blocks)| == |EncodeAll(Flatten(blocks))| + 8 * |blocks|
    decreases |blocks|
  {
    hide EncodeAll, Frame, Flatten;
    if blocks == [] {
      NoBlocks();
    } else {
      var n := |blocks| - 1;
      DataIs(crc, blocks[..n]);
      assert blocks == blocks[..n] + [blocks[n]];
      FlattenSnoc(blocks[..n], blocks[n]);
      EncodeAllAppend(Flatten(blocks[..n]), blocks[n]);
    }
  }

  lemma NoBlocks()
    ensures EncodeAll(Flatten<Entry>([])) == []
  {}

  /** The length depends on the entries alone, filters being made alike. */
  lemma SameLength(env: Env, a: Bytes, b: Bytes, es: seq<Entry>)
    requires TableOf(env, a, es) && TableOf(env, b, es)
    ensures |a| == |b|
  {
    hide BlocksOf, DataImage, IndexData, Frame, Footer, FilterKnows, EncodeWord;
    var f :| TableWith(env, a, es, f);
    var g :| TableWith(env, b, es, g);
    WordsShort(f.bitmap);
    WordsShort(g.bitmap);
  }

  // --- Flushed tables ---

  const MAX_FLUSHED: nat := 127 * 1024 * 1024

  /** A memtable of encodable entries, no larger than 127 MiB in all: some thirty times the size at which
      memtables are rotated. */
  predicate Modest(es: seq<Entry>) {
    AllEncodable(es) && |EncodeAll(es)| <= MAX_FLUSHED
  }

  lemma {:induction false} EntryWithin(es: seq<Entry>, i: nat)
    requires i < |es|
    ensures |Entries.Encode(es[i])| <= |EncodeAll(es)|
  {
    hide Entries.Encode;
    if i > 0 {
      EntryWithin(es[1..], i - 1);
    }
  }

  lemma ModestIsSmall(es: seq<Entry>)
    requires Modest(es)
    ensures AllSmall(es)
  {
    hide Entries.Encode, EncodeAll, Entries.Encodable;
    forall i | 0 <= i < |es| ensures Small(es[i]) {
      EntryWithin(es, i);
    }
  }

  lemma {:induction false} BlocksFill(blocks: seq<Block>)
    requires forall i :: 0 <= i < |blocks| ==> |EncodeAll(blocks[i])| >= BLOCK_SIZE
    ensures |EncodeAll(Flatten(blocks))| >= |blocks| * BLOCK_SIZE
  {
    hide EncodeAll;
    if blocks != [] {
      BlocksFill(blocks[1..]);
      EncodeAllAppend(blocks[0], Flatten(blocks[1..]));
    }
  }

  /** A modest memtable makes a table within the format's limits, its length within the 32 bits that record it. */
  lemma FlushedHolds(env: Env, file: Bytes, es: seq<Entry>)
    requires env.Valid() && TableOf(env, file, es) && es != [] && Modest(es)
    ensures Holds(env, file, es) && |file| < 0x1_0000_0000
  {
    hide Fits, BlocksOf, Fill, Image, Covers, AllSmall, EncodeAll, DataImage, Flatten;
    var bloom :| TableWith(env, file, es, bloom);
    ModestIsSmall(es);
    FlushedBlocks(es);
    FewBlocksFit(env, es, bloom);
    BlocksKeepAll(es);
    DataIs(env.crc, BlocksOf(es));
    SmallBlocks(es);
    ImageShort(env, BlocksOf(es), bloom);
  }

  lemma FlushedBlocks(es: seq<Entry>)
    requires Modest(es) && AllSmall(es)
    ensures |BlocksOf(es)| <= MAX_FLUSHED / BLOCK_SIZE + 1
  {
    hide Fill, EncodeAll, Flatten, Entries.Encodable, AllSmall;
    var c := Fill(es);
    FillSmall(es);
    FillKeepsAll(es);
    BlocksFill(c.flushed);
    EncodeAllAppend(Flatten(c.flushed), c.pending);
  }
}
