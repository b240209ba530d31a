/** Writing an SSTable: block buffer, index vector, filter and file position, mutated entry by entry. */
module SstableWriters {
  import opened Codec
  import opened Entries
  import opened SstableFormat
  import opened Blooms
  import opened Manifests
  import Keys

  lemma EncodedNothing(es: seq<Entry>)
    ensures EncodeAll(es) == [] <==> es == []
  {
    if es != [] {
      assert |EncodeAll(es)| >= |Entries.Encode(es[0])|;
    }
  }

  class BlockBuilder {
    var buffer: Bytes
    var minKey: Option<Keys.Key>
    var maxKey: Option<Keys.Key>
    ghost var held: Block

    ghost predicate Valid()
      reads this
    {
      && buffer == EncodeAll(held)
      && minKey == (if held == [] then None else Some(held[0].key))
      && maxKey == (if held == [] then None else Some(held[|held| - 1].key))
    }

    constructor ()
      ensures Valid() && held == []
    {
      buffer, minKey, maxKey, held := [], None, None, [];
    }

    method Add(e: Entry)
      requires Valid()
      modifies this
      ensures Valid() && held == old(held) + [e]
    {
      hide Entries.Encode, EncodeAll;
      if minKey.None? { minKey := Some(e.key); }
      maxKey := Some(e.key);
      EncodeAllAppend(held, [e]);
      EncodeOne(e);
      buffer := buffer + Entries.Encode(e);
      held := held + [e];
    }

    method IsFull() returns (full: bool)
      requires Valid()
      ensures full <==> |EncodeAll(held)| >= BLOCK_SIZE
    {
      full := |buffer| >= BLOCK_SIZE;
    }

    method IsEmpty() returns (empty: bool)
      requires Valid()
      ensures empty <==> held == []
    {
      EncodedNothing(held);
      empty := buffer == [];
    }

    /** Hands out the framed block and its key range, leaving the builder empty. */
    method Flush(crc: Crc) returns (data: Bytes, min: Option<Keys.Key>, max: Option<Keys.Key>)
      requires Valid()
      modifies this
      ensures Valid() && held == []
      ensures old(held) == [] ==> data == [] && min == None && max == None
      ensures old(held) != [] ==>
                && data == Frame(crc, EncodeAll(old(held)))
                && min == Some(old(held)[0].key) && max == Some(old(held)[|old(held)| - 1].key)
    {
      EncodedNothing(held);
      hide Entries.Encode, EncodeAll;
      EncodedNothing([]);
      if buffer == [] { return [], None, None; }
      data := Le(|buffer|, 4) + (Le(crc(buffer), 4) + buffer);
      min, max := minKey, maxKey;
      minKey, maxKey, buffer, held := None, None, [], [];
    }
  }

  class SstableWriter {
    const crc: Crc
    const bloom: BloomFilter
    const block: BlockBuilder
    var file: Bytes
    var index: seq<Fence>
    var minKey: Option<Keys.Key>
    var maxKey: Option<Keys.Key>
    ghost var written: seq<Entry>

    ghost function Repr(): set<object>
      reads this
    {
      {this, bloom, bloom.bitmap, block}
    }

    /** The bytes and index entries are those of the flushed blocks. */
    ghost predicate Layout(flushed: seq<Block>)
      reads this
    {
      NonEmpty(flushed) && file == DataImage(crc, flushed) && index == Fences(crc, flushed)
    }

    ghost predicate Covered()
      reads this, bloom, bloom.bitmap
      requires bloom.Valid()
    {
      forall e :: e in written ==> Covers(bloom.sip, bloom.Contents(), e.key.bytes)
    }

    ghost predicate Valid()
      reads this, Repr()
    {
      && bloom.Valid() && block.Valid()
      && Layout(Fill(written).flushed) && block.held == Fill(written).pending
      && minKey == (if written == [] then None else Some(written[0].key))
      && maxKey == (if written == [] then None else Some(written[|written| - 1].key))
      && Covered()
    }

    constructor (crc: Crc, bloom: BloomFilter)
      requires bloom.Valid()
      ensures Valid() && written == [] && this.crc == crc && this.bloom == bloom
      ensures fresh(this) && fresh(block)
    {
      this.crc, this.bloom := crc, bloom;
      block := new BlockBuilder();
      file, index, minKey, maxKey, written := [], [], None, None, [];
    }

    /** One framed block to the file, one fence to the index. */
    method FlushBlock(ghost flushed: seq<Block>)
      requires block.Valid() && Layout(flushed)
      modifies this`file, this`index, block
      ensures block.Valid() && block.held == []
      ensures Layout(if old(block.held) == [] then flushed else flushed + [old(block.held)])
    {
      hide Frame, EncodeAll, DataImage, Fences;
      ghost var held := block.held;
      var data, min, max := block.Flush(crc);
      if data == [] { return; }
      var offset := |file|;
      file := file + data;
      LayoutSnoc(crc, flushed, held);
      if min.Some? && max.Some? {
        index := index + [Fence(min.value, max.value, offset)];
      }
    }

    method Write(e: Entry)
      requires Valid()
      modifies this`file, this`index, this`minKey, this`maxKey, this`written, block, bloom.bitmap
      ensures Valid() && written == old(written) + [e]
    {
      hide Entries.Encode, EncodeAll, DataImage, Fences, Covers, Added, Fill;
      ghost var before, filter := Fill(written), bloom.Contents();
      bloom.Set(e.key.bytes);
      forall o | o in written + [e] ensures Covers(bloom.sip, bloom.Contents(), o.key.bytes) {
        CoverageGrows(bloom.sip, filter, bloom.Contents(), e.key.bytes, o.key.bytes);
      }
      if minKey.None? { minKey := Some(e.key); }
      maxKey := Some(e.key);
      block.Add(e);
      FillSnocExactly(written, e);
      written := written + [e];
      var full := block.IsFull();
      if full {
        FlushBlock(before.flushed);
      }
    }

    /** `stream_position`: what has been flushed, not what is buffered. */
    method CurrentSize() returns (size: nat)
      requires Valid()
      ensures size == |DataImage(crc, Fill(written).flushed)|
    {
      size := |file|;
    }

    /** Flushes the rest and appends index, filter and footer. The metadata's id is a placeholder. */
    method Finalize() returns (meta: FileMeta)
      requires Valid()
      modifies this`file, this`index, block
      ensures NonEmpty(BlocksOf(written))
      ensures file == Image(crc, BlocksOf(written), bloom.Contents())
      ensures meta == MetaOf(0, |file|, written)
      ensures |file| < 0x1_0000_0000 ==> meta.fileSize == |file|
      ensures written != [] ==> meta.minKey == written[0].key && meta.maxKey == written[|written| - 1].key
      ensures bloom.Valid() && Covered()
    {
      hide Entries.Encode, EncodeAll, DataImage, Covers, Fill, Frame, Footer, Blooms.Encode, IndexBytes, Fences,
           Flatten,
           BlockBuilder.Valid;
      ghost var blocks := BlocksOf(written);
      BlocksKeepAll(written);
      var empty := block.IsEmpty();
      if !empty {
        FlushBlock(Fill(written).flushed);
      }
      EmptyWhenNothingWritten(written);
      var indexOffset := |file|;
      var indexData: Bytes := [];
      if minKey.Some? && maxKey.Some? {
        FlattenEnds(blocks);
        indexData := IndexBytes(minKey.value, maxKey.value, index);
      }
      assert indexData == IndexData(crc, blocks);
      file := file + Frame(crc, indexData);
      var bloomOffset := |file|;
      file := file + Frame(crc, Blooms.Encode(bloom.Contents()));
      file := file + Footer(crc, indexOffset, bloomOffset);
      ImageParts(crc, blocks, bloom.Contents());
      var min := if minKey.Some? then minKey.value else Keys.Key([], 0);
      var max := if maxKey.Some? then maxKey.value else Keys.Key([], 0);
      meta := FileMeta(0, |file| % 0x1_0000_0000, min, max);
    }
  }

  /** What the manifest records of a file: its size modulo 2^32 and its first and last keys. */
  function MetaOf(id: u32, size: nat, es: seq<Entry>): FileMeta {
    FileMeta(id, size % 0x1_0000_0000,
             if es == [] then Keys.Key([], 0) else es[0].key,
             if es == [] then Keys.Key([], 0) else es[|es| - 1].key)
  }

  lemma LayoutSnoc(crc: Crc, flushed: seq<Block>, block: Block)
    requires NonEmpty(flushed) && block != []
    ensures NonEmpty(flushed + [block])
    ensures DataImage(crc, flushed + [block]) == DataImage(crc, flushed) + Frame(crc, EncodeAll(block))
    ensures Fences(crc, flushed + [block])
         == Fences(crc, flushed) + [Fence(block[0].key, block[|block| - 1].key, |DataImage(crc, flushed)|)]
  {
    hide Frame, EncodeAll;
    assert (flushed + [block])[..|flushed|] == flushed;
  }

  lemma FillSnocExactly(init: seq<Entry>, e: Entry)
    ensures var block := Fill(init).pending + [e];
            Fill(init + [e]) == if |EncodeAll(block)| >= BLOCK_SIZE then Cut(Fill(init).flushed + [block], [])
                                else Cut(Fill(init).flushed, block)
  {
    hide EncodeAll;
    assert (init + [e])[..|init|] == init;
  }

  lemma EmptyWhenNothingWritten(es: seq<Entry>)
    ensures es == [] <==> BlocksOf(es) == []
  {
    BlocksKeepAll(es);
  }

  lemma {:induction false} FlattenEnds(blocks: seq<Block>)
    requires NonEmpty(blocks) && blocks != []
    ensures var es := Flatten(blocks);
            && es != [] && es[0] == blocks[0][0]
            && es[|es| - 1] == blocks[|blocks| - 1][|blocks[|blocks| - 1]| - 1]
  {
    var n := |blocks| - 1;
    assert blocks == blocks[..n] + [blocks[n]];
    FlattenSnoc(blocks[..n], blocks[n]);
    if n > 0 {
      FlattenEnds(blocks[..n]);
    }
  }

  lemma ImageParts(crc: Crc, blocks: seq<Block>, bloom: Bloom)
    requires NonEmpty(blocks)
    ensures var data, index := DataImage(crc, blocks), Frame(crc, IndexData(crc, blocks));
            (Image(crc, blocks, bloom)
          == ((data + index) + Frame(crc, Blooms.Encode(bloom))) + Footer(crc, |data|, |data + index|))
  {
    hide DataImage, Frame, IndexData, Footer, Blooms.Encode;
  }
}
