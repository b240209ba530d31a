/** Reading an SSTable: point search and full iteration over an opened table. */
module SstableReaders {
  import opened Codec
  import opened Entries
  import opened SstableFormat
  import opened Blooms
  import Keys
  import Values

  datatype Lookup = Hit(value: Values.Value) | Miss | Broken

  function Found(e: Option<Entry>): Lookup {
    if e.Some? then Hit(e.value.value) else Miss
  }

  // --- What a search answers ---

  /** The linear scan of one block, stopping at the first key beyond k. */
  function ScanBlock(bs: Bytes, k: Bytes): Lookup
    decreases |bs|
  {
    if bs == [] then Miss
    else
      match Entries.Parse(bs)
      case Ok(e, rest) =>
        if e.key.bytes == k then Hit(e.value)
        else if Keys.BytesLess(k, e.key.bytes) then Miss
        else ScanBlock(rest, k)
      case _ => Broken
  }

  function SearchBlock(crc: Crc, t: Table, k: Bytes, offset: nat): Lookup {
    var data := ReadFrame(crc, t.file, offset);
    if data.IsFailure() then Broken else ScanBlock(data.value, k)
  }

  predicate Before(f: Fence, k: Bytes) {
    Keys.Less(f.max, Keys.Key(k, Keys.MAX_LSN))
  }

  /** How many leading fences end before the newest conceivable version of k. */
  function LeadingBefore(index: seq<Fence>, k: Bytes): (n: nat)
    ensures n <= |index|
    ensures n < |index| ==> !Before(index[n], k)
    ensures forall i :: 0 <= i < n ==> Before(index[i], k)
  {
    if index == [] || !Before(index[0], k) then 0 else 1 + LeadingBefore(index[1..], k)
  }

  predicate Partitioned(index: seq<Fence>, k: Bytes) {
    forall i, j :: 0 <= i < j < |index| && Before(index[j], k) ==> Before(index[i], k)
  }

  function SearchIndex(crc: Crc, t: Table, k: Bytes): Lookup {
    var idx := LeadingBefore(t.index, k);
    if idx == |t.index| || Keys.BytesLess(k, t.index[idx].min.bytes) then Miss
    else SearchBlock(crc, t, k, t.index[idx].offset)
  }

  function SearchResult(crc: Crc, sip: Sip, t: Table, k: Bytes): Lookup
    requires t.bloom.Sized()
  {
    if !Covers(sip, t.bloom, k) then Miss else SearchIndex(crc, t, k)
  }

  /** The binary search for the partition point. */
  method PartitionPoint(index: seq<Fence>, k: Bytes) returns (idx: nat)
    requires Partitioned(index, k)
    ensures idx == LeadingBefore(index, k)
  {
    var lo, hi := 0, |index|;
    while lo < hi
      invariant 0 <= lo <= hi <= |index|
      invariant forall i :: 0 <= i < lo ==> Before(index[i], k)
      invariant hi < |index| ==> !Before(index[hi], k)
    {
      hide Before, LeadingBefore;
      var mid := (lo + hi) / 2;
      if Before(index[mid], k) { lo := mid + 1; } else { hi := mid; }
    }
    idx := lo;
  }

  method ScanBlockLoop(bs: Bytes, k: Bytes) returns (r: Lookup)
    ensures r == ScanBlock(bs, k)
  {
    hide Keys.BytesLess, Entries.Parse;
    var cursor := bs;
    while cursor != []
      invariant ScanBlock(bs, k) == ScanBlock(cursor, k)
      decreases |cursor|
    {
      var p := Entries.Parse(cursor);
      if p.IsFailure() { return Broken; }
      if p.value.key.bytes == k { return Hit(p.value.value); }
      if Keys.BytesLess(k, p.value.key.bytes) { return Miss; }
      cursor := p.rest;
    }
    r := Miss;
  }

  method Search(crc: Crc, sip: Sip, t: Table, k: Bytes) returns (r: Lookup)
    requires t.bloom.Sized() && Partitioned(t.index, k)
    ensures r == SearchResult(crc, sip, t, k)
  {
    hide Covers, Before, ReadFrame, ScanBlock;
    var maybe := Blooms.Check(sip, t.bloom, k);
    if !maybe { return Miss; }
    var idx := PartitionPoint(t.index, k);
    if idx < |t.index| {
      if Keys.BytesLess(k, t.index[idx].min.bytes) { return Miss; }
      var data := ReadFrame(crc, t.file, t.index[idx].offset);
      if data.IsFailure() { return Broken; }
      r := ScanBlockLoop(data.value, k);
      return;
    }
    r := Miss;
  }

  // --- Search agrees with a linear scan of what was written ---

  lemma {:induction false} ScanFindsFirst(es: seq<Entry>, k: Bytes)
    requires Sorted(es) && AllEncodable(es)
    ensures ScanBlock(EncodeAll(es), k) == Found(FirstFor(es, k))
  {
    if es != [] {
      hide Entries.Encode, Entries.Parse, Keys.BytesLess;
      var tail := EncodeAll(es[1..]);
      Entries.RoundTrip(es[0], tail);
      assert Entries.Encode(es[0]) + tail != [];
      if es[0].key.bytes != k && Keys.BytesLess(k, es[0].key.bytes) {
        NoneBeyond(es, k);
      }
      ScanFindsFirst(es[1..], k);
    }
  }

  /** If a sorted sequence starts beyond k it has nothing for k. */
  lemma NoneBeyond(es: seq<Entry>, k: Bytes)
    requires Sorted(es) && es != [] && Keys.BytesLess(k, es[0].key.bytes)
    ensures FirstFor(es, k).None?
  {
    forall x | x in es ensures x.key.bytes != k {
      var i :| 0 <= i < |es| && es[i] == x;
      Keys.BytesTrichotomy(k, es[0].key.bytes);
      if i > 0 {
        assert Keys.Leq(es[0].key, es[i].key);
        Keys.BytesTrichotomy(es[0].key.bytes, x.key.bytes);
      }
    }
  }

  lemma SortedSplit(a: seq<Entry>, b: seq<Entry>)
    requires Sorted(a + b)
    ensures Sorted(a) && Sorted(b)
    ensures forall x, y :: x in a && y in b ==> Keys.Leq(x.key, y.key)
  {
    hide Keys.Leq;
    var es := a + b;
    assert forall i :: 0 <= i < |a| ==> es[i] == a[i];
    assert forall i :: 0 <= i < |b| ==> es[|a| + i] == b[i];
  }

  /** A block that ends before k's versions holds none of them. */
  lemma NoneBefore(es: seq<Entry>, k: Bytes)
    requires Sorted(es) && es != []
    requires Keys.Less(es[|es| - 1].key, Keys.Key(k, Keys.MAX_LSN))
    ensures FirstFor(es, k).None?
  {
    var target, last := Keys.Key(k, Keys.MAX_LSN), es[|es| - 1].key;
    hide Keys.Less, Keys.BytesLess;
    forall x | x in es ensures x.key.bytes != k {
      var i :| 0 <= i < |es| && es[i] == x;
      assert i < |es| - 1 ==> Keys.Leq(es[i].key, es[|es| - 1].key);
      Keys.Transitive(x.key, last, target);
      Keys.VersionsAreContiguous(k, x.key);
      Keys.Trichotomy(x.key, target);
    }
  }

  /** A block that reaches k's versions but holds none of them ends beyond k, and so does what follows. */
  lemma NoneAfter(block: seq<Entry>, rest: seq<Entry>, k: Bytes)
    requires Sorted(block + rest) && block != []
    requires !Keys.Less(block[|block| - 1].key, Keys.Key(k, Keys.MAX_LSN))
    requires FirstFor(block, k).None?
    ensures FirstFor(rest, k).None?
  {
    SortedSplit(block, rest);
    var last := block[|block| - 1];
    assert last in block && last.key.bytes != k;
    Keys.Trichotomy(last.key, Keys.Key(k, Keys.MAX_LSN));
    assert Keys.BytesLess(k, last.key.bytes);
    if rest != [] {
      assert rest[0] in rest;
      assert Keys.Leq(last.key, rest[0].key);
      if last.key.bytes != rest[0].key.bytes {
        Keys.BytesTransitive(k, last.key.bytes, rest[0].key.bytes);
      }
      NoneBeyond(rest, k);
    }
  }

  /** The block a search must look in, seen as blocks of entries. */
  function LeadingBlocks(blocks: seq<Block>, k: Bytes): (n: nat)
    requires NonEmpty(blocks)
    ensures n <= |blocks|
  {
    if blocks == [] || !Keys.Less(blocks[0][|blocks[0]| - 1].key, Keys.Key(k, Keys.MAX_LSN)) then 0
    else 1 + LeadingBlocks(blocks[1..], k)
  }

  lemma {:induction false} FindBlock(blocks: seq<Block>, k: Bytes)
    requires NonEmpty(blocks) && Sorted(Flatten(blocks))
    ensures var n := LeadingBlocks(blocks, k);
            FirstFor(Flatten(blocks), k)
            == if n == |blocks| || Keys.BytesLess(k, blocks[n][0].key.bytes) then None else FirstFor(blocks[n], k)
  {
    if blocks != [] {
      hide Keys.Less, Keys.BytesLess, Keys.Leq;
      var block, rest := blocks[0], Flatten(blocks[1..]);
      SortedSplit(block, rest);
      FirstForAppend(block, rest, k);
      if Keys.Less(block[|block| - 1].key, Keys.Key(k, Keys.MAX_LSN)) {
        NoneBefore(block, k);
        FindBlock(blocks[1..], k);
      } else {
        if Keys.BytesLess(k, block[0].key.bytes) {
          NoneBeyond(block, k);
        }
        if FirstFor(block, k).None? {
          NoneAfter(block, rest, k);
        }
      }
    }
  }

  lemma {:induction false} LeadingAgree(blocks: seq<Block>, index: seq<Fence>, k: Bytes)
    requires NonEmpty(blocks) && |index| == |blocks|
    requires forall i :: 0 <= i < |blocks| ==> index[i].max == blocks[i][|blocks[i]| - 1].key
    ensures LeadingBefore(index, k) == LeadingBlocks(blocks, k)
  {
    if blocks != [] {
      LeadingAgree(blocks[1..], index[1..], k);
    }
  }

  lemma {:induction false} BlockSorted(blocks: seq<Block>, i: nat)
    requires i < |blocks| && Sorted(Flatten(blocks))
    ensures Sorted(blocks[i])
  {
    hide Sorted;
    SortedSplit(blocks[0], Flatten(blocks[1..]));
    if i > 0 {
      BlockSorted(blocks[1..], i - 1);
    }
  }

  /** Block maxima are monotone, which is what the binary search needs. */
  lemma IndexPartitioned(crc: Crc, blocks: seq<Block>, k: Bytes)
    requires NonEmpty(blocks) && Sorted(Flatten(blocks))
    ensures Partitioned(Fences(crc, blocks), k)
  {
    hide Keys.Less, DataImage, Fences;
    var index := Fences(crc, blocks);
    forall i, j | 0 <= i < j < |index| && Before(index[j], k) ensures Before(index[i], k) {
      FenceAt(crc, blocks, i);
      FenceAt(crc, blocks, j);
      MaximaSorted(blocks, i, j);
      Keys.Transitive(index[i].max, index[j].max, Keys.Key(k, Keys.MAX_LSN));
    }
  }

  lemma {:induction false} MaximaSorted(blocks: seq<Block>, i: nat, j: nat)
    requires NonEmpty(blocks) && Sorted(Flatten(blocks)) && i < j < |blocks|
    ensures Keys.Leq(blocks[i][|blocks[i]| - 1].key, blocks[j][|blocks[j]| - 1].key)
  {
    hide Sorted, Keys.Leq;
    SortedSplit(blocks[0], Flatten(blocks[1..]));
    if i > 0 {
      MaximaSorted(blocks[1..], i - 1, j - 1);
    } else {
      InFlatten(blocks[1..], j - 1, |blocks[j]| - 1);
    }
  }

  lemma {:induction false} InFlatten<T>(ss: seq<seq<T>>, i: nat, j: nat)
    requires i < |ss| && j < |ss[i]|
    ensures ss[i][j] in Flatten(ss)
  {
    if i > 0 {
      InFlatten(ss[1..], i - 1, j);
    }
  }

  /** The filter was told every key of the table. */
  predicate FilterKnows(sip: Sip, bloom: Bloom, es: seq<Entry>)
    requires bloom.Sized()
  {
    forall e :: e in es ==> Covers(sip, bloom, e.key.bytes)
  }

  /** Search is a linear scan: on the reopened file it answers exactly the first entry for k,
      which by sortedness is a newest version, even when k's versions span blocks. */
  lemma SearchIsLinearScan(crc: Crc, sip: Sip, blocks: seq<Block>, bloom: Bloom, k: Bytes)
    requires NonEmpty(blocks) && blocks != [] && Fits(crc, blocks, bloom)
    requires Sorted(Flatten(blocks))
    requires bloom.Sized() && FilterKnows(sip, bloom, Flatten(blocks))
    ensures SearchResult(crc, sip, Reopened(crc, blocks, bloom), k) == Found(FirstFor(Flatten(blocks), k))
    ensures Partitioned(Reopened(crc, blocks, bloom).index, k)
  {
    hide Covers, DataImage, Fences, Image, ReadFrame, Flatten, Keys.Less, Keys.BytesLess, Keys.Leq, ScanBlock,
         EncodeAll, Fits, Entries.Encodable;
    var t := Reopened(crc, blocks, bloom);
    IndexPartitioned(crc, blocks, k);
    if Covers(sip, bloom, k) {
      forall i | 0 <= i < |blocks| ensures t.index[i].max == blocks[i][|blocks[i]| - 1].key {
        FenceAt(crc, blocks, i);
      }
      LeadingAgree(blocks, t.index, k);
      FindBlock(blocks, k);
      var n := LeadingBlocks(blocks, k);
      if n < |blocks| {
        FenceAt(crc, blocks, n);
        BlockAt(crc, blocks, bloom, n);
        BlockSorted(blocks, n);
        BlockEncodable(crc, blocks, bloom, n);
        ScanFindsFirst(blocks[n], k);
      }
    }
  }

  // --- Damage ---

  /** A search whose block is damaged answers an error, never an older version or a miss. */
  lemma DamageIsBroken(crc: Crc, sip: Sip, t: Table, k: Bytes, idx: nat)
    requires t.bloom.Sized() && Covers(sip, t.bloom, k) && idx < |t.index|
    requires (forall i :: 0 <= i < idx ==> Before(t.index[i], k)) && !Before(t.index[idx], k)
    requires !Keys.BytesLess(k, t.index[idx].min.bytes) && Spoiled(crc, t.file, t.index[idx].offset)
    ensures SearchResult(crc, sip, t, k).Broken?
  {
    hide Covers, Before, Spoiled, Keys.BytesLess, ScanBlock;
    ReadSpoiled(crc, t.file, t.index[idx].offset);
  }

  /** A block that passed its checksum and yet does not decode is an error too, in a search that reaches the bad entry
      and in an iteration. */
  lemma {:induction false} UnreadableIsBroken(es: seq<Entry>, bad: Bytes, k: Bytes, crc: Crc, t: Table, idx: nat)
    requires AllEncodable(es) && bad != [] && !Entries.Parse(bad).Ok?
    requires forall i :: 0 <= i < |es| ==> Keys.BytesLess(es[i].key.bytes, k)
    ensures ScanBlock(EncodeAll(es) + bad, k).Broken?
    ensures Remaining(crc, t, idx, EncodeAll(es) + bad) == Log(es, false)
  {
    hide Entries.Encode, Entries.Parse, Keys.BytesLess;
    if es == [] {
      assert EncodeAll(es) + bad == bad;
    } else {
      var tail := EncodeAll(es[1..]) + bad;
      Associative(Entries.Encode(es[0]), EncodeAll(es[1..]), bad);
      Entries.RoundTrip(es[0], tail);
      assert Entries.Encode(es[0]) + tail != [];
      Keys.BytesTrichotomy(es[0].key.bytes, k);
      UnreadableIsBroken(es[1..], bad, k, crc, t, idx);
      assert [es[0]] + es[1..] == es;
    }
  }

  /** An iteration ends in an error at the first damaged block it comes to. */
  lemma DamageEndsIteration(crc: Crc, t: Table, idx: nat)
    requires idx < |t.index| && Spoiled(crc, t.file, t.index[idx].offset)
    ensures Remaining(crc, t, idx, []) == Log([], false)
  {
    hide Spoiled;
    ReadSpoiled(crc, t.file, t.index[idx].offset);
  }

  lemma BlockEncodable(crc: Crc, blocks: seq<Block>, bloom: Bloom, i: nat)
    requires NonEmpty(blocks) && Fits(crc, blocks, bloom) && i < |blocks|
    ensures AllEncodable(blocks[i])
  {
    hide Image, IndexData, EncodeAll, Blooms.Encode, Entries.Encodable;
  }

  // --- Iteration ---

  /** What remains to be yielded from block `idx` on, with `cursor` unread in the loaded block. */
  function Remaining(crc: Crc, t: Table, idx: nat, cursor: Bytes): Log
    decreases |t.index| - idx, |cursor|
  {
    if cursor != [] then
      match Entries.Parse(cursor)
      case Ok(e, rest) => var l := Remaining(crc, t, idx, rest); Log([e] + l.entries, l.clean)
      case _ => Log([], false)
    else if idx >= |t.index| then Log([], true)
    else
      var data := ReadFrame(crc, t.file, t.index[idx].offset);
      if data.IsFailure() then Log([], false)
      else if data.value == [] then Log([], true)
      else Remaining(crc, t, idx + 1, data.value)
  }

  class SstableIterator {
    const crc: Crc
    const table: Table
    // What the open file holds now: whoever creates a file under its name truncates it under the reader.
    var file: Bytes
    var blockIdx: nat
    var cursor: Bytes

    constructor (crc: Crc, table: Table)
      ensures this.crc == crc && this.table == table && blockIdx == 0 && cursor == [] && file == table.file
    {
      this.crc, this.table, file, blockIdx, cursor := crc, table, table.file, 0, [];
    }

    function Rest(): Log
      reads this
    {
      Remaining(crc, table.(file := file), blockIdx, cursor)
    }

    /** The blocks not read yet. */
    function Unread(): nat
      reads this
    {
      if blockIdx < |table.index| then |table.index| - blockIdx else 0
    }

    /** The file is written from outside. */
    method Overwrite(bytes: Bytes)
      modifies this`file
      ensures file == bytes
    {
      file := bytes;
    }

    method EnsureBlockLoaded() returns (r: Option<bool>)
      modifies this`blockIdx, this`cursor
      ensures r.None? ==> old(Rest()) == Log([], false)
      ensures r == Some(false) ==> old(Rest()) == Log([], true)
      ensures r == Some(true) ==> old(Rest()) == if cursor == [] then Log([], true) else Rest()
      ensures Unread() < old(Unread()) || (blockIdx == old(blockIdx) && cursor == old(cursor))
    {
      hide ReadFrame, Entries.Parse;
      if cursor == [] {
        if blockIdx >= |table.index| { return Some(false); }
        var data := ReadFrame(crc, file, table.index[blockIdx].offset);
        if data.IsFailure() { return None; }
        cursor := data.value;
        blockIdx := blockIdx + 1;
      }
      return Some(true);
    }

    method Next() returns (r: Yield)
      modifies this`blockIdx, this`cursor
      ensures r.Finished? ==> old(Rest()) == Log([], true)
      ensures r.Failed? ==> old(Rest()) == Log([], false)
      ensures r.Yielded? ==> old(Rest()) == Log([r.entry] + Rest().entries, Rest().clean)
      ensures Unread() < old(Unread()) || (Unread() == old(Unread()) && |cursor| <= |old(cursor)|)
      ensures r.Yielded? ==> Unread() < old(Unread()) || |cursor| < |old(cursor)|
    {
      hide Entries.Parse, ReadFrame;
      var loaded := EnsureBlockLoaded();
      if loaded.None? { return Failed; }
      if !loaded.value || cursor == [] { return Finished; }
      var p := Entries.Parse(cursor);
      if p.IsFailure() { return Failed; }
      cursor := p.rest;
      return Yielded(p.value);
    }
  }

  lemma RemainingEntry(crc: Crc, t: Table, idx: nat, e: Entry, tail: Bytes)
    requires Entries.Encodable(e)
    ensures var l := Remaining(crc, t, idx, tail);
            Remaining(crc, t, idx, Entries.Encode(e) + tail) == Log([e] + l.entries, l.clean)
  {
    assert Entries.Encode(e) + tail != [];
    hide Entries.Encode, Entries.Parse, ReadFrame;
    Entries.RoundTrip(e, tail);
  }

  lemma {:induction false} RemainingInBlock(crc: Crc, t: Table, idx: nat, es: seq<Entry>)
    requires AllEncodable(es)
    ensures var after := Remaining(crc, t, idx, []);
            Remaining(crc, t, idx, EncodeAll(es)) == Log(es + after.entries, after.clean)
  {
    hide Entries.Encode, Entries.Encodable, Remaining;
    var after := Remaining(crc, t, idx, []);
    if es == [] {
      assert es + after.entries == after.entries;
    } else {
      var e, rest := es[0], es[1..];
      assert EncodeAll(es) == Entries.Encode(e) + EncodeAll(rest);
      RemainingEntry(crc, t, idx, e, EncodeAll(rest));
      RemainingInBlock(crc, t, idx, rest);
      assert es == [e] + rest;
      Associative([e], rest, after.entries);
    }
  }

  lemma EncodedBlockNonEmpty(es: seq<Entry>)
    requires es != []
    ensures EncodeAll(es) != []
  {
    assert |EncodeAll(es)| >= |Entries.Encode(es[0])|;
  }

  lemma {:induction false} RemainingBlocks(crc: Crc, blocks: seq<Block>, bloom: Bloom, idx: nat)
    requires NonEmpty(blocks) && blocks != [] && Fits(crc, blocks, bloom) && idx <= |blocks|
    ensures Remaining(crc, Reopened(crc, blocks, bloom), idx, []) == Log(Flatten(blocks[idx..]), true)
    decreases |blocks| - idx
  {
    hide ReadFrame, Entries.Parse, Image, Fences, EncodeAll, Fits, DataImage, Entries.Encodable;
    if idx < |blocks| {
      var t := Reopened(crc, blocks, bloom);
      BlockAt(crc, blocks, bloom, idx);
      EncodedBlockNonEmpty(blocks[idx]);
      BlockEncodable(crc, blocks, bloom, idx);
      RemainingInBlock(crc, t, idx + 1, blocks[idx]);
      RemainingBlocks(crc, blocks, bloom, idx + 1);
      assert blocks[idx..][1..] == blocks[idx + 1..];
    }
  }

  /** Round trip: iterating over the reopened file yields exactly what was written, then ends cleanly. */
  lemma IterationIsRoundTrip(crc: Crc, es: seq<Entry>, bloom: Bloom)
    requires es != [] && NonEmpty(BlocksOf(es)) && Fits(crc, BlocksOf(es), bloom)
    ensures BlocksOf(es) != []
    ensures Remaining(crc, Reopened(crc, BlocksOf(es), bloom), 0, []) == Log(es, true)
  {
    BlocksKeepAll(es);
    RemainingBlocks(crc, BlocksOf(es), bloom, 0);
    assert BlocksOf(es)[0..] == BlocksOf(es);
  }

  // --- A file truncated under its reader ---

  /** A file no longer than where a block was has no block there. */
  lemma NothingThere(crc: Crc, file: Bytes, offset: nat)
    requires |file| <= offset
    ensures ReadFrame(crc, file, offset).IsFailure()
  {}

  /** An input whose file is truncated still yields everything it held exactly when every block of it has been read:
      otherwise it fails where it would have read on, for as long as the file ends before the next block's place. */
  lemma {:induction false} TruncatedInputIff(crc: Crc, t: Table, idx: nat, cursor: Bytes, file: Bytes)
    requires Remaining(crc, t, idx, cursor).clean
    requires idx < |t.index| ==> |file| <= t.index[idx].offset
    ensures Remaining(crc, t.(file := file), idx, cursor) == Remaining(crc, t, idx, cursor) <==> idx >= |t.index|
    ensures idx < |t.index| ==> !Remaining(crc, t.(file := file), idx, cursor).clean
    decreases |cursor|
  {
    if cursor != [] {
      hide Entries.Parse, ReadFrame;
      TruncatedInputIff(crc, t, idx, Entries.Parse(cursor).rest, file);
    } else if idx < |t.index| {
      NothingThere(crc, file, t.index[idx].offset);
      hide ReadFrame;
    }
  }

  /** Once everything is read it does not matter what the file becomes. */
  lemma {:induction false} AllRead(crc: Crc, t: Table, idx: nat, cursor: Bytes, file: Bytes)
    requires idx >= |t.index|
    ensures Remaining(crc, t.(file := file), idx, cursor) == Remaining(crc, t, idx, cursor)
    decreases |cursor|
  {
    hide Entries.Parse;
    if cursor != [] && Entries.Parse(cursor).Ok? {
      AllRead(crc, t, idx, Entries.Parse(cursor).rest, file);
    }
  }

  /** While a block is unread, at least the last block's entries are still to come. */
  lemma {:induction false} UnreadIsDue(crc: Crc, blocks: seq<Block>, bloom: Bloom, idx: nat, cursor: Bytes)
    requires NonEmpty(blocks) && blocks != [] && Fits(crc, blocks, bloom) && idx < |blocks|
    requires Remaining(crc, Reopened(crc, blocks, bloom), idx, cursor).clean
    ensures |Remaining(crc, Reopened(crc, blocks, bloom), idx, cursor).entries| >= |blocks[|blocks| - 1]|
    decreases |cursor|
  {
    hide Entries.Parse, ReadFrame, Image, Fences, Fits;
    if cursor == [] {
      RemainingBlocks(crc, blocks, bloom, idx);
      hide Remaining;
      LastInFlatten(blocks[idx..]);
    } else {
      UnreadIsDue(crc, blocks, bloom, idx, Entries.Parse(cursor).rest);
    }
  }

  lemma LastInFlatten(blocks: seq<Block>)
    requires blocks != []
    ensures |Flatten(blocks)| >= |blocks[|blocks| - 1]|
  {
    var n := |blocks| - 1;
    FlattenSnoc(blocks[..n], blocks[n]);
    assert blocks == blocks[..n] + [blocks[n]];
  }
}
