/** The compaction worker: opens inputs, merges, splits, commits; and the loop that triggers it. */
module Compactor {
  import opened Codec
  import opened Entries
  import opened Manifests
  import opened SstableFormat
  import opened SstableWriters
  import opened SstableReaders
  import opened Tables
  import Blooms
  import opened Splitters
  import opened Merging
  import opened Levels
  import opened Compaction
  import Keys
  import Values

  // --- Levels backed by files ---

  /** The file is on disk, holds what the level says, and is as long as the manifest says. */
  ghost predicate FileOk(env: Env, disk: map<u32, Bytes>, f: Sst) {
    && f.meta.fileId in disk && Holds(env, disk[f.meta.fileId], f.entries)
    && f.meta.fileSize == |disk[f.meta.fileId]|
  }

  ghost predicate Backed(env: Env, disk: map<u32, Bytes>, files: Levels.Files) {
    forall f :: f in files ==> FileOk(env, disk, f)
  }

  ghost predicate AllBacked(env: Env, disk: map<u32, Bytes>, levels: DbLevels) {
    forall n: nat :: Backed(env, disk, LevelAt(levels, n))
  }

  ghost predicate SmallBag(m: multiset<Entry>) {
    forall e :: e in m ==> Small(e)
  }

  /** No file of the list has one of the ids about to be handed out. */
  predicate NoneIn(files: Levels.Files, first: nat, next: nat) {
    forall f :: f in files ==> !(first <= f.meta.fileId < next)
  }

  ghost predicate NoLiveIn(levels: DbLevels, first: nat, next: nat) {
    forall n: nat :: NoneIn(LevelAt(levels, n), first, next)
  }

  /** Every live id is below next. */
  ghost predicate IdsBelow(levels: DbLevels, next: nat) { NoLiveIn(levels, next, 0x1_0000_0000) }

  /** Writing files under new ids disturbs no file under another. */
  lemma BackedStays(env: Env, before: map<u32, Bytes>, disk: map<u32, Bytes>, first: nat, next: nat,
                    files: Levels.Files)
    requires Backed(env, before, files) && OnlyNew(before, disk, first, next) && NoneIn(files, first, next)
    ensures Backed(env, disk, files)
  {
    hide Holds;
    forall f | f in files ensures FileOk(env, disk, f) {
      assert FileOk(env, before, f);
    }
  }

  lemma AllBackedStays(env: Env, before: map<u32, Bytes>, disk: map<u32, Bytes>, first: nat, next: nat,
                       levels: DbLevels)
    requires AllBacked(env, before, levels) && OnlyNew(before, disk, first, next) && NoLiveIn(levels, first, next)
    ensures AllBacked(env, disk, levels)
  {
    hide Backed, OnlyNew, NoneIn;
    forall n: nat ensures Backed(env, disk, LevelAt(levels, n)) {
      assert NoneIn(LevelAt(levels, n), first, next);
      BackedStays(env, before, disk, first, next, LevelAt(levels, n));
    }
  }

  // --- Output files ---

  /** The manifest entries with what they describe. */
  function AsFiles(metas: seq<FileMeta>, pieces: seq<seq<Entry>>): (r: Levels.Files)
    requires |metas| == |pieces|
    ensures |r| == |metas|
  {
    seq(|metas|, i requires 0 <= i < |metas| => Sst(metas[i], pieces[i]))
  }

  lemma {:induction false} ConcatIsFlatten(metas: seq<FileMeta>, pieces: seq<seq<Entry>>)
    requires |metas| == |pieces|
    ensures Concat(AsFiles(metas, pieces)) == Flatten(pieces)
  {
    if metas != [] {
      var n := |metas| - 1;
      ConcatIsFlatten(metas[..n], pieces[..n]);
      FlattenSnoc(pieces[..n], pieces[n]);
      assert pieces == pieces[..n] + [pieces[n]];
      assert AsFiles(metas, pieces)[..n] == AsFiles(metas[..n], pieces[..n]);
    }
  }

  /** A piece of a merged sequence, written with the standard target size, fits the format. */
  predicate Trim(crc: Crc, piece: seq<Entry>) {
    piece != [] && |DataImage(crc, Fill(piece[..|piece| - 1]).flushed)| < TARGET_FILE_SIZE
  }

  lemma PiecesAreTrim(crc: Crc, merged: seq<Entry>, target: nat)
    requires target <= TARGET_FILE_SIZE
    ensures var pieces := PiecesOf(crc, merged, target);
            Flatten(pieces) == merged && forall i :: 0 <= i < |pieces| ==> Trim(crc, pieces[i])
  {
    hide Chop, Flatten, DataImage, Fill;
    var p := Chop(crc, merged, target);
    ChopKeepsAll(crc, merged, target);
    FlattenSnoc(p.closed, p.open);
    NothingWritten(crc);
    var pieces := PiecesOf(crc, merged, target);
    forall i | 0 <= i < |pieces| ensures Trim(crc, pieces[i]) {
      var piece := pieces[i];
      if |piece| == 1 {
        assert piece[..0] == [];
      }
    }
  }

  lemma NothingWritten(crc: Crc)
    ensures |DataImage(crc, Fill([]).flushed)| == 0
  {}

  lemma {:induction false} PieceOfFlatten(pieces: seq<seq<Entry>>, i: nat, e: Entry)
    requires i < |pieces| && e in pieces[i]
    ensures e in Flatten(pieces)
  {
    var j :| 0 <= j < |pieces[i]| && pieces[i][j] == e;
    InFlatten(pieces, i, j);
  }

  /** What the splitter stored are well-described, readable files of the merged sequence. */
  lemma StoredIsBacked(env: Env, disk: map<u32, Bytes>, metas: seq<FileMeta>, first: nat, merged: seq<Entry>,
                       target: nat)
    requires env.Valid() && target <= TARGET_FILE_SIZE
    requires Stored(env, disk, metas, first, PiecesOf(env.crc, merged, target))
    requires forall e :: e in merged ==> Small(e)
    ensures var out := AsFiles(metas, PiecesOf(env.crc, merged, target));
            && OutputOf(out, merged) && Backed(env, disk, out)
            && forall i :: 0 <= i < |out| ==> out[i].meta.fileId == first + i
  {
    var pieces := PiecesOf(env.crc, merged, target);
    hide PiecesOf, Flatten, TableOf, Holds, Small, DataImage, Fill;
    var out := AsFiles(metas, pieces);
    PiecesAreTrim(env.crc, merged, target);
    ConcatIsFlatten(metas, pieces);
    forall f | f in out ensures FileOk(env, disk, f) {
      var i :| 0 <= i < |out| && out[i] == f;
      forall e | e in pieces[i] ensures Small(e) {
        PieceOfFlatten(pieces, i, e);
      }
      assert Trim(env.crc, pieces[i]);
      CompactedHolds(env, disk[metas[i].fileId], pieces[i]);
    }
    forall i | 0 <= i < |out|
      ensures out[i].entries != [] && out[i].meta.minKey == out[i].entries[0].key
      ensures out[i].meta.maxKey == out[i].entries[|out[i].entries| - 1].key
    {
      assert Trim(env.crc, pieces[i]);
    }
  }

  // --- One compaction ---

  /** A correct result of compacting level n: some sorted permutation of the inputs, cut into described files. */
  ghost predicate CompactionOf(levels: DbLevels, n: nat, merged: seq<Entry>, out: Levels.Files) {
    Merges(levels, n, merged, out) && FreshIds(KeptBelow(levels, n), out)
  }

  ghost predicate Merges(levels: DbLevels, n: nat, merged: seq<Entry>, out: Levels.Files) {
    && Pick(levels, n).Plan?
    && Sorted(merged) && multiset(merged) == Bag(Pick(levels, n).source) + Bag(Pick(levels, n).target)
    && OutputOf(out, merged)
  }

  ghost predicate Compacted(levels: DbLevels, n: nat, levels': DbLevels) {
    Pick(levels, n).Plan? && exists merged, out ::
      CompactionOf(levels, n, merged, out) && levels' == Install(levels, n, Pick(levels, n), out)
  }

  /** What is due from freshly opened files is what they hold. */
  lemma {:induction false} DueIsBag(files: Levels.Files, due: seq<Log>)
    requires |due| == |files| && forall i :: 0 <= i < |files| ==> due[i] == Log(files[i].entries, true)
    ensures AllDue(due) == Bag(files)
  {
    if files != [] {
      DueIsBag(files[1..], due[1..]);
      assert files == [files[0]] + files[1..];
      BagCons(files[0], files[1..]);
    }
  }

  predicate IsTail(part: seq<Entry>, whole: seq<Entry>) {
    |part| <= |whole| && part == whole[|whole| - |part|..]
  }

  /** The loop's state: merged is what has come out of `all`, due is what is still in. */
  ghost predicate Merged(all: seq<Log>, merged: seq<Entry>, due: seq<Log>) {
    && Progress(merged, due) && multiset(merged) + AllDue(due) == AllDue(all)
    && |due| == |all| && forall i :: 0 <= i < |all| ==>
                           due[i].clean == all[i].clean && IsTail(due[i].entries, all[i].entries)
  }

  lemma MergedStep(all: seq<Log>, merged: seq<Entry>, due: seq<Log>, from: nat, rest: Log)
    requires Merged(all, merged, due)
    requires from < |due| && due[from].entries != [] && rest == Log(due[from].entries[1..], due[from].clean)
    requires forall i :: 0 <= i < |due| && due[i].entries != [] ==>
               Keys.Leq(due[from].entries[0].key, due[i].entries[0].key)
    ensures Merged(all, merged + [due[from].entries[0]], due[from := rest])
    ensures |AllDue(due[from := rest])| < |AllDue(due)|
  {
    hide Keys.Leq, AllDue;
    ProgressStep(merged, due, from, rest);
    DueTakes(due, from, rest);
  }

  lemma MergedStart(all: seq<Log>)
    requires AllSorted(all)
    ensures Merged(all, [], all)
  {
    hide Keys.Leq, AllDue;
  }

  lemma MergedEnd(all: seq<Log>, merged: seq<Entry>, due: seq<Log>)
    requires Merged(all, merged, due) && forall i :: 0 <= i < |due| ==> due[i] == Log([], true)
    ensures Sorted(merged) && multiset(merged) == AllDue(all) && forall i :: 0 <= i < |all| ==> all[i].clean
  {
    hide Keys.Leq, AllDue;
    NothingDue(due);
  }

  // --- Inputs whose ids are handed out again ---

  function LogsOf(files: Levels.Files): (r: seq<Log>)
    ensures |r| == |files| && forall i :: 0 <= i < |r| ==> r[i] == Log(files[i].entries, true)
  {
    seq(|files|, i requires 0 <= i < |files| => Log(files[i].entries, true))
  }

  /** How many entries precede the last block of a table of es. */
  function BeforeLast(es: seq<Entry>): nat {
    var blocks := BlocksOf(es);
    if blocks == [] || |blocks[|blocks| - 1]| > |es| then 0 else |es| - |blocks[|blocks| - 1]|
  }

  /** Every entry before the table's last block has a key up to k. */
  predicate ReadUpTo(es: seq<Entry>, k: Keys.Key) {
    var b := BeforeLast(es);
    b == 0 || Keys.Leq(es[b - 1].key, k)
  }

  /** Every output file of the merged sequence m that takes an input's id begins no earlier than that input's last
      block: all of the input is read by then. */
  predicate SafeIds(crc: Crc, files: Levels.Files, m: seq<Entry>, first: nat, target: nat) {
    var pieces := PiecesOf(crc, m, target);
    forall k, f :: 0 <= k < |pieces| && f in files && f.meta.fileId == first + k && pieces[k] != [] ==>
      ReadUpTo(f.entries, pieces[k][0].key)
  }

  /** A merge that has come to a file that begins with f's unread blocks still due and takes f's id. */
  ghost predicate Overtakes(crc: Crc, files: Levels.Files, first: nat, target: nat, prefix: seq<Entry>, due: seq<Log>,
                            f: Sst)
  {
    var pieces := PiecesOf(crc, prefix, target);
    && Merged(LogsOf(files), prefix, due) && prefix != [] && pieces != [] && f in files
    && pieces[|pieces| - 1] == [prefix[|prefix| - 1]] && f.meta.fileId == first + |pieces| - 1
    && !ReadUpTo(f.entries, prefix[|prefix| - 1].key)
  }

  /** Among the ids from first up to next. */
  ghost predicate Damaged(crc: Crc, files: Levels.Files, first: nat, next: nat, target: nat) {
    exists prefix, due, f :: Overtakes(crc, files, first, target, prefix, due, f) && f.meta.fileId < next
  }

  lemma DamagedGrows(crc: Crc, files: Levels.Files, first: nat, next: nat, next': nat, target: nat)
    requires Damaged(crc, files, first, next, target) && next <= next'
    ensures Damaged(crc, files, first, next', target)
  {
    hide Overtakes;
  }

  lemma {:induction false} PiecesExtend(crc: Crc, a: seq<Entry>, b: seq<Entry>, target: nat, k: nat)
    requires a <= b && k < |PiecesOf(crc, a, target)|
    ensures k < |PiecesOf(crc, b, target)|
    ensures PiecesOf(crc, a, target)[k] != [] && PiecesOf(crc, b, target)[k] != []
    ensures PiecesOf(crc, b, target)[k][0] == PiecesOf(crc, a, target)[k][0]
    decreases |b| - |a|
  {
    hide PiecesOf;
    if |a| < |b| {
      var c := a + [b[|a|]];
      PiecesGrow(crc, a, b[|a|], target);
      PiecesExtend(crc, c, b, target, k);
    } else {
      assert a == b;
      PiecesGrow(crc, a, Entry(Keys.Key([], 0), Values.Tombstone), target);
    }
  }

  /** What a merge has put out is how every sorted permutation of its inputs begins. */
  lemma {:induction false} PrefixOfMerge(merged: seq<Entry>, rest: multiset<Entry>, m: seq<Entry>)
    requires Sorted(merged) && StrictlySorted(m) && multiset(m) == multiset(merged) + rest
    requires forall e, x :: e in merged && x in rest ==> Keys.Leq(e.key, x.key)
    ensures merged <= m
  {
    hide Keys.Less, Keys.Leq;
    if merged != [] {
      assert |multiset(m)| == |m| && |multiset(merged) + rest| == |merged| + |rest|;
      FirstOfMerge(merged, rest, m);
      var e, tail, mtail := m[0], merged[1..], m[1..];
      assert merged == [e] + tail && m == [e] + mtail;
      OneLess(e, tail, mtail, rest);
      assert Sorted(tail) && StrictlySorted(mtail);
      PrefixOfMerge(tail, rest, mtail);
    }
  }

  lemma {:induction false} OneLess(e: Entry, a: seq<Entry>, b: seq<Entry>, rest: multiset<Entry>)
    requires multiset([e] + b) == multiset([e] + a) + rest
    ensures multiset(b) == multiset(a) + rest
  {
    assert multiset([e] + b) == multiset{e} + multiset(b) && multiset([e] + a) == multiset{e} + multiset(a);
    assert multiset(b) == multiset([e] + b) - multiset{e};
  }

  lemma {:induction false} FirstOfMerge(merged: seq<Entry>, rest: multiset<Entry>, m: seq<Entry>)
    requires Sorted(merged) && StrictlySorted(m) && multiset(m) == multiset(merged) + rest && merged != [] && m != []
    requires forall e, x :: e in merged && x in rest ==> Keys.Leq(e.key, x.key)
    ensures m[0] == merged[0]
  {
    hide Keys.Less;
    assert merged[0] in multiset(m) && m[0] in multiset(merged) + rest;
    var j :| 0 <= j < |m| && m[j] == merged[0];
    if j > 0 {
      assert Keys.Less(m[0].key, m[j].key);
      if m[0] in multiset(merged) {
        var i :| 0 <= i < |merged| && merged[i] == m[0];
      }
      Keys.Transitive(m[0].key, merged[0].key, m[0].key);
      Keys.Trichotomy(m[0].key, m[0].key);
    }
  }

  /** A damaged merge means unsafe ids, which can be seen from the inputs alone. */
  lemma {:induction false} DamagedIsUnsafe(crc: Crc, files: Levels.Files, first: nat, next: nat, target: nat,
                                            m: seq<Entry>)
    requires Damaged(crc, files, first, next, target) && UniqueKeys(Bag(files))
    requires Sorted(m) && multiset(m) == Bag(files)
    ensures !SafeIds(crc, files, m, first, target)
  {
    hide Bag, UniqueKeys, Sorted, PiecesOf, ReadUpTo, AllDue, Keys.Leq;
    var prefix, due, f :| Overtakes(crc, files, first, target, prefix, due, f);
    DueIsBag(files, LogsOf(files));
    UniqueIsStrict(m);
    PrefixOfMerge(prefix, AllDue(due), m);
    PiecesExtend(crc, prefix, m, target, |PiecesOf(crc, prefix, target)| - 1);
  }

  /** What is still due after the first j entries of a sorted permutation have come out. */
  lemma {:induction false} MergeReaches(all: seq<Log>, m: seq<Entry>, j: nat) returns (due: seq<Log>)
    requires AllSorted(all) && UniqueKeys(AllDue(all)) && Sorted(m) && multiset(m) == AllDue(all) && j <= |m|
    ensures Merged(all, m[..j], due)
  {
    hide AllDue, UniqueKeys, Sorted, Merged, AllSorted;
    if j == 0 {
      due := all;
      MergedStart(all);
      assert m[..0] == [];
    } else {
      due := MergeReaches(all, m, j - 1);
      due := ReachesOneMore(all, m, j - 1, due);
    }
  }

  lemma {:induction false} DueIsRest(all: seq<Log>, m: seq<Entry>, p: nat, due: seq<Log>)
    requires p <= |m| && Merged(all, m[..p], due) && multiset(m) == AllDue(all)
    ensures AllDue(due) == multiset(m[p..]) && AllSorted(due)
  {
    hide AllDue, AllSorted, Sorted;
    assert m == m[..p] + m[p..];
    assert multiset(m) == multiset(m[..p]) + multiset(m[p..]);
    assert AllDue(due) == multiset(m) - multiset(m[..p]);
  }

  lemma {:induction false} ReachesOneMore(all: seq<Log>, m: seq<Entry>, p: nat, due: seq<Log>) returns (due': seq<Log>)
    requires UniqueKeys(AllDue(all)) && Sorted(m) && multiset(m) == AllDue(all) && p < |m| && Merged(all, m[..p], due)
    ensures Merged(all, m[..p + 1], due')
  {
    hide AllDue, UniqueKeys, Sorted, Merged, AllSorted, Keys.Leq;
    DueIsRest(all, m, p, due);
    assert m[p] == m[p..][0];
    InDue(due, m[p]);
    var i :| 0 <= i < |due| && m[p] in due[i].entries;
    NextIsHead(m, p, due, i);
    assert m[..p + 1] == m[..p] + [m[p]];
    due' := due[i := Log(due[i].entries[1..], due[i].clean)];
    MergedStep(all, m[..p], due, i, Log(due[i].entries[1..], due[i].clean));
  }

  lemma {:induction false} NextIsHead(m: seq<Entry>, p: nat, due: seq<Log>, i: nat)
    requires p < |m| && Sorted(m) && AllSorted(due) && AllDue(due) == multiset(m[p..]) && UniqueKeys(multiset(m))
    requires i < |due| && m[p] in due[i].entries
    ensures due[i].entries[0] == m[p]
    ensures forall k :: 0 <= k < |due| && due[k].entries != [] ==> Keys.Leq(m[p].key, due[k].entries[0].key)
  {
    hide AllDue, Keys.Less;
    forall k | 0 <= k < |due| && due[k].entries != [] ensures Keys.Leq(m[p].key, due[k].entries[0].key)
      ensures due[k].entries[0] in multiset(m)
    {
      var h := due[k].entries[0];
      DueMember(due, k, h);
      assert h in m[p..];
      var q :| 0 <= q < |m[p..]| && m[p..][q] == h;
      assert m[p + q] == h && h in m;
    }
    var h := due[i].entries[0];
    var q :| 0 <= q < |due[i].entries| && due[i].entries[q] == m[p];
    assert Keys.Leq(h.key, m[p].key);
    assert m[p] in multiset(m);
    Keys.TotalOrder();
    assert h.key == m[p].key;
  }

  lemma NoPieces(crc: Crc, target: nat)
    ensures PiecesOf(crc, [], target) == []
  {}

  /** Where output file k begins. */
  lemma {:induction false} PieceStart(crc: Crc, m: seq<Entry>, target: nat, k: nat) returns (p: nat)
    requires k < |PiecesOf(crc, m, target)|
    ensures p < |m| && |PiecesOf(crc, m[..p], target)| == k && |PiecesOf(crc, m[..p + 1], target)| == k + 1
    ensures PiecesOf(crc, m[..p + 1], target)[k] == [m[p]]
    ensures PiecesOf(crc, m, target)[k] != [] && PiecesOf(crc, m, target)[k][0] == m[p]
    decreases |m|
  {
    hide PiecesOf;
    if m == [] { NoPieces(crc, target); }
    var n := |m| - 1;
    assert m == m[..n] + [m[n]] && m[..n + 1] == m;
    PiecesGrow(crc, m[..n], m[n], target);
    if k < |PiecesOf(crc, m[..n], target)| {
      p := PieceStart(crc, m[..n], target, k);
      assert m[..n][..p] == m[..p] && m[..n][..p + 1] == m[..p + 1];
    } else {
      p := n;
    }
  }

  /** A merge of these files is damaged exactly when the ids are unsafe for its one result. */
  lemma {:induction false} DamagedIff(crc: Crc, files: Levels.Files, first: nat, target: nat, m: seq<Entry>)
    requires UniqueKeys(Bag(files)) && (forall f :: f in files ==> Exact(f)) && Sorted(m) && multiset(m) == Bag(files)
    ensures Damaged(crc, files, first, first + |PiecesOf(crc, m, target)|, target)
            <==> !SafeIds(crc, files, m, first, target)
  {
    hide Bag, UniqueKeys, Sorted, PiecesOf, ReadUpTo, AllDue, Exact, Merged, AllSorted;
    if Damaged(crc, files, first, first + |PiecesOf(crc, m, target)|, target) {
      DamagedIsUnsafe(crc, files, first, first + |PiecesOf(crc, m, target)|, target, m);
    }
    if !SafeIds(crc, files, m, first, target) {
      var k, f :| 0 <= k < |PiecesOf(crc, m, target)| && f in files && f.meta.fileId == first + k
                  && PiecesOf(crc, m, target)[k] != [] && !ReadUpTo(f.entries, PiecesOf(crc, m, target)[k][0].key);
      var p := PieceStart(crc, m, target, k);
      InputsDue(files, LogsOf(files));
      var due := MergeReaches(LogsOf(files), m, p + 1);
      assert Overtakes(crc, files, first, target, m[..p + 1], due, f);
    }
  }

  /** An input as an iterator has it: its table as opened, what its file holds now, where it has got to. */
  datatype Input = Input(crc: Crc, table: Table, file: Bytes, blockIdx: nat, cursor: Bytes)
  {
    function Unread(): nat { if blockIdx < |table.index| then |table.index| - blockIdx else 0 }

    function Rest(): Log { Remaining(crc, table.(file := file), blockIdx, cursor) }
  }

  ghost function InputOf(it: SstableIterator): Input
    reads it
  {
    Input(it.crc, it.table, it.file, it.blockIdx, it.cursor)
  }

  ghost function InputsOf(iters: seq<SstableIterator>): (r: seq<Input>)
    reads iters
    ensures |r| == |iters| && forall i :: 0 <= i < |r| ==> r[i] == InputOf(iters[i])
  {
    seq(|iters|, i requires 0 <= i < |iters| reads iters => InputOf(iters[i]))
  }

  /** The input's table was made of es. */
  ghost predicate OnTable(env: Env, crc: Crc, t: Table, es: seq<Entry>) {
    crc == env.crc && exists bloom :: TableReopened(env.crc, t, es, bloom)
  }

  ghost predicate TableReopened(crc: Crc, t: Table, es: seq<Entry>, bloom: Blooms.Bloom) {
    && BlocksOf(es) != [] && NonEmpty(BlocksOf(es)) && Fits(crc, BlocksOf(es), bloom)
    && t == Reopened(crc, BlocksOf(es), bloom)
  }

  /** The input's file is as it was opened, or nothing of it is left to be read. */
  ghost predicate InputIntact(env: Env, f: Sst, it: Input, due: Log, first: nat, next: nat) {
    && OnTable(env, it.crc, it.table, f.entries)
    && if first <= f.meta.fileId < next then due.entries == [] || it.Unread() == 0 else it.file == it.table.file
  }

  ghost predicate Intact(env: Env, files: Levels.Files, its: seq<Input>, due: seq<Log>, first: nat, next: nat) {
    && |due| == |files| == |its|
    && forall i :: 0 <= i < |files| ==> InputIntact(env, files[i], its[i], due[i], first, next)
  }

  /** What has come out and what is due make up the inputs, which can all be read on. */
  ghost predicate Undamaged(env: Env, files: Levels.Files, its: seq<Input>, due: seq<Log>, merged: seq<Entry>,
                            first: nat, next: nat)
  {
    Merged(LogsOf(files), merged, due) && Intact(env, files, its, due, first, next)
  }

  /** An input with an unread block still has more to give than its last block. */
  lemma {:induction false} UnreadIsAhead(env: Env, es: seq<Entry>, it: Input, due: Log, e: Entry)
    requires OnTable(env, it.crc, it.table, es) && it.file == it.table.file && it.Unread() > 0
    requires due.entries != [] && due.clean && it.Rest() == Log(due.entries[1..], due.clean) && IsTail(due.entries, es)
    requires forall x :: x in due.entries ==> Keys.Leq(e.key, x.key) && e.key != x.key
    ensures !ReadUpTo(es, e.key)
  {
    hide Remaining, BlocksOf, Fits, Keys.Less, Image, Fences;
    var bloom :| TableReopened(env.crc, it.table, es, bloom);
    var blocks := BlocksOf(es);
    assert it.table.(file := it.file) == it.table;
    UnreadIsDue(env.crc, blocks, bloom, it.blockIdx, it.cursor);
    var b := BeforeLast(es);
    assert b > 0 && es[b - 1] == due.entries[b - 1 - (|es| - |due.entries|)];
    assert es[b - 1] in due.entries;
    Keys.Trichotomy(e.key, es[b - 1].key);
  }

  /** Whatever is still due follows what was put out last. */
  lemma {:induction false} DueFollows(files: Levels.Files, merged: seq<Entry>, e: Entry, due: seq<Log>, i: nat)
    requires Merged(LogsOf(files), merged + [e], due) && i < |due| && UniqueKeys(Bag(files))
    ensures forall x :: x in due[i].entries ==> Keys.Leq(e.key, x.key) && e.key != x.key
  {
    hide Bag, UniqueKeys, AllDue, Keys.Leq;
    DueIsBag(files, LogsOf(files));
    forall x | x in due[i].entries ensures Keys.Leq(e.key, x.key) && e.key != x.key {
      DueMember(due, i, x);
      assert e in merged + [e];
      NotTwice(Bag(files), multiset(merged + [e]), AllDue(due), e, x);
    }
  }

  /** A file begun under the id of an input with unread blocks shows that the ids were unsafe. */
  lemma {:induction false} OvertakenInput(env: Env, files: Levels.Files, first: nat, target: nat, merged: seq<Entry>,
                                          e: Entry, due: seq<Log>, i: nat, it: Input)
    requires i < |files| == |due| && Merged(LogsOf(files), merged + [e], due) && UniqueKeys(Bag(files))
    requires OnTable(env, it.crc, it.table, files[i].entries) && it.file == it.table.file && it.Unread() > 0
    requires due[i].entries != [] && it.Rest() == Log(due[i].entries[1..], due[i].clean)
    requires files[i].meta.fileId == first + |PiecesOf(env.crc, merged, target)|
    requires |PiecesOf(env.crc, merged + [e], target)| > |PiecesOf(env.crc, merged, target)|
    ensures Damaged(env.crc, files, first, first + |PiecesOf(env.crc, merged + [e], target)|, target)
  {
    hide Bag, UniqueKeys, PiecesOf, AllDue, Remaining, OnTable, ReadUpTo, Progress;
    PiecesGrow(env.crc, merged, e, target);
    DueFollows(files, merged, e, due, i);
    UnreadIsAhead(env, files[i].entries, it, due[i], e);
    assert Overtakes(env.crc, files, first, target, merged + [e], due, files[i]);
  }

  /** Yielding an entry leaves every input intact. */
  lemma {:induction false} NextIntact(env: Env, files: Levels.Files, its: seq<Input>, due: seq<Log>, its': seq<Input>,
                                      due': seq<Log>, first: nat, next: nat, from: nat)
    requires |its'| == |its| && Intact(env, files, its, due, first, next) && from < |due| && due[from].entries != []
    requires due' == due[from := Log(due[from].entries[1..], due[from].clean)]
    requires forall i :: 0 <= i < |its| ==> its'[i].table == its[i].table && its'[i].crc == its[i].crc
    requires forall i :: 0 <= i < |its| ==> its'[i].Unread() <= its[i].Unread() && its'[i].file == its[i].file
    ensures Intact(env, files, its', due', first, next)
  {
    hide TableReopened;
    forall i | 0 <= i < |files| ensures InputIntact(env, files[i], its'[i], due'[i], first, next) {
      assert InputIntact(env, files[i], its[i], due[i], first, next);
    }
  }

  /** When a file is begun under the id of an input that is not read to its end, the ids were unsafe; otherwise every
      input is still intact. */
  lemma {:induction false} Overtaking(env: Env, files: Levels.Files, its: seq<Input>, due: seq<Log>, first: nat,
                                      target: nat, merged: seq<Entry>, e: Entry) returns (damaged: bool)
    requires |its| == |due| == |files| && Merged(LogsOf(files), merged + [e], due) && UniqueKeys(Bag(files))
    requires Intact(env, files, its, due, first, first + |PiecesOf(env.crc, merged, target)|)
    requires RestsAre(its, due)
    ensures damaged ==> Damaged(env.crc, files, first, first + |PiecesOf(env.crc, merged + [e], target)|, target)
    ensures !damaged ==> Intact(env, files, its, due, first, first + |PiecesOf(env.crc, merged + [e], target)|)
  {
    hide OnTable, Damaged, Bag, UniqueKeys, PiecesOf, Merged, Input.Rest;
    PiecesGrow(env.crc, merged, e, target);
    var next, next' := first + |PiecesOf(env.crc, merged, target)|, first + |PiecesOf(env.crc, merged + [e], target)|;
    if i: nat :| i < |files| && Overtaken(files[i], its[i], due[i], next, next') {
      damaged := true;
      assert InputIntact(env, files[i], its[i], due[i], first, next);
      OvertakenInput(env, files, first, target, merged, e, due, i, its[i]);
    } else {
      damaged := false;
      forall j | 0 <= j < |files| ensures InputIntact(env, files[j], its[j], due[j], first, next') {
        assert !Overtaken(files[j], its[j], due[j], next, next');
        assert InputIntact(env, files[j], its[j], due[j], first, next);
      }
    }
  }

  /** What an input has left to read is what is due of it after its head. */
  predicate RestsAre(its: seq<Input>, due: seq<Log>)
    requires |its| == |due|
  {
    forall i :: 0 <= i < |due| && due[i].entries != [] ==> its[i].Rest() == Log(due[i].entries[1..], due[i].clean)
  }

  predicate Overtaken(f: Sst, it: Input, due: Log, next: nat, next': nat) {
    next <= f.meta.fileId < next' && due.entries != [] && it.Unread() > 0
  }

  lemma {:induction false} DueMember(due: seq<Log>, i: nat, x: Entry)
    requires i < |due| && x in due[i].entries
    ensures x in AllDue(due)
  {
    if i == 0 {
      assert x in multiset(due[0].entries);
    } else {
      DueMember(due[1..], i - 1, x);
    }
  }

  lemma NotTwice(all: multiset<Entry>, a: multiset<Entry>, b: multiset<Entry>, e: Entry, x: Entry)
    requires UniqueKeys(all) && a + b == all && e in a && x in b
    ensures e.key != x.key
  {
    assert e in all && x in all && (e == x ==> all[e] >= 2);
  }

  /** Reads through the disk: every input whose id has been handed out now reads what has been written under it. */
  method Reread(merge: MergeIterator, files: Levels.Files, splitter: Splitter, ghost merged: seq<Entry>)
    requires merge.Valid() && |files| == |merge.iters|
    modifies merge`due, merge.iters`file
    ensures merge.Valid() && merge.Blocks() == old(merge.Blocks()) && merge.Loaded() == old(merge.Loaded())
    ensures |merge.due| == |old(merge.due)|
    ensures old(Undamaged(splitter.env, files, InputsOf(merge.iters), merge.due, merged, splitter.first,
                          splitter.nextId)) ==>
              Undamaged(splitter.env, files, InputsOf(merge.iters), merge.due, merged, splitter.first, splitter.nextId)
  {
    hide MergeIterator.Valid, Remaining, OnTable, MergeIterator.Blocks, MergeIterator.Loaded, SstableIterator.Rest,
         Intact;
    merge.Sizes();
    ghost var intact := Intact(splitter.env, files, InputsOf(merge.iters), merge.due, splitter.first, splitter.nextId);
    for i := 0 to |files|
      invariant merge.Valid() && merge.Blocks() == old(merge.Blocks()) && merge.Loaded() == old(merge.Loaded())
      invariant |merge.due| == |old(merge.due)|
      invariant intact ==>
                  && merge.due == old(merge.due)
                  && Intact(splitter.env, files, InputsOf(merge.iters), merge.due, splitter.first, splitter.nextId)
    {
      var id := files[i].meta.fileId;
      if splitter.first <= id < splitter.nextId {
        ghost var its := InputsOf(merge.iters);
        merge.Distinct();
        if intact { IntactAt(splitter.env, files, its, merge.due, splitter.first, splitter.nextId,
                          i); }
        merge.Overwrite(i, merge.iters[i], if id in splitter.disk then splitter.disk[id] else []);
        if intact {
          OverwriteIntact(splitter.env, files, its, InputsOf(merge.iters), merge.due, splitter.first, splitter.nextId,
                          i);
        }
      }
    }
  }

  lemma {:induction false} IntactAt(env: Env, files: Levels.Files, its: seq<Input>, due: seq<Log>, first: nat,
                                    next: nat, i: nat)
    requires Intact(env, files, its, due, first, next) && i < |files| && first <= files[i].meta.fileId < next
    ensures i < |due| && i < |its| && (due[i].entries == [] || its[i].Unread() == 0)
  {
    hide OnTable;
  }

  lemma {:induction false} OverwriteIntact(env: Env, files: Levels.Files, its: seq<Input>, its': seq<Input>,
                                           due: seq<Log>, first: nat, next: nat, i: nat)
    requires |its'| == |its| == |files| && i < |files| && first <= files[i].meta.fileId < next
    requires its'[i] == its[i].(file := its'[i].file)
    requires forall j :: 0 <= j < |its| && j != i && !(first <= files[j].meta.fileId < next) ==> its'[j] == its[j]
    requires forall j :: 0 <= j < |its| && j != i ==> its'[j] == its[j].(file := its'[j].file)
    requires Intact(env, files, its, due, first, next)
    ensures Intact(env, files, its', due, first, next)
  {
    hide TableReopened;
    forall j | 0 <= j < |files| ensures InputIntact(env, files[j], its'[j], due[j], first, next) {
      assert InputIntact(env, files[j], its[j], due[j], first, next);
      assert its'[j] == its[j].(file := its'[j].file);
    }
  }

  /** Where the loop stands: merging soundly, or damaged by unsafe ids. */
  ghost predicate Going(merge: MergeIterator, files: Levels.Files, splitter: Splitter, merged: seq<Entry>,
                        damaged: bool)
    reads merge, merge.iters, splitter, splitter.Repr()
  {
    && merge.Valid() && |merge.due| == |files| && splitter.Valid() && splitter.given == merged
    && splitter.Repr() !! merge.Repr()
    && if damaged then Damaged(splitter.env.crc, files, splitter.first, splitter.nextId, splitter.target)
       else
         Undamaged(splitter.env, files, InputsOf(merge.iters), merge.due, merged, splitter.first, splitter.nextId)
  }

  lemma GoingStarts(merge: MergeIterator, files: Levels.Files, splitter: Splitter)
    requires merge.Valid() && merge.due == LogsOf(files) && AllSorted(merge.due)
    requires splitter.Valid() && splitter.given == [] && splitter.Repr() !! merge.Repr()
    requires Intact(splitter.env, files, InputsOf(merge.iters), merge.due, splitter.first, splitter.nextId)
    ensures Going(merge, files, splitter, [], false)
  {
    hide AllDue, Splitter.Valid, Merged, MergeIterator.Valid, Intact, InputsOf, AllSorted;
    MergedStart(LogsOf(files));
  }

  lemma GoingMeans(merge: MergeIterator, files: Levels.Files, splitter: Splitter, merged: seq<Entry>, damaged: bool)
    requires Going(merge, files, splitter, merged, damaged)
    ensures merge.Valid() && |merge.due| == |files| && splitter.Valid() && splitter.given == merged
    ensures splitter.Repr() !! merge.Repr()
    ensures damaged ==> Damaged(splitter.env.crc, files, splitter.first, splitter.nextId, splitter.target)
    ensures !damaged ==>
              Undamaged(splitter.env, files, InputsOf(merge.iters), merge.due, merged, splitter.first, splitter.nextId)
  {
    hide Splitter.Valid, Merged, MergeIterator.Valid, Intact, InputsOf, Damaged, LogsOf;
  }

  /** One merged entry goes to the current file, a new one if that is full, and the inputs see what has been written. */
  method TakeIn(merge: MergeIterator, files: Levels.Files, splitter: Splitter, ghost merged: seq<Entry>, e: Entry,
                ghost was: bool) returns (ok: bool, ghost damaged: bool)
    requires merge.Valid() && |merge.due| == |files| && splitter.Valid() && splitter.given == merged
    requires splitter.Repr() !! merge.Repr() && UniqueKeys(Bag(files))
    requires was ==> Damaged(splitter.env.crc, files, splitter.first, splitter.nextId, splitter.target)
    requires !was ==> Undamaged(splitter.env, files, InputsOf(merge.iters), merge.due, merged + [e], splitter.first,
                                splitter.nextId)
    modifies merge`due, merge.iters`file, splitter.Repr()
    ensures ok ==> Going(merge, files, splitter, merged + [e], damaged)
    ensures !ok ==> splitter.nextId == 0x1_0000_0000
    ensures merge.Blocks() == old(merge.Blocks()) && merge.Loaded() == old(merge.Loaded())
    ensures fresh(splitter.Repr() - old(splitter.Repr()))
    ensures OnlyNew(splitter.before, splitter.disk, splitter.first, splitter.nextId)
    ensures splitter.first <= splitter.nextId <= 0x1_0000_0000
  {
    hide Undamaged, Merged, Damaged, Bag, UniqueKeys, MergeIterator.Valid, Splitter.Valid, OnlyNew, PiecesOf, Intact,
         LogsOf, MergeIterator.Blocks, MergeIterator.Loaded, SstableIterator.Rest, RestsAre, InputsOf, AllDue;
    damaged := was;
    splitter.Counted();
    merge.Sizes();
    ok := splitter.Accept(e);
    if !ok { return; }
    splitter.Counted();
    SameRests(merge);
    damaged := AfterAccept(splitter.env, files, InputsOf(merge.iters), merge.due, splitter.first, splitter.target,
                           merged, e, was);
    Reread(merge, files, splitter, merged + [e]);
  }

  /** What accepting an entry does to the soundness of the merge. */
  lemma {:induction false} AfterAccept(env: Env, files: Levels.Files, its: seq<Input>, due: seq<Log>, first: nat,
                                       target: nat, merged: seq<Entry>, e: Entry, was: bool) returns (damaged: bool)
    requires |its| == |due| == |files| && UniqueKeys(Bag(files)) && RestsAre(its, due)
    requires var next := first + |PiecesOf(env.crc, merged, target)|;
             if was then Damaged(env.crc, files, first, next, target)
             else Undamaged(env, files, its, due, merged + [e], first, next)
    ensures var next := first + |PiecesOf(env.crc, merged + [e], target)|;
            if damaged then Damaged(env.crc, files, first, next, target)
            else Undamaged(env, files, its, due, merged + [e], first, next)
  {
    hide Merged, Damaged, Bag, UniqueKeys, PiecesOf, Intact, RestsAre, LogsOf;
    PiecesGrow(env.crc, merged, e, target);
    if was {
      damaged := true;
      DamagedGrows(env.crc, files, first, first + |PiecesOf(env.crc, merged, target)|,
                   first + |PiecesOf(env.crc, merged + [e], target)|, target);
    } else {
      damaged := Overtaking(env, files, its, due, first, target, merged, e);
    }
  }

  lemma SameRests(merge: MergeIterator)
    requires merge.Valid()
    ensures |merge.due| == |merge.iters| && RestsAre(InputsOf(merge.iters), merge.due)
  {
    hide Remaining, MergeIterator.Valid;
    merge.Sizes();
    merge.RestsDue();
  }

  /** The next entry of a merge, everything staying intact. */
  method NextOf(merge: MergeIterator, files: Levels.Files, env: Env, ghost merged: seq<Entry>, ghost damaged: bool,
                ghost first: nat, ghost next: nat) returns (r: Yield)
    requires merge.Valid() && |merge.due| == |files|
    requires !damaged ==> Undamaged(env, files, InputsOf(merge.iters), merge.due, merged, first, next)
    modifies merge, merge.iters`blockIdx, merge.iters`cursor
    ensures r.Finished? && !damaged ==> Sorted(merged) && multiset(merged) == Bag(files)
    ensures r.Failed? ==> damaged
    ensures r.Yielded? ==> merge.Valid() && |merge.due| == |files|
    ensures r.Yielded? && !damaged ==>
              Undamaged(env, files, InputsOf(merge.iters), merge.due, merged + [r.entry], first, next)
    ensures r.Yielded? ==> merge.Nearer()
  {
    hide Keys.Leq, Sorted, Merged, MergeIterator.Valid, Intact, Bag, MergeIterator.Blocks, MergeIterator.Loaded,
         Remaining;
    merge.Sizes();
    ghost var due, its := merge.due, InputsOf(merge.iters);
    ghost var from;
    r, from := merge.Next();
    if !damaged { AllClean(files, merged, due); }
    if r.Finished? && !damaged { EndOfMerge(files, merged, due); }
    if r.Yielded? {
      merge.Sizes();
      if !damaged {
        MergedStep(LogsOf(files), merged, due, from, merge.due[from]);
        NextIntact(env, files, its, due, InputsOf(merge.iters), merge.due, first, next, from);
      }
    }
  }

  /** The merge loop: every merged entry goes to the current file, and the inputs are read from the disk that is
      written. Unless an input's id is handed out while blocks of it are unread, the result is sorted, newest version
      first within a user key, and a permutation of all inputs. */
  method MergeInto(merge: MergeIterator, files: Levels.Files, splitter: Splitter) returns (ok: bool, merged: seq<Entry>)
    requires merge.Valid() && merge.due == LogsOf(files) && AllSorted(merge.due) && UniqueKeys(Bag(files))
    requires splitter.Valid() && splitter.given == [] && splitter.Repr() !! merge.Repr()
    requires Intact(splitter.env, files, InputsOf(merge.iters), merge.due, splitter.first, splitter.nextId)
    modifies merge, merge.iters, splitter.Repr()
    ensures ok ==> splitter.Valid() && splitter.given == merged
    ensures ok ==> (Sorted(merged) && multiset(merged) == Bag(files))
                   || Damaged(splitter.env.crc, files, splitter.first, splitter.nextId, splitter.target)
    ensures !ok ==> || Damaged(splitter.env.crc, files, splitter.first, splitter.nextId, splitter.target)
                    || splitter.nextId == 0x1_0000_0000
    ensures fresh(splitter.Repr() - old(splitter.Repr()))
    ensures OnlyNew(splitter.before, splitter.disk, splitter.first, splitter.nextId)
    ensures splitter.first <= splitter.nextId <= 0x1_0000_0000
  {
    hide Sorted, Splitter.Valid, OnlyNew, MergeIterator.Valid, Intact, LogsOf, InputsOf, Damaged, Bag, UniqueKeys,
         MergeIterator.Blocks, MergeIterator.Loaded, AllSorted, Going, MergeIterator.Repr, Undamaged,
         SstableIterator.Rest;
    merged, ok := [], false;
    ghost var damaged := false;
    splitter.Counted();
    GoingStarts(merge, files, splitter);
    hide Merged, PiecesOf, Sorted, Splitter.At, Stored;
    while true
      invariant Going(merge, files, splitter, merged, damaged)
      invariant OnlyNew(splitter.before, splitter.disk, splitter.first, splitter.nextId)
      invariant splitter.first <= splitter.nextId <= 0x1_0000_0000
      invariant fresh(splitter.Repr() - old(splitter.Repr()))
      decreases merge.Blocks(), merge.Loaded(), |merge.heap|
    {
      var r: Yield, going: bool;
      r, going, damaged := Round(merge, files, splitter, merged, damaged);
      ok := r.Finished?;
      if !going { return; }
      merged := merged + [r.entry];
    }
  }

  /** One round of the loop. */
  method Round(merge: MergeIterator, files: Levels.Files, splitter: Splitter, ghost merged: seq<Entry>, ghost was: bool)
    returns (r: Yield, going: bool, ghost damaged: bool)
    requires Going(merge, files, splitter, merged, was) && UniqueKeys(Bag(files))
    requires OnlyNew(splitter.before, splitter.disk, splitter.first, splitter.nextId)
    requires splitter.first <= splitter.nextId <= 0x1_0000_0000
    modifies merge, merge.iters, splitter.Repr()
    ensures r.Finished? ==> splitter.Valid() && splitter.given == merged
    ensures r.Finished? ==> (Sorted(merged) && multiset(merged) == Bag(files))
                            || Damaged(splitter.env.crc, files, splitter.first, splitter.nextId, splitter.target)
    ensures r.Failed? ==> Damaged(splitter.env.crc, files, splitter.first, splitter.nextId, splitter.target)
    ensures r.Yielded? && !going ==> splitter.nextId == 0x1_0000_0000
    ensures going ==> r.Yielded? && Going(merge, files, splitter, merged + [r.entry], damaged) && merge.Nearer()
    ensures fresh(splitter.Repr() - old(splitter.Repr()))
    ensures OnlyNew(splitter.before, splitter.disk, splitter.first, splitter.nextId)
    ensures splitter.first <= splitter.nextId <= 0x1_0000_0000
  {
    hide Sorted, Splitter.Valid, Undamaged, Merged, OnlyNew, MergeIterator.Valid, Intact, LogsOf, InputsOf, Damaged,
         Bag, UniqueKeys, MergeIterator.Blocks, MergeIterator.Loaded, AllDue, SstableIterator.Rest;
    going, damaged := false, was;
    GoingMeans(merge, files, splitter, merged, was);
    hide Going, MergeIterator.Repr;
    r := NextBeside(merge, files, splitter, merged, was);
    if r.Yielded? {
      going, damaged := TakeIn(merge, files, splitter, merged, r.entry, was);
    }
  }

  /** Taking the next entry of the merge leaves the splitter alone. */
  method NextBeside(merge: MergeIterator, files: Levels.Files, splitter: Splitter, ghost merged: seq<Entry>,
                    ghost damaged: bool) returns (r: Yield)
    requires merge.Valid() && |merge.due| == |files| && splitter.Valid() && splitter.Repr() !! merge.Repr()
    requires !damaged ==>
               Undamaged(splitter.env, files, InputsOf(merge.iters), merge.due, merged, splitter.first, splitter.nextId)
    modifies merge, merge.iters`blockIdx, merge.iters`cursor
    ensures splitter.Valid() && splitter.Repr() == old(splitter.Repr()) && splitter.Repr() !! merge.Repr()
    ensures unchanged(splitter)
    ensures r.Finished? && !damaged ==> Sorted(merged) && multiset(merged) == Bag(files)
    ensures r.Failed? ==> damaged
    ensures r.Yielded? ==> merge.Valid() && |merge.due| == |files|
    ensures r.Yielded? && !damaged ==>
              Undamaged(splitter.env, files, InputsOf(merge.iters), merge.due, merged + [r.entry], splitter.first,
                        splitter.nextId)
    ensures r.Yielded? ==> merge.Nearer()
  {
    hide Keys.Leq, Sorted, Undamaged, MergeIterator.Valid, Bag, Splitter.Valid, InputsOf;
    r := NextOf(merge, files, splitter.env, merged, damaged, splitter.first, splitter.nextId);
  }

  lemma AllClean(files: Levels.Files, merged: seq<Entry>, due: seq<Log>)
    requires Merged(LogsOf(files), merged, due)
    ensures forall i :: 0 <= i < |due| ==> due[i].clean
  {
    hide AllDue, Progress;
  }

  lemma {:induction false} EndOfMerge(files: Levels.Files, merged: seq<Entry>, due: seq<Log>)
    requires Merged(LogsOf(files), merged, due) && forall i :: 0 <= i < |due| ==> due[i] == Log([], true)
    ensures Sorted(merged) && multiset(merged) == Bag(files)
  {
    hide AllDue, Bag, Merged, Sorted;
    MergedEnd(LogsOf(files), merged, due);
    DueIsBag(files, LogsOf(files));
  }

  lemma SplitterBounds(splitter: Splitter)
    requires splitter.Valid()
    ensures OnlyNew(splitter.before, splitter.disk, splitter.first, splitter.nextId)
    ensures splitter.first <= splitter.nextId <= 0x1_0000_0000
  {
    hide Chop, Stored, OnlyNew;
  }

  /** The manifest and the disk agree, for a database no entry of which exceeds 1 GiB. */
  ghost predicate Sound(env: Env, disk: map<u32, Bytes>, levels: DbLevels) {
    && env.Valid()
    && WellFormed(levels) && UniqueKeys(Total(levels)) && SmallBag(Total(levels))
    && AllBacked(env, disk, levels)
  }

  lemma PlanFiles(env: Env, disk: map<u32, Bytes>, levels: DbLevels, n: nat)
    requires Sound(env, disk, levels) && Pick(levels, n).Plan?
    ensures var plan := Pick(levels, n);
            && Backed(env, disk, plan.source + plan.target) && UniqueKeys(Bag(plan.source + plan.target))
            && forall f :: f in plan.source + plan.target ==> Exact(f)
  {
    hide FileOk, Exact, UniqueKeys, SmallBag, Total, LeastMin, GreatestMax, Bag;
    MergedIsPart(levels, n);
    BagAppend(Pick(levels, n).source, Pick(levels, n).target);
    UniquePart(Total(levels), Bag(Pick(levels, n).source + Pick(levels, n).target));
    assert Backed(env, disk, LevelAt(levels, n)) && Backed(env, disk, LevelAt(levels, n + 1));
    assert LevelOk(LevelAt(levels, n), n) && LevelOk(LevelAt(levels, n + 1), n + 1);
    var plan := Pick(levels, n);
    forall f | f in plan.source + plan.target ensures Exact(f) && FileOk(env, disk, f) {
      if f in plan.source {
        assert f in LevelAt(levels, n);
        ExactMember(LevelAt(levels, n), f);
      } else {
        ExactMember(LevelAt(levels, n + 1), f);
      }
    }
  }

  lemma MergedSmall(levels: DbLevels, n: nat, merged: seq<Entry>)
    requires WellFormed(levels) && SmallBag(Total(levels)) && Pick(levels, n).Plan?
    requires multiset(merged) == Bag(Pick(levels, n).source) + Bag(Pick(levels, n).target)
    ensures forall e :: e in merged ==> Small(e)
  {
    hide Small, Total, Bag, WellFormed, Pick;
    MergedIsPart(levels, n);
    forall e | e in merged ensures Small(e) {
      assert e in multiset(merged);
      assert e in Total(levels);
    }
  }

  /** The output files, in the order of their ids. */
  predicate Numbered(out: Levels.Files, first: nat, next: nat) {
    first + |out| == next && forall i :: 0 <= i < |out| ==> out[i].meta.fileId == first + i
  }

  // --- When handed-out ids meet live files ---

  lemma SortedFile(f: Sst)
    requires Exact(f)
    ensures Sorted(f.entries)
  {
    hide Keys.Less;
  }

  /** A file holds one sequence of entries only. */
  lemma HoldsOne(env: Env, file: Bytes, a: seq<Entry>, b: seq<Entry>)
    requires Holds(env, file, a) && Holds(env, file, b) && Sorted(a) && Sorted(b)
    ensures a == b
  {
    hide Holds, Open, SearchResult, Remaining, Sorted, Partitioned;
    var t := HoldsMeans(env, file, a, []);
    var u := HoldsMeans(env, file, b, []);
  }

  lemma {:induction false} PartCovers(levels: DbLevels, m: nat, p: nat, k: nat)
    requires m < p
    ensures m < k ==> Bag(LevelAt(levels, m)) <= Part(levels, k)
    ensures p < k ==> Bag(LevelAt(levels, m)) + Bag(LevelAt(levels, p)) <= Part(levels, k)
  {
    hide Bag, LevelAt;
    if k > 0 {
      PartCovers(levels, m, p, k - 1);
      assert Part(levels, k) == Part(levels, k - 1) + Bag(LevelAt(levels, k - 1));
    }
  }

  /** Two different levels share no entry. */
  lemma LevelsDisjoint(levels: DbLevels, m: nat, p: nat, e: Entry)
    requires UniqueKeys(Total(levels)) && m != p && e in Bag(LevelAt(levels, m))
    ensures e !in Bag(LevelAt(levels, p))
  {
    hide Bag, LevelAt;
    var k := if |levels| > m + p + 1 then |levels| else m + p + 1;
    TotalUpTo(levels, k);
    if m < p { PartCovers(levels, m, p, k); } else { PartCovers(levels, p, m, k); }
    AtMostOnce(Total(levels), Bag(LevelAt(levels, m)) + Bag(LevelAt(levels, p)), e);
  }

  lemma AtMostOnce(whole: multiset<Entry>, part: multiset<Entry>, e: Entry)
    requires UniqueKeys(whole) && part <= whole
    ensures part[e] <= 1
  {
    assert part[e] <= whole[e];
  }

  lemma WithinLevel(whole: multiset<Entry>, level: multiset<Entry>, gone: multiset<Entry>, kept: multiset<Entry>,
                    e: Entry)
    requires UniqueKeys(whole) && level <= whole && level == gone + kept && e in kept
    ensures e !in gone
  {
    AtMostOnce(whole, level, e);
  }

  /** A live file that is not merged. */
  ghost predicate Bystander(levels: DbLevels, n: nat, m: nat, f: Sst)
    requires Pick(levels, n).Plan?
  {
    && f in LevelAt(levels, m)
    && (m == n ==> f !in Pick(levels, n).source) && (m == n + 1 ==> f !in Pick(levels, n).target)
  }

  /** No file that stays live has one of the ids handed out. */
  ghost predicate SurvivorsClear(levels: DbLevels, n: nat, first: nat, next: nat)
    requires Pick(levels, n).Plan?
  {
    forall m: nat, f :: Bystander(levels, n, m, f) ==> !(first <= f.meta.fileId < next)
  }

  /** It stays in its level and shares nothing with what is merged. */
  lemma BystanderStays(levels: DbLevels, n: nat, m: nat, f: Sst, out: Levels.Files)
    requires WellFormed(levels) && Pick(levels, n).Plan? && Bystander(levels, n, m, f)
    ensures f in LevelAt(Install(levels, n, Pick(levels, n), out), m)
    ensures m == n ==> f in Retain(LevelAt(levels, n), Ids(Pick(levels, n).source))
    ensures m == n + 1 ==> f in Retain(LevelAt(levels, n + 1), Ids(Pick(levels, n).target))
  {
    var plan, files := Pick(levels, n), LevelAt(levels, m);
    PlanWithin(levels, n);
    assert LevelOk(files, m);
    hide Pick, WellFormed, Ordered, AllExact, Ids, SortByMin, Install, Retain, LevelAt, DistinctIds;
    if m == n {
      RetainKeeps(files, plan.source, f);
    } else if m == n + 1 {
      RetainKeeps(files, plan.target, f);
      var all := Retain(files, Ids(plan.target)) + out;
      SamePermutation(SortByMin(all), all, f);
    }
  }

  lemma PlanWithin(levels: DbLevels, n: nat)
    requires Pick(levels, n).Plan?
    ensures forall g :: g in Pick(levels, n).source ==> g in LevelAt(levels, n)
    ensures forall g :: g in Pick(levels, n).target ==> g in LevelAt(levels, n + 1)
  {
    hide LeastMin, GreatestMax, LevelAt;
  }

  lemma RetainKeeps(files: Levels.Files, part: Levels.Files, f: Sst)
    requires DistinctIds(files) && f in files && f !in part && forall g :: g in part ==> g in files
    ensures f in Retain(files, Ids(part))
  {
    IdOfMember(files, part, f);
  }

  lemma BystanderUnmerged(levels: DbLevels, n: nat, m: nat, f: Sst, e: Entry)
    requires WellFormed(levels) && UniqueKeys(Total(levels)) && Pick(levels, n).Plan? && Bystander(levels, n, m, f)
    requires e in f.entries
    ensures e !in Bag(Pick(levels, n).source) + Bag(Pick(levels, n).target)
  {
    hide WellFormed, Total, UniqueKeys, Bag, Install, Retain, Ids, Pick, LevelAt;
    BystanderStays(levels, n, m, f, []);
    PlanIsRemoved(levels, n);
    OneLevel(levels, n);
    OneLevel(levels, n + 1);
    var plan := Pick(levels, n);
    MemberBag(LevelAt(levels, m), f, e);
    var here, below := LevelAt(levels, n), LevelAt(levels, n + 1);
    if m == n {
      MemberBag(Retain(here, Ids(plan.source)), f, e);
      WithinLevel(Total(levels), Bag(here), Bag(plan.source), Bag(Retain(here, Ids(plan.source))), e);
      LevelsDisjoint(levels, n, n + 1, e);
    } else if m == n + 1 {
      MemberBag(Retain(below, Ids(plan.target)), f, e);
      WithinLevel(Total(levels), Bag(below), Bag(plan.target), Bag(Retain(below, Ids(plan.target))), e);
      LevelsDisjoint(levels, n + 1, n, e);
    } else {
      LevelsDisjoint(levels, m, n, e);
      LevelsDisjoint(levels, m, n + 1, e);
    }
  }

  lemma MemberBag(files: Levels.Files, f: Sst, e: Entry)
    requires f in files && e in f.entries
    ensures e in Bag(files)
  {
    InBag(files, e);
  }

  lemma OneLevel(levels: DbLevels, n: nat)
    ensures Bag(LevelAt(levels, n)) <= Total(levels)
  {
    hide Bag, LevelAt;
    TwoLevels(levels, n);
  }

  /** If an output took the id of a live file that was not merged, that file is lost. */
  lemma CollisionLosesFile(env: Env, disk: map<u32, Bytes>, first: nat, next: nat,
                           levels: DbLevels, n: nat, merged: seq<Entry>, out: Levels.Files, m: nat, f: Sst)
    requires WellFormed(levels) && UniqueKeys(Total(levels)) && Merges(levels, n, merged, out)
    requires Numbered(out, first, next) && Backed(env, disk, out) && AllExact(out)
    requires Bystander(levels, n, m, f) && first <= f.meta.fileId < next
    ensures !FileOk(env, disk, f)
  {
    hide Total, UniqueKeys, Bag, Sorted, Holds, Pick, StrictlySorted;
    var g := out[f.meta.fileId - first];
    assert g in out && FileOk(env, disk, g);
    assert LevelOk(LevelAt(levels, m), m);
    ExactMember(LevelAt(levels, m), f);
    if FileOk(env, disk, f) {
      SortedFile(f);
      SortedFile(g);
      HoldsOne(env, disk[f.meta.fileId], f.entries, g.entries);
      var e := f.entries[0];
      BystanderUnmerged(levels, n, m, f, e);
      ConcatBag(out);
      InBag(out, e);
    }
  }

  /** What a level holds after the commit: what stays and what is new. */
  lemma InstalledFile(levels: DbLevels, n: nat, out: Levels.Files, m: nat, g: Sst)
    requires Pick(levels, n).Plan? && g in LevelAt(Install(levels, n, Pick(levels, n), out), m)
    ensures Bystander(levels, n, m, g) || (m == n + 1 && g in out)
  {
    hide Pick, LevelAt, Install, SortByMin;
    var plan := Pick(levels, n);
    if m == n + 1 {
      var all := Retain(LevelAt(levels, m), Ids(plan.target)) + out;
      SamePermutation(SortByMin(all), all, g);
    }
  }

  lemma SurvivorsBacked(env: Env, before: map<u32, Bytes>, disk: map<u32, Bytes>, first: nat, next: nat,
                        levels: DbLevels, n: nat, out: Levels.Files)
    requires Pick(levels, n).Plan? && AllBacked(env, before, levels) && OnlyNew(before, disk, first, next)
    requires SurvivorsClear(levels, n, first, next) && Backed(env, disk, out)
    ensures AllBacked(env, disk, Install(levels, n, Pick(levels, n), out))
  {
    hide Pick, LevelAt, Install, Holds;
    forall m: nat, g | g in LevelAt(Install(levels, n, Pick(levels, n), out), m) ensures FileOk(env, disk, g) {
      InstalledFile(levels, n, out, m, g);
      if Bystander(levels, n, m, g) {
        assert Backed(env, before, LevelAt(levels, m)) && FileOk(env, before, g);
      }
    }
  }

  /** Under ids no surviving file has, the output's ids are new to what is left of the target level. */
  lemma OutputIsFresh(levels: DbLevels, n: nat, out: Levels.Files, first: nat, next: nat)
    requires Pick(levels, n).Plan? && SurvivorsClear(levels, n, first, next) && Numbered(out, first, next)
    ensures FreshIds(KeptBelow(levels, n), out)
  {
    hide Pick, LevelAt;
    forall f, g | f in KeptBelow(levels, n) && g in out ensures f.meta.fileId != g.meta.fileId {
      assert Bystander(levels, n, n + 1, f);
    }
  }

  /** After a compaction that merged its inputs, whoever's ids it handed out, levels and disk agree exactly when none
      was that of a file that stays live. */
  lemma CompactionAgreesIff(env: Env, before: map<u32, Bytes>, disk: map<u32, Bytes>, first: nat, next: nat,
                            levels: DbLevels, n: nat, merged: seq<Entry>, out: Levels.Files)
    requires Sound(env, before, levels) && Merges(levels, n, merged, out)
    requires OnlyNew(before, disk, first, next) && Numbered(out, first, next) && Backed(env, disk, out)
    ensures AllBacked(env, disk, Install(levels, n, Pick(levels, n), out)) <==> SurvivorsClear(levels, n, first, next)
  {
    hide WellFormed, UniqueKeys, SmallBag, Total, Bag, OutputOf, Sorted, Install, FileOk, Pick, OnlyNew, AllExact,
         Bystander;
    if SurvivorsClear(levels, n, first, next) {
      SurvivorsBacked(env, before, disk, first, next, levels, n, out);
    } else {
      var m: nat, f :| Bystander(levels, n, m, f) && first <= f.meta.fileId < next;
      FreshIsOrdered(levels, n, merged, out);
      CollisionLosesFile(env, disk, first, next, levels, n, merged, out, m, f);
      BystanderStays(levels, n, m, f, out);
      assert !Backed(env, disk, LevelAt(Install(levels, n, Pick(levels, n), out), m));
    }
  }

  /** Then the whole state is sound again, with the same entries. */
  lemma CompactionIsSound(env: Env, before: map<u32, Bytes>, disk: map<u32, Bytes>, first: nat, next: nat,
                          levels: DbLevels, n: nat, merged: seq<Entry>, out: Levels.Files)
    requires Sound(env, before, levels) && Merges(levels, n, merged, out)
    requires OnlyNew(before, disk, first, next) && Numbered(out, first, next) && Backed(env, disk, out)
    requires SurvivorsClear(levels, n, first, next)
    ensures CompactionOf(levels, n, merged, out) && Sound(env, disk, Install(levels, n, Pick(levels, n), out))
  {
    hide WellFormed, UniqueKeys, SmallBag, Total, Bag, OutputOf, Sorted, Install, Pick, OnlyNew, SurvivorsClear,
         FreshIds, KeptBelow, Backed;
    OutputIsFresh(levels, n, out, first, next);
    CompactionKeeps(levels, n, merged, out);
    SurvivorsBacked(env, before, disk, first, next, levels, n, out);
  }

  lemma NoLiveIsClear(levels: DbLevels, n: nat, first: nat, next: nat)
    requires Pick(levels, n).Plan? && NoLiveIn(levels, first, next)
    ensures SurvivorsClear(levels, n, first, next)
    ensures NoneIn(Pick(levels, n).source + Pick(levels, n).target, first, next)
  {
    PlanWithin(levels, n);
    hide Pick, LevelAt;
    assert NoneIn(LevelAt(levels, n), first, next) && NoneIn(LevelAt(levels, n + 1), first, next);
    forall m: nat, f | Bystander(levels, n, m, f) ensures !(first <= f.meta.fileId < next) {
      assert NoneIn(LevelAt(levels, m), first, next);
    }
  }

  /** Ids that no input has damage nothing. */
  lemma NoneInIsUndamaged(crc: Crc, files: Levels.Files, first: nat, next: nat, target: nat)
    requires NoneIn(files, first, next)
    ensures !Damaged(crc, files, first, next, target)
  {
    hide PiecesOf, Merged, ReadUpTo;
  }

  /** The files hold these pieces. */
  predicate HoldPieces(out: Levels.Files, pieces: seq<seq<Entry>>) {
    |out| == |pieces| && forall i :: 0 <= i < |out| ==> out[i].entries == pieces[i]
  }

  /** The levels are those before with the merged files installed, cut at the target size and on disk under the ids
      handed out. */
  ghost predicate MergedBy(env: Env, disk: map<u32, Bytes>, levels: DbLevels, n: nat, levels': DbLevels, first: nat,
                           next: nat, target: nat)
    requires Pick(levels, n).Plan?
  {
    exists merged, out ::
      && Merges(levels, n, merged, out) && levels' == Install(levels, n, Pick(levels, n), out)
      && Numbered(out, first, next) && Backed(env, disk, out) && HoldPieces(out, PiecesOf(env.crc, merged, target))
  }

  class Store {
    const env: Env
    var disk: map<u32, Bytes>
    var levels: DbLevels
    var tables: DbLevels
    var nextId: nat

    /** Levels and disk agree, and readers see the manifest's levels. */
    ghost predicate Valid()
      reads this
    {
      Sound(env, disk, levels) && tables == levels && nextId <= 0x1_0000_0000
    }

    constructor (env: Env)
      requires env.Valid()
      ensures Valid() && this.env == env && levels == [] && nextId == 0
    {
      this.env, disk, levels, tables, nextId := env, map[], [], [], 0;
      new;
      assert Total([]) == multiset{};
    }

    method OpenInput(f: Sst) returns (it: SstableIterator)
      requires FileOk(env, disk, f) && Exact(f)
      ensures fresh(it) && it.Rest() == Log(f.entries, true)
      ensures OnTable(env, it.crc, it.table, f.entries) && it.file == it.table.file
    {
      hide Holds, Open, Remaining, Exact;
      SortedFile(f);
      ghost var t := HoldsMeans(env, disk[f.meta.fileId], f.entries, []);
      var file := Open(env.crc, disk[f.meta.fileId]);
      OpenedTable(env, disk[f.meta.fileId], f.entries);
      it := new SstableIterator(env.crc, file.table);
      assert it.table.(file := it.file) == file.table;
    }

    /** Opens an iterator on every file. */
    method OpenInputs(files: Levels.Files) returns (iters: seq<SstableIterator>)
      requires Backed(env, disk, files) && forall f :: f in files ==> Exact(f)
      ensures |iters| == |files| && fresh(set i | i in iters)
      ensures forall i, j :: 0 <= i < j < |iters| ==> iters[i] != iters[j]
      ensures forall i :: 0 <= i < |files| ==> iters[i].Rest() == Log(files[i].entries, true)
      ensures forall i :: 0 <= i < |files| ==>
                && OnTable(env, iters[i].crc, iters[i].table, files[i].entries)
                && iters[i].file == iters[i].table.file
    {
      hide FileOk, Remaining, Exact, SstableIterator.Rest, OnTable;
      iters := [];
      for k := 0 to |files|
        invariant |iters| == k && fresh(set i | i in iters)
        invariant forall i, j :: 0 <= i < j < k ==> iters[i] != iters[j]
        invariant forall i :: 0 <= i < k ==> iters[i].Rest() == Log(files[i].entries, true)
        invariant forall i :: 0 <= i < k ==>
                    && OnTable(env, iters[i].crc, iters[i].table, files[i].entries)
                    && iters[i].file == iters[i].table.file
      {
        var it := OpenInput(files[k]);
        iters := iters + [it];
      }
    }

    /** Merges files into new ones, reading the disk that is being written. Unless the id of an input is handed out
        before the input is read to its end, nothing is lost. */
    method MergeFiles(files: Levels.Files, target: nat)
      returns (ok: bool, merged: seq<Entry>, metas: seq<FileMeta>, written: map<u32, Bytes>, next: nat)
      requires env.Valid() && nextId <= 0x1_0000_0000 && UniqueKeys(Bag(files))
      requires Backed(env, disk, files) && forall f :: f in files ==> Exact(f)
      ensures OnlyNew(disk, written, nextId, next) && nextId <= next <= 0x1_0000_0000
      ensures ok ==> (Sorted(merged) && multiset(merged) == Bag(files)) || Damaged(env.crc, files, nextId, next, target)
      ensures !ok ==> Damaged(env.crc, files, nextId, next, target) || next == 0x1_0000_0000
      ensures ok ==> Stored(env, written, metas, nextId, PiecesOf(env.crc, merged, target))
      ensures ok ==> |metas| == |PiecesOf(env.crc, merged, target)| && next == nextId + |metas|
    {
      hide Backed, Exact, Bag, PiecesOf, Sorted, Stored, MergeIterator.Valid, OnlyNew, SstableIterator.Rest, OnTable,
           Damaged, UniqueKeys;
      NothingNew(disk, nextId);
      merged, metas, written, next := [], [], disk, nextId;
      var iters := OpenInputs(files);
      var filled, merge := NewMerge(iters);
      ok := filled;
      if filled {
        ok, merged, metas, written, next := MergeOpened(merge, files, target);
      }
    }

    /** The inputs open and the heap filled, writes the merged files. */
    method MergeOpened(merge: MergeIterator, files: Levels.Files, target: nat)
      returns (ok: bool, merged: seq<Entry>, metas: seq<FileMeta>, written: map<u32, Bytes>, next: nat)
      requires env.Valid() && nextId <= 0x1_0000_0000 && UniqueKeys(Bag(files))
      requires merge.Valid() && |merge.due| == |files| == |merge.iters|
      requires forall f :: f in files ==> Exact(f)
      requires forall i :: 0 <= i < |files| ==> merge.due[i] == Log(files[i].entries, true)
      requires forall i :: 0 <= i < |files| ==> OnTable(env, merge.iters[i].crc, merge.iters[i].table, files[i].entries)
      requires forall i :: 0 <= i < |files| ==> merge.iters[i].file == merge.iters[i].table.file
      modifies merge, merge.iters
      ensures OnlyNew(disk, written, nextId, next) && nextId <= next <= 0x1_0000_0000
      ensures ok ==> (Sorted(merged) && multiset(merged) == Bag(files)) || Damaged(env.crc, files, nextId, next, target)
      ensures !ok ==> Damaged(env.crc, files, nextId, next, target) || next == 0x1_0000_0000
      ensures ok ==> Stored(env, written, metas, nextId, PiecesOf(env.crc, merged, target))
      ensures ok ==> |metas| == |PiecesOf(env.crc, merged, target)| && next == nextId + |metas|
    {
      hide Exact, Bag, PiecesOf, Sorted, AllSorted, AllDue, Stored, Splitter.Valid, MergeIterator.Valid,
           OnlyNew, OnTable, Damaged, UniqueKeys, Intact, InputsOf, LogsOf;
      metas := [];
      InputsDue(files, merge.due);
      ghost var readers := merge.Repr();
      var splitter := new Splitter(env, target, nextId, disk);
      assert splitter.Repr() !! readers;
      StartIntact(env, files, merge, nextId);
      ok, merged := MergeInto(merge, files, splitter);
      if ok {
        splitter.Finish();
        metas := splitter.metas;
        StoredBound(env, splitter.disk, metas, nextId, PiecesOf(env.crc, merged, target));
      }
      written, next := splitter.disk, splitter.nextId;
    }

    /** Merges the plan's files, writes the output and commits it. It fails only if an input was damaged or the ids have
        run out, and then leaves every level as it was. Unless an
        input's id was handed out with blocks of it unread, success is a correct change of levels, alike in the
        manifest and for readers, after which levels and disk agree exactly when no file that stays live had one of
        the ids handed out. */
    method ExecuteCompaction(n: nat, plan: Plan, target: nat) returns (ok: bool)
      requires Valid() && plan == Pick(levels, n) && plan.Plan? && target <= TARGET_FILE_SIZE
      modifies this
      ensures old(nextId) <= nextId <= 0x1_0000_0000 && tables == levels
      ensures OnlyNew(old(disk), disk, old(nextId), nextId)
      ensures Committed(env, disk, levels, n, old(levels), old(nextId), nextId, target, ok)
    {
      hide Sound, Backed, Exact, Bag, Pick, PiecesOf, Sorted, Stored, OnlyNew, AsFiles, Damaged, UniqueKeys, Install,
           Committed, NoLiveIn, IdsBelow, Compacted, MergedBy, AllBacked, SurvivorsClear;
      PlanFiles(env, disk, levels, n);
      SoundEnv(env, disk, levels);
      var merged, metas, written, next;
      ok, merged, metas, written, next := MergeFiles(plan.source + plan.target, target);
      Outcome(env, disk, written, metas, nextId, next, levels, n, merged, target, ok);
      if ok {
        levels := Install(levels, n, plan, AsFiles(metas, PiecesOf(env.crc, merged, target)));
        tables := Install(tables, n, plan, AsFiles(metas, PiecesOf(env.crc, merged, target)));
      }
      disk, nextId := written, next;
    }
  }

  /** How a compaction leaves levels and disk. */
  ghost predicate Committed(env: Env, disk: map<u32, Bytes>, levels': DbLevels, n: nat, levels: DbLevels, first: nat,
                            next: nat, target: nat, ok: bool)
    requires Pick(levels, n).Plan?
  {
    var plan := Pick(levels, n);
    && (!ok ==> levels' == levels && (NoLiveIn(levels, first, next) ==> Sound(env, disk, levels')))
    && (!ok ==> Damaged(env.crc, plan.source + plan.target, first, next, target) || next == 0x1_0000_0000)
    && (ok && !Damaged(env.crc, plan.source + plan.target, first, next, target) ==>
          && MergedBy(env, disk, levels, n, levels', first, next, target)
          && (AllBacked(env, disk, levels') <==> SurvivorsClear(levels, n, first, next))
          && (SurvivorsClear(levels, n, first, next) ==> Sound(env, disk, levels') && Compacted(levels, n, levels')))
    && (ok && NoLiveIn(levels, first, next) ==> Sound(env, disk, levels') && Compacted(levels, n, levels'))
    && (IdsBelow(levels, first) ==> NoLiveIn(levels, first, next) && IdsBelow(levels', next))
  }

  /** Before anything is written every input is intact. */
  lemma StartIntact(env: Env, files: Levels.Files, merge: MergeIterator, first: nat)
    requires |merge.due| == |files| == |merge.iters|
    requires forall i :: 0 <= i < |files| ==>
               && OnTable(env, merge.iters[i].crc, merge.iters[i].table, files[i].entries)
               && merge.iters[i].file == merge.iters[i].table.file
    ensures Intact(env, files, InputsOf(merge.iters), merge.due, first, first)
  {
    hide OnTable;
  }

  lemma OpenedTable(env: Env, file: Bytes, es: seq<Entry>)
    requires Holds(env, file, es)
    ensures Open(env.crc, file).Opened? && exists bloom :: TableReopened(env.crc, Open(env.crc, file).table, es, bloom)
  {
    hide Fits, Open, Image, Fences, BlocksOf;
    var bloom :| TableWith(env, file, es, bloom) && Fits(env.crc, BlocksOf(es), bloom);
    BlocksKeepAll(es);
    OpenImage(env.crc, BlocksOf(es), bloom);
    assert TableReopened(env.crc, Open(env.crc, file).table, es, bloom);
  }

  lemma BelowStays(levels: DbLevels, first: nat, next: nat)
    requires IdsBelow(levels, first) && first <= next <= 0x1_0000_0000
    ensures NoLiveIn(levels, first, next) && IdsBelow(levels, next)
  {
    hide LevelAt;
    forall n: nat ensures NoneIn(LevelAt(levels, n), first, next) && NoneIn(LevelAt(levels, n), next, 0x1_0000_0000) {
      assert NoneIn(LevelAt(levels, n), first, 0x1_0000_0000);
    }
  }

  lemma BelowAfter(levels: DbLevels, n: nat, out: Levels.Files, first: nat, next: nat)
    requires IdsBelow(levels, first) && first <= next <= 0x1_0000_0000
    requires Pick(levels, n).Plan? && Numbered(out, first, next)
    ensures IdsBelow(Install(levels, n, Pick(levels, n), out), next)
  {
    hide Install, Pick, LevelAt, SortByMin;
    BelowStays(levels, first, next);
    var r := Install(levels, n, Pick(levels, n), out);
    forall m: nat ensures NoneIn(LevelAt(r, m), next, 0x1_0000_0000) {
      assert NoneIn(LevelAt(levels, m), next, 0x1_0000_0000);
      if m == n + 1 {
        var all := Retain(LevelAt(levels, m), Ids(Pick(levels, n).target)) + out;
        forall f | f in SortByMin(all) ensures !(next <= f.meta.fileId < 0x1_0000_0000) {
          SamePermutation(SortByMin(all), all, f);
        }
      }
    }
  }

  lemma NothingNew(disk: map<u32, Bytes>, nextId: nat)
    ensures OnlyNew(disk, disk, nextId, nextId)
  {}

  lemma InputsDue(files: Levels.Files, due: seq<Log>)
    requires |due| == |files| && forall i :: 0 <= i < |files| ==> due[i] == Log(files[i].entries, true)
    requires forall f :: f in files ==> Exact(f)
    ensures AllSorted(due) && AllDue(due) == Bag(files) && due == LogsOf(files)
  {
    hide Exact, Sorted, Bag, AllDue;
    DueIsBag(files, due);
    forall i | 0 <= i < |due| ensures Sorted(due[i].entries) {
      SortedFile(files[i]);
    }
  }

  lemma SoundEnv(env: Env, disk: map<u32, Bytes>, levels: DbLevels)
    requires Sound(env, disk, levels)
    ensures env.Valid()
  {
    hide WellFormed, UniqueKeys, SmallBag, AllBacked;
  }

  lemma FailureIsSound(env: Env, before: map<u32, Bytes>, disk: map<u32, Bytes>, first: nat, next: nat,
                       levels: DbLevels)
    requires Sound(env, before, levels) && OnlyNew(before, disk, first, next)
    ensures NoLiveIn(levels, first, next) ==> Sound(env, disk, levels)
  {
    hide WellFormed, UniqueKeys, SmallBag, AllBacked, OnlyNew, NoLiveIn;
    if NoLiveIn(levels, first, next) {
      AllBackedStays(env, before, disk, first, next, levels);
    }
  }

  /** The splitter's files are a correct result of the merge. */
  lemma OutputIsCorrect(env: Env, before: map<u32, Bytes>, disk: map<u32, Bytes>, metas: seq<FileMeta>, first: nat,
                        levels: DbLevels, n: nat, merged: seq<Entry>, target: nat)
    requires Sound(env, before, levels) && Pick(levels, n).Plan? && target <= TARGET_FILE_SIZE
    requires Sorted(merged) && multiset(merged) == Bag(Pick(levels, n).source) + Bag(Pick(levels, n).target)
    requires Stored(env, disk, metas, first, PiecesOf(env.crc, merged, target))
    requires |metas| == |PiecesOf(env.crc, merged, target)|
    ensures var out := AsFiles(metas, PiecesOf(env.crc, merged, target));
            Merges(levels, n, merged, out) && Backed(env, disk, out) && Numbered(out, first, first + |metas|)
  {
    hide UniqueKeys, Bag, Pick, PiecesOf, Sorted, Stored, OutputOf, Small, Backed;
    MergedSmall(levels, n, merged);
    StoredIsBacked(env, disk, metas, first, merged, target);
  }

  /** What a compaction leads to, as its merge went. */
  lemma {:induction false} Outcome(env: Env, before: map<u32, Bytes>, disk: map<u32, Bytes>, metas: seq<FileMeta>,
                                   first: nat, next: nat, levels: DbLevels, n: nat, merged: seq<Entry>, target: nat,
                                   ok: bool)
    requires Sound(env, before, levels) && Pick(levels, n).Plan? && target <= TARGET_FILE_SIZE
    requires OnlyNew(before, disk, first, next) && first <= next <= 0x1_0000_0000
    requires ok ==> (Sorted(merged) && multiset(merged) == Bag(Pick(levels, n).source + Pick(levels, n).target))
                    || Damaged(env.crc, Pick(levels, n).source + Pick(levels, n).target, first, next, target)
    requires !ok ==> Damaged(env.crc, Pick(levels, n).source + Pick(levels, n).target, first, next, target)
                     || next == 0x1_0000_0000
    requires ok ==> Stored(env, disk, metas, first, PiecesOf(env.crc, merged, target))
    requires ok ==> |metas| == |PiecesOf(env.crc, merged, target)| && next == first + |metas|
    ensures ok ==> |metas| == |PiecesOf(env.crc, merged, target)|
    ensures var out := if ok then AsFiles(metas, PiecesOf(env.crc, merged, target)) else [];
            Committed(env, disk, if ok then Install(levels, n, Pick(levels, n), out) else levels, n, levels, first,
                      next, target, ok)
  {
    hide Sound, Bag, Pick, PiecesOf, Sorted, Stored, OnlyNew, Install, AllBacked, NoneIn, Damaged, SurvivorsClear,
         NoLiveIn, Compacted, MergedBy, IdsBelow, AsFiles;
    FailureIsSound(env, before, disk, first, next, levels);
    if IdsBelow(levels, first) { BelowStays(levels, first, next); }
    if ok {
      if NoLiveIn(levels, first, next) {
        NoLiveIsClear(levels, n, first, next);
        NoneInIsUndamaged(env.crc, Pick(levels, n).source + Pick(levels, n).target, first, next, target);
      }
      CommitSucceeds(env, before, disk, metas, first, next, levels, n, merged, target);
      if IdsBelow(levels, first) {
        BelowAfter(levels, n, AsFiles(metas, PiecesOf(env.crc, merged, target)), first, next);
      }
    }
  }

  lemma CommitSucceeds(env: Env, before: map<u32, Bytes>, disk: map<u32, Bytes>, metas: seq<FileMeta>, first: nat,
                       next: nat, levels: DbLevels, n: nat, merged: seq<Entry>, target: nat)
    requires Sound(env, before, levels) && Pick(levels, n).Plan? && target <= TARGET_FILE_SIZE
    requires (Sorted(merged) && multiset(merged) == Bag(Pick(levels, n).source + Pick(levels, n).target))
             || Damaged(env.crc, Pick(levels, n).source + Pick(levels, n).target, first, next, target)
    requires Stored(env, disk, metas, first, PiecesOf(env.crc, merged, target))
    requires |metas| == |PiecesOf(env.crc, merged, target)| && next == first + |metas| <= 0x1_0000_0000
    requires OnlyNew(before, disk, first, next)
    ensures var plan, out := Pick(levels, n), AsFiles(metas, PiecesOf(env.crc, merged, target));
            var levels' := Install(levels, n, plan, out);
            && Numbered(out, first, next)
            && (NoLiveIn(levels, first, next) && Sorted(merged)
                && multiset(merged) == Bag(plan.source + plan.target) ==>
                  Sound(env, disk, levels') && Compacted(levels, n, levels'))
            && (!Damaged(env.crc, plan.source + plan.target, first, next, target) ==>
                  && MergedBy(env, disk, levels, n, levels', first, next, target)
                  && (AllBacked(env, disk, levels') <==> SurvivorsClear(levels, n, first, next))
                  && (SurvivorsClear(levels, n, first, next) ==>
                        Sound(env, disk, levels') && Compacted(levels, n, levels')))
  {
    hide Sound, Bag, Pick, PiecesOf, Sorted, Stored, OnlyNew, Install, Merges, Backed, AllBacked, NoneIn,
         FreshIds, Damaged, SurvivorsClear, NoLiveIn, CompactionOf;
    var plan, out := Pick(levels, n), AsFiles(metas, PiecesOf(env.crc, merged, target));
    StoredNumbers(env, disk, metas, first, PiecesOf(env.crc, merged, target));
    if Sorted(merged) && multiset(merged) == Bag(plan.source + plan.target) {
      BagAppend(plan.source, plan.target);
      OutputIsCorrect(env, before, disk, metas, first, levels, n, merged, target);
      assert MergedBy(env, disk, levels, n, Install(levels, n, plan, out), first, next, target);
      CompactionAgreesIff(env, before, disk, first, next, levels, n, merged, out);
      if NoLiveIn(levels, first, next) { NoLiveIsClear(levels, n, first, next); }
      if SurvivorsClear(levels, n, first, next) {
        CompactionIsSound(env, before, disk, first, next, levels, n, merged, out);
        CompactedBy(levels, n, merged, out);
      }
    }
  }

  lemma CompactedBy(levels: DbLevels, n: nat, merged: seq<Entry>, out: Levels.Files)
    requires CompactionOf(levels, n, merged, out)
    ensures Compacted(levels, n, Install(levels, n, Pick(levels, n), out))
  {
    hide Pick, Install, FreshIds, OutputOf, Sorted, Bag;
  }

  lemma StoredNumbers(env: Env, disk: map<u32, Bytes>, metas: seq<FileMeta>, first: nat, pieces: seq<seq<Entry>>)
    requires Stored(env, disk, metas, first, pieces) && |metas| == |pieces|
    ensures Numbered(AsFiles(metas, pieces), first, first + |metas|)
  {
    hide TableOf;
  }
}
