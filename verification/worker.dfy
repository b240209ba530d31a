/** The trigger loop of the compaction thread: when it acts, and why it comes to rest. */
module CompactionWorker {
  import opened Codec
  import opened Entries
  import opened Manifests
  import opened Levels
  import opened Compaction
  import opened Compactor
  import opened Tables

  const L0_SIZE_TRIGGER: nat := 128 * 1024 * 1024
  const MAX_LEVELS: nat := 4

  function SizeOf(files: Levels.Files): nat {
    if files == [] then 0 else SizeOf(files[..|files| - 1]) + files[|files| - 1].meta.fileSize
  }

  function Pow10(n: nat): nat { if n == 0 then 1 else 10 * Pow10(n - 1) }

  /** A level has reached its threshold: 128 MiB for L0, ten times more for each deeper level. */
  predicate Over(levels: DbLevels, n: nat) {
    n < |levels| && SizeOf(levels[n]) >= L0_SIZE_TRIGGER * Pow10(n)
  }

  predicate Quiet(levels: DbLevels) {
    forall n :: 0 <= n < MAX_LEVELS ==> !Over(levels, n)
  }

  /** How much these files take up on disk. */
  function SizeOnDisk(disk: map<u32, Bytes>, files: Levels.Files): nat {
    if files == [] then 0
    else
      var f := files[|files| - 1].meta.fileId;
      SizeOnDisk(disk, files[..|files| - 1]) + if f in disk then |disk[f]| else 0
  }

  /** L0 takes up less than 128 MiB on disk, levels 1 to 3 less than ten times more each. */
  predicate SmallLevels(disk: map<u32, Bytes>, levels: DbLevels) {
    && SizeOnDisk(disk, LevelAt(levels, 0)) < 134_217_728
    && SizeOnDisk(disk, LevelAt(levels, 1)) < 1_342_177_280
    && SizeOnDisk(disk, LevelAt(levels, 2)) < 13_421_772_800
    && SizeOnDisk(disk, LevelAt(levels, 3)) < 134_217_728_000
  }

  lemma {:induction false} RecordedIsOnDisk(env: Env, disk: map<u32, Bytes>, files: Levels.Files)
    requires Backed(env, disk, files)
    ensures SizeOnDisk(disk, files) == SizeOf(files)
  {
    hide Holds;
    if files != [] {
      var n := |files| - 1;
      assert files[n] in files && FileOk(env, disk, files[n]);
      forall f | f in files[..n] ensures FileOk(env, disk, f) { assert f in files; }
      RecordedIsOnDisk(env, disk, files[..n]);
    }
  }

  /** With levels and disk in agreement, the levels are small on disk exactly when none is over its threshold. */
  lemma SmallIffQuiet(env: Env, disk: map<u32, Bytes>, levels: DbLevels)
    requires AllBacked(env, disk, levels)
    ensures SmallLevels(disk, levels) <==> Quiet(levels)
  {
    hide Backed, SizeOf, SizeOnDisk;
    forall n: nat ensures SizeOnDisk(disk, LevelAt(levels, n)) == SizeOf(LevelAt(levels, n)) {
      assert Backed(env, disk, LevelAt(levels, n));
      RecordedIsOnDisk(env, disk, LevelAt(levels, n));
    }
    Nothing();
    Thresholds();
    hide Pow10;
    forall n | 0 <= n < MAX_LEVELS
      ensures Over(levels, n) <==> SizeOf(LevelAt(levels, n)) >= L0_SIZE_TRIGGER * Pow10(n)
    {
      Pow10Positive(n);
    }
  }

  lemma Nothing()
    ensures SizeOf([]) == 0
  {}

  lemma Thresholds()
    ensures L0_SIZE_TRIGGER * Pow10(0) == 134_217_728 && L0_SIZE_TRIGGER * Pow10(1) == 1_342_177_280
    ensures L0_SIZE_TRIGGER * Pow10(2) == 13_421_772_800 && L0_SIZE_TRIGGER * Pow10(3) == 134_217_728_000
  {
    assert Pow10(1) == 10 && Pow10(2) == 10 * Pow10(1) && Pow10(3) == 10 * Pow10(2);
  }

  method LevelSize(files: Levels.Files) returns (size: nat)
    ensures size == SizeOf(files)
  {
    size := 0;
    for i := 0 to |files|
      invariant size == SizeOf(files[..i])
    {
      size := size + files[i].meta.fileSize;
      assert files[..i + 1][..i] == files[..i];
    }
    assert files[..|files|] == files;
  }

  /** The first level over its threshold, L0 first; the deepest level is never compacted. */
  method Triggered(levels: DbLevels) returns (n: Option<nat>)
    ensures n.None? ==> Quiet(levels)
    ensures n.Some? ==> n.value < MAX_LEVELS && Over(levels, n.value)
    ensures n.Some? ==> forall m :: 0 <= m < n.value ==> !Over(levels, m)
  {
    var threshold, level := L0_SIZE_TRIGGER, 0;
    while level < MAX_LEVELS && level < |levels|
      invariant 0 <= level <= MAX_LEVELS && threshold == L0_SIZE_TRIGGER * Pow10(level)
      invariant forall m :: 0 <= m < level ==> !Over(levels, m)
    {
      var size := LevelSize(levels[level]);
      if size >= threshold { return Some(level); }
      threshold, level := 10 * threshold, level + 1;
    }
    n := None;
  }

  // --- Why it ends ---

  /** Each entry counts the levels still below it. */
  function Weight(levels: DbLevels): nat {
    5 * |Bag(LevelAt(levels, 0))| + 4 * |Bag(LevelAt(levels, 1))| + 3 * |Bag(LevelAt(levels, 2))|
    + 2 * |Bag(LevelAt(levels, 3))| + |Bag(LevelAt(levels, 4))|
  }

  lemma OverHasFiles(levels: DbLevels, n: nat)
    requires Over(levels, n)
    ensures Pick(levels, n).Plan?
  {
    Pow10Positive(n);
    hide Pow10, LeastMin, GreatestMax, Overlapping;
  }

  lemma {:induction false} Pow10Positive(n: nat)
    ensures Pow10(n) >= 1
  {
    if n > 0 { Pow10Positive(n - 1); }
  }

  lemma SourceHasEntries(levels: DbLevels, n: nat)
    requires WellFormed(levels) && Pick(levels, n).Plan?
    ensures |Bag(Pick(levels, n).source)| > 0
  {
    hide LeastMin, GreatestMax, Overlapping, StrictlySorted;
    var files, source := LevelAt(levels, n), Pick(levels, n).source;
    assert LevelOk(files, n) && Exact(files[0]);
    var e := files[0].entries[0];
    assert files[0] in source by { assert source[0] == files[0]; }
    assert e in files[0].entries;
    InBag(source, e);
    assert e in Bag(source);
  }

  /** Every compaction moves at least one entry down a level and none up. */
  lemma CompactionDescends(levels: DbLevels, n: nat, levels': DbLevels)
    requires WellFormed(levels) && Compacted(levels, n, levels') && n < MAX_LEVELS
    ensures Weight(levels') < Weight(levels)
  {
    hide WellFormed, Bag, Pick, Sorted, FreshIds, OutputOf, LevelAt;
    var merged, out :| CompactionOf(levels, n, merged, out) && levels' == Install(levels, n, Pick(levels, n), out);
    CompactionConserves(levels, n, merged, out);
    SourceHasEntries(levels, n);
    hide Install;
    InstallElsewhere(levels, n, out);
  }

  lemma InstallElsewhere(levels: DbLevels, n: nat, out: Levels.Files)
    requires Pick(levels, n).Plan?
    ensures forall m :: m != n && m != n + 1 ==>
              LevelAt(Install(levels, n, Pick(levels, n), out), m) == LevelAt(levels, m)
  {}

  lemma CompactedKeeps(levels: DbLevels, n: nat, levels': DbLevels)
    requires WellFormed(levels) && UniqueKeys(Total(levels)) && Compacted(levels, n, levels')
    ensures WellFormed(levels') && Total(levels') == Total(levels)
  {
    hide WellFormed, UniqueKeys, Total, Bag, Pick, Sorted, FreshIds, OutputOf, Install;
    var merged, out :| CompactionOf(levels, n, merged, out) && levels' == Install(levels, n, Pick(levels, n), out);
    CompactionKeeps(levels, n, merged, out);
  }

  /** Whatever the order of compactions, there are at most as many as the initial weight; every level stays
      well formed and no entry is ever lost. */
  lemma {:induction false} CompactionsAreBounded(run: seq<DbLevels>, at: seq<nat>)
    requires |run| == |at| + 1 && WellFormed(run[0]) && UniqueKeys(Total(run[0]))
    requires forall i :: 0 <= i < |at| ==> at[i] < MAX_LEVELS && Compacted(run[i], at[i], run[i + 1])
    ensures WellFormed(run[|at|]) && Total(run[|at|]) == Total(run[0])
    ensures |at| + Weight(run[|at|]) <= Weight(run[0])
  {
    hide WellFormed, UniqueKeys, Total, Weight, Compacted;
    if at != [] {
      var n := |at| - 1;
      CompactionsAreBounded(run[..n + 1], at[..n]);
      assert Compacted(run[n], at[n], run[n + 1]);
      CompactedKeeps(run[n], at[n], run[n + 1]);
      CompactionDescends(run[n], at[n], run[n + 1]);
    }
  }

  /** Whether a live file has one of these ids. */
  method AnyLive(levels: DbLevels, first: nat, next: nat) returns (live: bool)
    ensures live <==> !NoLiveIn(levels, first, next)
  {
    for n := 0 to |levels|
      invariant forall m: nat :: m < n ==> NoneIn(LevelAt(levels, m), first, next)
    {
      for i := 0 to |levels[n]|
        invariant NoneIn(levels[n][..i], first, next)
      {
        if first <= levels[n][i].meta.fileId < next {
          assert levels[n][i] in LevelAt(levels, n);
          assert !NoneIn(LevelAt(levels, n), first, next);
          return true;
        }
        assert levels[n][..i + 1] == levels[n][..i] + [levels[n][i]];
      }
      assert levels[n][..|levels[n]|] == LevelAt(levels, n);
    }
    forall m: nat ensures NoneIn(LevelAt(levels, m), first, next) {}
    live := false;
  }

  /** How the loop comes to rest. */
  datatype Rest = Quieted | GaveUp | HandedOutLive

  /** Compacts while any level is over its threshold: until every level is under its own, unless the ids run out, or an
      id that is handed out is a live file's. */
  method Run(store: Store) returns (r: Rest, ghost was: DbLevels, ghost from: nat)
    requires store.Valid()
    modifies store
    ensures r != HandedOutLive ==> store.Valid() && Total(store.levels) == Total(old(store.levels))
    ensures r == Quieted ==> Quiet(store.levels) && SmallLevels(store.disk, store.levels)
    ensures r == GaveUp ==> store.nextId == 0x1_0000_0000
    ensures r == HandedOutLive ==>
              && WellFormed(was) && Total(was) == Total(old(store.levels))
              && from <= store.nextId && !NoLiveIn(was, from, store.nextId)
    ensures IdsBelow(old(store.levels), old(store.nextId)) ==>
              r != HandedOutLive && IdsBelow(store.levels, store.nextId)
  {
    hide Total, Weight, Over, Pick, Compacted, UniqueKeys, WellFormed, SmallBag, AllBacked, NoLiveIn, IdsBelow,
         Damaged, MergedBy, SurvivorsClear;
    while true
      invariant store.Valid() && Total(store.levels) == Total(old(store.levels))
      invariant IdsBelow(old(store.levels), old(store.nextId)) ==> IdsBelow(store.levels, store.nextId)
      decreases Weight(store.levels)
    {
      was, from := store.levels, store.nextId;
      var n := Triggered(store.levels);
      if n.None? {
        SmallIffQuiet(store.env, store.disk, store.levels);
        return Quieted, was, from;
      }
      OverHasFiles(store.levels, n.value);
      var levels, first := store.levels, store.nextId;
      var ok := store.ExecuteCompaction(n.value, Pick(store.levels, n.value), TARGET_FILE_SIZE);
      var live := AnyLive(levels, first, store.nextId);
      if live { return HandedOutLive, was, from; }
      if !ok {
        NoLiveIsClear(levels, n.value, first, store.nextId);
        NoneInIsUndamaged(store.env.crc, Pick(levels, n.value).source + Pick(levels, n.value).target, first,
                          store.nextId, TARGET_FILE_SIZE);
        return GaveUp, was, from;
      }
      CompactedKeeps(was, n.value, store.levels);
      CompactionDescends(was, n.value, store.levels);
    }
  }
}
