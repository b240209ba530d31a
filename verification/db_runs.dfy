/** Whole runs of the database: writes, rotations, flushes and compactions in any order. */
module DatabaseRuns {
  import opened Codec
  import opened Entries
  import M = Memtables
  import opened Levels
  import opened Compaction
  import opened Compactor
  import opened Flushing
  import opened ReadPath
  import opened LayerOrder
  import Keys

  /** A rotation's commit may move the id counter back to where its snapshot had it. Fails stands for a flush or
      compaction that takes ids, leaves something in the files of a span of them, and commits nothing. */
  datatype Event =
    | Put(e: Entry)
    | Rotate(back: nat)
    | Flush(out: Levels.Files)
    | Compact(n: nat, merged: seq<Entry>, out: Levels.Files)
    | Fails(taken: nat, span: nat, left: map<nat, seq<Entry>>)

  /** The version readers see, the next table id, what each readable table on disk holds, and (history) everything
      written, oldest first. */
  datatype State = State(db: Db, nextId: nat, disk: map<nat, seq<Entry>>, log: seq<Entry>)

  function Init(first: nat): State { State(Db([], [], []), first, map[], []) }

  /** The files are the oldest frozen memtables written out. */
  predicate FlushesOldest(db: Db, out: Levels.Files) {
    && |out| <= |db.frozen| && (forall i :: 0 <= i < |out| ==> out[i].entries == db.frozen[i]) && AllExact(out)
  }

  function Installed(db: Db, n: nat, out: Levels.Files): Db
    requires Pick(db.levels, n).Plan?
  {
    db.(levels := Install(db.levels, n, Pick(db.levels, n), out))
  }

  /** The disk with these files written under the ids from first on, over whatever was there. */
  function Overwritten(disk: map<nat, seq<Entry>>, first: nat, out: Levels.Files): map<nat, seq<Entry>> {
    if out == [] then disk
    else
      var n := |out| - 1;
      Overwritten(disk, first, out[..n])[first + n := out[n].entries]
  }

  lemma {:induction false} OverwrittenAt(disk: map<nat, seq<Entry>>, first: nat, out: Levels.Files, id: nat)
    ensures var r := Overwritten(disk, first, out);
            if first <= id < first + |out| then id in r && r[id] == out[id - first].entries
            else (id in r <==> id in disk) && (id in r ==> r[id] == disk[id])
  {
    if out != [] {
      OverwrittenAt(disk, first, out[..|out| - 1], id);
    }
  }

  /** Every output file under an input's id begins no earlier than that input's last block. */
  predicate SafeOutput(files: Levels.Files, out: Levels.Files) {
    forall f, k :: f in files && 0 <= k < |out| && out[k].meta.fileId == f.meta.fileId && out[k].entries != [] ==>
      ReadUpTo(f.entries, out[k].entries[0].key)
  }

  /** A flush takes one id, whatever it uses. */
  ghost predicate FlushStep(s: State, out: Levels.Files, s': State) {
    && FlushesOldest(s.db, out) && Numbered(out, s.nextId, s.nextId + |out|)
    && s' == s.(db := Flushed(s.db, |out|, out), nextId := s.nextId + 1, disk := Overwritten(s.disk, s.nextId, out))
  }

  /** A compaction takes an id for every file, and succeeds only if it can read its inputs to their ends. */
  ghost predicate CompactStep(s: State, n: nat, merged: seq<Entry>, out: Levels.Files, s': State) {
    && Pick(s.db.levels, n).Plan? && Merges(s.db.levels, n, merged, out)
    && Numbered(out, s.nextId, s.nextId + |out|)
    && SafeOutput(Pick(s.db.levels, n).source + Pick(s.db.levels, n).target, out)
    && s' == s.(db := Installed(s.db, n, out), nextId := s.nextId + |out|, disk := Overwritten(s.disk, s.nextId, out))
  }

  ghost predicate FailStep(s: State, taken: nat, span: nat, left: map<nat, seq<Entry>>, s': State) {
    && s' == s.(nextId := s.nextId + taken, disk := s'.disk)
    && (forall id: nat :: s.nextId <= id < s.nextId + span ==>
          (id in s'.disk <==> id in left) && (id in s'.disk ==> s'.disk[id] == left[id]))
    && forall id: nat :: !(s.nextId <= id < s.nextId + span) ==>
         (id in s'.disk <==> id in s.disk) && (id in s'.disk ==> s'.disk[id] == s.disk[id])
  }

  /** Writes come with growing LSNs; any level may be compacted. */
  ghost predicate Step(s: State, ev: Event, s': State) {
    match ev
    case Put(e) =>
      && (forall x :: x in s.log ==> x.key.lsn < e.key.lsn) && StrictlySorted(s.db.active)
      && s' == s.(db := s.db.(active := M.Insert(s.db.active, e)), log := s.log + [e])
    case Rotate(back) =>
      && back <= s.nextId
      && s' == s.(db := s.db.(active := [], frozen := s.db.frozen + [s.db.active]), nextId := s.nextId - back)
    case Flush(out) => FlushStep(s, out, s')
    case Compact(n, merged, out) => CompactStep(s, n, merged, out, s')
    case Fails(taken, span, left) => FailStep(s, taken, span, left, s')
  }

  ghost predicate IsRun(run: seq<State>, events: seq<Event>, first: nat) {
    && |run| == |events| + 1 && run[0] == Init(first)
    && forall i :: 0 <= i < |events| ==> Step(run[i], events[i], run[i + 1])
  }

  /** The step gives no file that is live after it other content. */
  ghost predicate Clean(s: State, ev: Event) {
    match ev
    case Put(_) => true
    case Rotate(_) => true
    case Flush(out) => NoLiveIn(s.db.levels, s.nextId, s.nextId + |out|)
    case Compact(n, _, out) => Pick(s.db.levels, n).Plan? && SurvivorsClear(s.db.levels, n, s.nextId, s.nextId + |out|)
    case Fails(_, span, left) =>
      forall m: nat, f :: f in LevelAt(s.db.levels, m) && s.nextId <= f.meta.fileId < s.nextId + span ==>
        f.meta.fileId in left && left[f.meta.fileId] == f.entries
  }

  // --- What every run keeps ---

  function FrozenBag(frozen: seq<seq<Entry>>): multiset<Entry> {
    if frozen == [] then multiset{} else multiset(frozen[0]) + FrozenBag(frozen[1..])
  }

  /** Everything the database holds, with multiplicity. */
  function Held(db: Db): multiset<Entry> {
    multiset(db.active) + FrozenBag(db.frozen) + Total(db.levels)
  }

  predicate OnDisk(disk: map<nat, seq<Entry>>, f: Sst) {
    f.meta.fileId in disk && disk[f.meta.fileId] == f.entries
  }

  /** Every live file is on disk as the levels have it. */
  ghost predicate Agree(disk: map<nat, seq<Entry>>, levels: DbLevels) {
    forall m: nat, f :: f in LevelAt(levels, m) ==> OnDisk(disk, f)
  }

  /** Sorted memtables, well-formed levels, and every write held exactly once. */
  ghost predicate Kept(s: State) {
    && StrictlySorted(s.db.active) && (forall i :: 0 <= i < |s.db.frozen| ==> StrictlySorted(s.db.frozen[i]))
    && WellFormed(s.db.levels) && M.LsnsIncrease(s.log) && Held(s.db) == multiset(s.log)
  }

  /** And the disk has it. */
  ghost predicate Inv(s: State) {
    Kept(s) && Agree(s.disk, s.db.levels)
  }

  lemma {:induction false} InsertBag(store: seq<Entry>, e: Entry)
    requires StrictlySorted(store) && forall x :: x in store ==> x.key != e.key
    ensures multiset(M.Insert(store, e)) == multiset(store) + multiset{e}
  {
    hide Keys.Less;
    if store != [] {
      assert store == [store[0]] + store[1..];
      InsertBag(store[1..], e);
    }
  }

  lemma {:induction false} FrozenSnoc(frozen: seq<seq<Entry>>, m: seq<Entry>)
    ensures FrozenBag(frozen + [m]) == FrozenBag(frozen) + multiset(m)
  {
    if frozen != [] {
      FrozenSnoc(frozen[1..], m);
      assert (frozen + [m])[1..] == frozen[1..] + [m];
    }
  }

  lemma {:induction false} FrozenSplit(frozen: seq<seq<Entry>>, out: Levels.Files)
    requires |out| <= |frozen| && forall i :: 0 <= i < |out| ==> out[i].entries == frozen[i]
    ensures FrozenBag(frozen) == Bag(out) + FrozenBag(frozen[|out|..])
  {
    if out == [] {
      assert frozen[0..] == frozen;
    } else {
      hide Bag;
      FrozenSplit(frozen[1..], out[1..]);
      BagCons(out[0], out[1..]);
      assert out == [out[0]] + out[1..] && frozen[1..][|out| - 1..] == frozen[|out|..];
    }
  }

  lemma {:induction false} LogIsUnique(log: seq<Entry>)
    requires M.LsnsIncrease(log)
    ensures UniqueKeys(multiset(log))
  {
    if log != [] {
      var n := |log| - 1;
      LogIsUnique(log[..n]);
      assert log == log[..n] + [log[n]];
      forall x | x in multiset(log[..n]) ensures x.key != log[n].key {
        var i :| 0 <= i < n && log[i] == x;
      }
      hide UniqueKeys;
      UniqueWithOne(multiset(log[..n]), log[n]);
    }
  }

  lemma UniqueWithOne(m: multiset<Entry>, e: Entry)
    requires UniqueKeys(m) && forall x :: x in m ==> x.key != e.key
    ensures UniqueKeys(m + multiset{e})
  {
    forall a | a in m + multiset{e} ensures (m + multiset{e})[a] == 1 {
      assert a == e ==> a !in m;
    }
  }

  lemma HeldIn(db: Db, x: Entry)
    requires x in db.active
    ensures x in Held(db)
  {
    hide FrozenBag, Total;
    assert x in multiset(db.active);
  }

  lemma PutKeeps(s: State, e: Entry, s': State)
    requires Kept(s) && Step(s, Put(e), s')
    ensures Kept(s')
  {
    hide FrozenBag, Total, M.Insert, WellFormed, StrictlySorted;
    forall x | x in s.db.active ensures x.key != e.key {
      HeldIn(s.db, x);
      assert x in multiset(s.log);
    }
    InsertBag(s.db.active, e);
    assert multiset(s.log + [e]) == multiset(s.log) + multiset{e};
    IncreaseSnoc(s.log, e);
  }

  lemma IncreaseSnoc(log: seq<Entry>, e: Entry)
    requires M.LsnsIncrease(log) && forall x :: x in log ==> x.key.lsn < e.key.lsn
    ensures M.LsnsIncrease(log + [e])
  {}

  lemma RotateKeeps(s: State, back: nat, s': State)
    requires Kept(s) && Step(s, Rotate(back), s')
    ensures Kept(s')
  {
    hide FrozenBag, Total, WellFormed;
    FrozenSnoc(s.db.frozen, s.db.active);
  }

  lemma FlushParts(s: State, out: Levels.Files, s': State)
    requires Step(s, Flush(out), s')
    ensures FlushesOldest(s.db, out) && Numbered(out, s.nextId, s.nextId + |out|)
    ensures s'.db == Flushed(s.db, |out|, out) && s'.log == s.log && s'.nextId == s.nextId + 1
    ensures s'.disk == Overwritten(s.disk, s.nextId, out)
  {
    hide FlushesOldest, Numbered, Overwritten;
    assert FlushStep(s, out, s');
    hide Step;
  }

  lemma CleanFlush(s: State, out: Levels.Files)
    ensures Clean(s, Flush(out)) <==> NoLiveIn(s.db.levels, s.nextId, s.nextId + |out|)
  {
    hide NoLiveIn;
  }

  lemma IsCompactStep(s: State, n: nat, merged: seq<Entry>, out: Levels.Files, s': State)
    requires Step(s, Compact(n, merged, out), s')
    ensures CompactStep(s, n, merged, out, s')
  {
    hide CompactStep;
  }

  lemma CompactParts(s: State, n: nat, merged: seq<Entry>, out: Levels.Files, s': State)
    requires Step(s, Compact(n, merged, out), s')
    ensures Pick(s.db.levels, n).Plan? && Merges(s.db.levels, n, merged, out)
    ensures Numbered(out, s.nextId, s.nextId + |out|)
    ensures SafeOutput(Pick(s.db.levels, n).source + Pick(s.db.levels, n).target, out)
    ensures s'.db == s.db.(levels := Install(s.db.levels, n, Pick(s.db.levels, n), out)) && s'.log == s.log
    ensures s'.disk == Overwritten(s.disk, s.nextId, out)
  {
    hide *;
    IsCompactStep(s, n, merged, out, s');
    CompactStepParts(s, n, merged, out, s');
    InstalledLevels(s.db, n, out);
  }

  lemma CompactStepParts(s: State, n: nat, merged: seq<Entry>, out: Levels.Files, s': State)
    requires CompactStep(s, n, merged, out, s')
    ensures Pick(s.db.levels, n).Plan? && Merges(s.db.levels, n, merged, out)
    ensures Numbered(out, s.nextId, s.nextId + |out|)
    ensures SafeOutput(Pick(s.db.levels, n).source + Pick(s.db.levels, n).target, out)
    ensures s'.db == Installed(s.db, n, out) && s'.log == s.log
    ensures s'.disk == Overwritten(s.disk, s.nextId, out)
  {
    hide Step, Numbered, Overwritten, SafeOutput, Installed, Pick, Merges;
  }

  lemma InstalledLevels(db: Db, n: nat, out: Levels.Files)
    requires Pick(db.levels, n).Plan?
    ensures Installed(db, n, out) == db.(levels := Install(db.levels, n, Pick(db.levels, n), out))
  {
    hide Install, Pick;
  }

  lemma CleanCompact(s: State, n: nat, merged: seq<Entry>, out: Levels.Files)
    requires Pick(s.db.levels, n).Plan?
    ensures Clean(s, Compact(n, merged, out)) <==> SurvivorsClear(s.db.levels, n, s.nextId, s.nextId + |out|)
  {
    hide SurvivorsClear, Pick;
  }

  lemma {:induction false} FlushKeeps(s: State, out: Levels.Files, s': State)
    requires Kept(s) && Step(s, Flush(out), s') && Clean(s, Flush(out))
    ensures Kept(s')
  {
    FlushParts(s, out, s');
    CleanFlush(s, out);
    hide Step, Clean, FrozenBag, Total, WellFormed, StrictlySorted, AllExact, LevelAt, WithL0, NoLiveIn, Numbered,
         Overwritten, Bag;
    FrozenSplit(s.db.frozen, out);
    FlushMoves(s.db, out);
    NoneAt(s.db.levels, 0, s.nextId, s.nextId + |out|);
    L0WellFormed(s.db.levels, out, s.nextId, s.nextId + |out|);
  }

  lemma {:induction false} FlushMoves(db: Db, out: Levels.Files)
    requires FlushesOldest(db, out)
    ensures Held(Flushed(db, |out|, out)) == Held(db)
  {
    hide FrozenBag, Total, AllExact, WithL0, Bag;
    FrozenSplit(db.frozen, out);
    L0Total(db.levels, out);
  }

  lemma LevelsUnique(s: State)
    requires Kept(s)
    ensures UniqueKeys(Total(s.db.levels)) && UniqueKeys(Held(s.db))
  {
    hide FrozenBag, Total, WellFormed, StrictlySorted, UniqueKeys;
    LogIsUnique(s.log);
    UniquePart(multiset(s.log), Total(s.db.levels));
  }

  lemma {:induction false} CompactKeeps(s: State, n: nat, merged: seq<Entry>, out: Levels.Files, s': State)
    requires Kept(s) && Step(s, Compact(n, merged, out), s') && Clean(s, Compact(n, merged, out))
    ensures Kept(s') && CompactionOf(s.db.levels, n, merged, out)
  {
    hide *;
    CompactParts(s, n, merged, out, s');
    CleanCompact(s, n, merged, out);
    LevelsUnique(s);
    KeptIsWell(s);
    OutputIsFresh(s.db.levels, n, out, s.nextId, s.nextId + |out|);
    MergedAndFresh(s.db.levels, n, merged, out);
    CompactionKeeps(s.db.levels, n, merged, out);
    SameKept(s, s');
  }

  lemma {:induction false} MergedAndFresh(levels: DbLevels, n: nat, merged: seq<Entry>, out: Levels.Files)
    requires Pick(levels, n).Plan? && Merges(levels, n, merged, out) && FreshIds(KeptBelow(levels, n), out)
    ensures CompactionOf(levels, n, merged, out)
    ensures Sorted(merged) && multiset(merged) == Bag(Pick(levels, n).source) + Bag(Pick(levels, n).target)
    ensures OutputOf(out, merged)
  {
    hide Pick, Sorted, Bag, OutputOf, FreshIds;
  }

  /** Other levels with the same entries. */
  lemma SameKept(s: State, s': State)
    requires Kept(s) && s'.db == s.db.(levels := s'.db.levels) && s'.log == s.log
    requires WellFormed(s'.db.levels) && Total(s'.db.levels) == Total(s.db.levels)
    ensures Kept(s')
  {
    hide FrozenBag, Total, WellFormed, StrictlySorted;
  }

  lemma StepKept(s: State, ev: Event, s': State)
    requires Kept(s) && Step(s, ev, s') && Clean(s, ev)
    ensures Kept(s')
  {
    match ev
    case Put(e) => hide *; PutKeeps(s, e, s');
    case Rotate(back) => hide *; RotateKeeps(s, back, s');
    case Flush(out) => hide *; FlushKeeps(s, out, s');
    case Compact(n, merged, out) => hide *; CompactKeeps(s, n, merged, out, s');
    case Fails(_, _, _) =>
      hide FrozenBag, Total, WellFormed, StrictlySorted;
  }

  // --- Levels and disk ---

  lemma InitInv(first: nat)
    ensures Inv(Init(first))
  {
    assert LevelAt([], 0) == [];
  }

  lemma {:induction false} CleanFlushAgrees(disk: map<nat, seq<Entry>>, levels: DbLevels, first: nat,
                                            out: Levels.Files)
    requires Agree(disk, levels) && NoLiveIn(levels, first, first + |out|) && Numbered(out, first, first + |out|)
    ensures Agree(Overwritten(disk, first, out), WithL0(levels, out))
  {
    hide LevelAt, WithL0, Overwritten;
    WithL0Levels(levels, out);
    forall m: nat, f | f in LevelAt(WithL0(levels, out), m) ensures OnDisk(Overwritten(disk, first, out), f) {
      OverwrittenAt(disk, first, out, f.meta.fileId);
      if f in LevelAt(levels, m) {
        assert NoneIn(LevelAt(levels, m), first, first + |out|) && OnDisk(disk, f);
      }
    }
  }

  lemma LostFile(disk: map<nat, seq<Entry>>, levels: DbLevels, m: nat, f: Sst)
    requires f in LevelAt(levels, m) && !OnDisk(disk, f)
    ensures !Agree(disk, levels)
  {
    hide LevelAt, OnDisk;
  }

  lemma {:induction false} FlushLoses(s: State, out: Levels.Files, m: nat, f: Sst)
    requires Kept(s) && FlushesOldest(s.db, out) && f in LevelAt(s.db.levels, m)
    requires s.nextId <= f.meta.fileId < s.nextId + |out|
    ensures !Agree(Overwritten(s.disk, s.nextId, out), WithL0(s.db.levels, out))
  {
    hide Kept, FlushesOldest, LevelAt, WithL0, Overwritten, Agree;
    OverwrittenAt(s.disk, s.nextId, out, f.meta.fileId);
    FlushedDiffers(s, out, m, f, f.meta.fileId - s.nextId);
    WithL0Levels(s.db.levels, out);
    LostFile(Overwritten(s.disk, s.nextId, out), WithL0(s.db.levels, out), m, f);
  }

  lemma {:induction false} FlushAgreesIff(s: State, out: Levels.Files, s': State)
    requires Inv(s) && Step(s, Flush(out), s')
    ensures Agree(s'.disk, s'.db.levels) <==> Clean(s, Flush(out))
  {
    FlushParts(s, out, s');
    CleanFlush(s, out);
    hide Step, Clean, Kept, FlushesOldest, LevelAt, WithL0, Overwritten, Numbered, Agree;
    if NoLiveIn(s.db.levels, s.nextId, s.nextId + |out|) {
      hide NoLiveIn;
      CleanFlushAgrees(s.disk, s.db.levels, s.nextId, out);
    } else {
      var m: nat :| !NoneIn(LevelAt(s.db.levels, m), s.nextId, s.nextId + |out|);
      var f :| f in LevelAt(s.db.levels, m) && s.nextId <= f.meta.fileId < s.nextId + |out|;
      FlushLoses(s, out, m, f);
    }
  }

  /** No live file has the entries of a frozen memtable. */
  lemma FlushedDiffers(s: State, out: Levels.Files, m: nat, f: Sst, j: nat)
    requires Kept(s) && FlushesOldest(s.db, out) && f in LevelAt(s.db.levels, m) && j < |out|
    ensures out[j].entries != f.entries
  {
    hide Total, Bag, UniqueKeys, StrictlySorted, LevelAt, WellFormed, FrozenBag;
    LevelsUnique(s);
    FrozenSplit(s.db.frozen, out);
    FileNotEmpty(s.db.levels, m, f);
    var e := f.entries[0];
    MemberBag(LevelAt(s.db.levels, m), f, e);
    OneLevel(s.db.levels, m);
    if out[j].entries == f.entries {
      MemberBag(out, out[j], e);
      TwiceHeld(s.db, Bag(out), e);
    }
  }

  lemma TwiceHeld(db: Db, part: multiset<Entry>, e: Entry)
    requires UniqueKeys(Held(db)) && part <= FrozenBag(db.frozen) && e in part
    ensures e !in Total(db.levels)
  {
    hide Total, FrozenBag;
    assert Held(db)[e] == multiset(db.active)[e] + FrozenBag(db.frozen)[e] + Total(db.levels)[e];
    assert e in Held(db);
  }

  lemma FileNotEmpty(levels: DbLevels, m: nat, f: Sst)
    requires WellFormed(levels) && f in LevelAt(levels, m)
    ensures Exact(f)
  {
    hide LevelAt, Exact;
    assert LevelOk(LevelAt(levels, m), m);
    ExactMember(LevelAt(levels, m), f);
  }

  lemma {:induction false} OutputOnDisk(disk: map<nat, seq<Entry>>, first: nat, out: Levels.Files, f: Sst)
    requires Numbered(out, first, first + |out|) && f in out
    ensures OnDisk(Overwritten(disk, first, out), f)
  {
    hide Overwritten;
    OverwrittenAt(disk, first, out, f.meta.fileId);
  }

  lemma {:induction false} CleanCompactAgrees(disk: map<nat, seq<Entry>>, levels: DbLevels, n: nat, first: nat,
                                              out: Levels.Files)
    requires Agree(disk, levels) && Pick(levels, n).Plan? && SurvivorsClear(levels, n, first, first + |out|)
    requires Numbered(out, first, first + |out|)
    ensures Agree(Overwritten(disk, first, out), Install(levels, n, Pick(levels, n), out))
  {
    hide LevelAt, Install, Pick, Overwritten, Bystander, Numbered;
    var levels' := Install(levels, n, Pick(levels, n), out);
    forall m: nat, f | f in LevelAt(levels', m) ensures OnDisk(Overwritten(disk, first, out), f) {
      InstalledFile(levels, n, out, m, f);
      if Bystander(levels, n, m, f) {
        BystanderLive(levels, n, m, f);
        assert OnDisk(disk, f);
        OverwrittenAt(disk, first, out, f.meta.fileId);
      } else {
        OutputOnDisk(disk, first, out, f);
      }
    }
  }

  lemma KeptIsWell(s: State)
    requires Kept(s)
    ensures WellFormed(s.db.levels)
  {
    hide Held, WellFormed, StrictlySorted;
  }

  lemma {:induction false} CompactLoses(s: State, n: nat, merged: seq<Entry>, out: Levels.Files, m: nat, f: Sst)
    requires Kept(s) && Pick(s.db.levels, n).Plan? && Merges(s.db.levels, n, merged, out)
    requires Bystander(s.db.levels, n, m, f) && s.nextId <= f.meta.fileId < s.nextId + |out|
    ensures !Agree(Overwritten(s.disk, s.nextId, out), Install(s.db.levels, n, Pick(s.db.levels, n), out))
  {
    hide *;
    KeptIsWell(s);
    BystanderStays(s.db.levels, n, m, f, out);
    BystanderLost(s, n, merged, out, m, f);
    LostFile(Overwritten(s.disk, s.nextId, out), Install(s.db.levels, n, Pick(s.db.levels, n), out), m, f);
  }

  lemma {:induction false} BystanderLost(s: State, n: nat, merged: seq<Entry>, out: Levels.Files, m: nat, f: Sst)
    requires Kept(s) && Pick(s.db.levels, n).Plan? && Merges(s.db.levels, n, merged, out)
    requires Bystander(s.db.levels, n, m, f) && s.nextId <= f.meta.fileId < s.nextId + |out|
    ensures !OnDisk(Overwritten(s.disk, s.nextId, out), f)
  {
    hide Kept, LevelAt, Overwritten, Agree, Merges, Pick, Bystander;
    OverwrittenAt(s.disk, s.nextId, out, f.meta.fileId);
    MergedDiffers(s, n, merged, out, m, f, f.meta.fileId - s.nextId);
  }

  lemma {:induction false} CompactAgreesIff(s: State, n: nat, merged: seq<Entry>, out: Levels.Files, s': State)
    requires Inv(s) && Step(s, Compact(n, merged, out), s')
    ensures Agree(s'.disk, s'.db.levels) <==> Clean(s, Compact(n, merged, out))
  {
    hide *;
    SoundParts(s);
    CompactParts(s, n, merged, out, s');
    CleanCompact(s, n, merged, out);
    if SurvivorsClear(s.db.levels, n, s.nextId, s.nextId + |out|) {
      CleanCompactAgrees(s.disk, s.db.levels, n, s.nextId, out);
    } else {
      var m, f := TakenSurvivor(s.db.levels, n, s.nextId, s.nextId + |out|);
      CompactLoses(s, n, merged, out, m, f);
    }
  }

  lemma {:induction false} TakenSurvivor(levels: DbLevels, n: nat, first: nat, next: nat) returns (m: nat, f: Sst)
    requires Pick(levels, n).Plan? && !SurvivorsClear(levels, n, first, next)
    ensures Bystander(levels, n, m, f) && first <= f.meta.fileId < next
  {
    hide Pick, Bystander;
    m, f :| Bystander(levels, n, m, f) && first <= f.meta.fileId < next;
  }

  lemma BystanderLive(levels: DbLevels, n: nat, m: nat, f: Sst)
    requires Pick(levels, n).Plan? && Bystander(levels, n, m, f)
    ensures f in LevelAt(levels, m)
  {}

  /** No output file has the entries of a file that is not merged. */
  lemma MergedDiffers(s: State, n: nat, merged: seq<Entry>, out: Levels.Files, m: nat, f: Sst, j: nat)
    requires Kept(s) && Merges(s.db.levels, n, merged, out) && Bystander(s.db.levels, n, m, f) && j < |out|
    ensures out[j].entries != f.entries
  {
    hide Total, Bag, UniqueKeys, StrictlySorted, LevelAt, WellFormed, FrozenBag, Pick, Sorted, OutputOf;
    LevelsUnique(s);
    BystanderLive(s.db.levels, n, m, f);
    FileNotEmpty(s.db.levels, m, f);
    var e := f.entries[0];
    BystanderUnmerged(s.db.levels, n, m, f, e);
    if out[j].entries == f.entries {
      MemberBag(out, out[j], e);
      ConcatBag(out);
      OutputConcat(out, merged);
    }
  }

  lemma OutputConcat(out: Levels.Files, merged: seq<Entry>)
    requires OutputOf(out, merged)
    ensures Concat(out) == merged
  {}

  /** From a sound state a step leads to a sound one exactly when it is clean. */
  lemma StepKeepsIff(s: State, ev: Event, s': State)
    requires Inv(s) && Step(s, ev, s')
    ensures Inv(s') <==> Clean(s, ev)
  {
    if Clean(s, ev) { StepKept(s, ev, s'); }
    match ev
    case Put(_) =>
    case Rotate(_) =>
    case Flush(out) => hide *; SoundParts(s'); FlushAgreesIff(s, out, s');
    case Compact(n, merged, out) => hide *; SoundParts(s'); CompactAgreesIff(s, n, merged, out, s');
    case Fails(taken, span, left) => hide *; SoundParts(s'); FailsAgreesIff(s, taken, span, left, s');
  }

  lemma SoundParts(s: State)
    ensures Inv(s) <==> Kept(s) && Agree(s.disk, s.db.levels)
  {}

  lemma FailsAgreesIff(s: State, taken: nat, span: nat, left: map<nat, seq<Entry>>, s': State)
    requires Inv(s) && Step(s, Fails(taken, span, left), s')
    ensures Agree(s'.disk, s'.db.levels) <==> Clean(s, Fails(taken, span, left))
  {
    hide Kept, LevelAt;
    if Clean(s, Fails(taken, span, left)) {
      forall m: nat, f | f in LevelAt(s'.db.levels, m) ensures OnDisk(s'.disk, f) {
        assert OnDisk(s.disk, f);
      }
    } else {
      var m: nat, f :| f in LevelAt(s.db.levels, m) && s.nextId <= f.meta.fileId < s.nextId + span
                       && !(f.meta.fileId in left && left[f.meta.fileId] == f.entries);
      assert f in LevelAt(s'.db.levels, m) && !OnDisk(s'.disk, f);
    }
  }

  /** In every run: memtables sorted, levels well formed, every write held exactly once, and every live file on disk
      as the levels have it, in all states up to one exactly when no step before it gave a file live after it other
      content. */
  lemma {:induction false} RunKeepsIff(run: seq<State>, events: seq<Event>, first: nat, i: nat)
    requires IsRun(run, events, first) && i < |run|
    ensures (forall j :: 0 <= j <= i ==> Inv(run[j])) <==> (forall j :: 0 <= j < i ==> Clean(run[j], events[j]))
  {
    hide Step, Inv, Clean, Init;
    if i == 0 {
      InitInv(first);
    } else {
      RunKeepsIff(run, events, first, i - 1);
      assert Step(run[i - 1], events[i - 1], run[i - 1 + 1]);
      if Inv(run[i - 1]) {
        StepKeepsIff(run[i - 1], events[i - 1], run[i]);
      }
    }
  }

  /** The second table of a flush lies in L0 under the id to be handed out next. */
  lemma {:induction false} SecondIsNext(s: State, out: Levels.Files, s': State)
    requires Step(s, Flush(out), s') && |out| > 1
    ensures out[1] in LevelAt(s'.db.levels, 0) && out[1].meta.fileId == s'.nextId && Exact(out[1])
  {
    FlushParts(s, out, s');
    hide Step, LevelAt, WithL0, Overwritten, Exact;
    WithL0Levels(s.db.levels, out);
    assert (LevelAt(s.db.levels, 0) + out)[|LevelAt(s.db.levels, 0)| + 1] == out[1];
  }

  /** After a flush of two or more memtables the next flush is not clean, nor is the next compaction below L0; one of
      L0 can only succeed if the second flushed table has at most one entry before its last block. */
  lemma {:induction false} NothingCleanAfter(s: State, out: Levels.Files, s': State, ev: Event, s'': State)
    requires Step(s, Flush(out), s') && |out| > 1 && Step(s', ev, s'')
    ensures ev.Flush? && ev.out != [] ==> !Clean(s', ev)
    ensures ev.Compact? && ev.n > 0 && ev.out != [] ==> !Clean(s', ev)
    ensures ev.Compact? && ev.n == 0 ==> BeforeLast(out[1].entries) < 2
  {
    hide *;
    SecondIsNext(s, out, s');
    var f := out[1];
    if ev.Flush? && ev.out != [] {
      CleanFlush(s', ev.out);
      LiveIs(s'.db.levels, 0, f, s'.nextId, s'.nextId + |ev.out|);
    } else if ev.Compact? && ev.n > 0 && ev.out != [] {
      CompactParts(s', ev.n, ev.merged, ev.out, s'');
      CleanCompact(s', ev.n, ev.merged, ev.out);
      NotMerged(s', ev.n, f, s'.nextId, s'.nextId + |ev.out|);
    } else if ev.Compact? && ev.n == 0 {
      CompactParts(s', ev.n, ev.merged, ev.out, s'');
      FirstOutputUnsafe(s'.db.levels, ev.merged, ev.out, s'.nextId, f);
    }
  }

  lemma LiveIs(levels: DbLevels, m: nat, f: Sst, first: nat, next: nat)
    requires f in LevelAt(levels, m) && first <= f.meta.fileId < next
    ensures !NoLiveIn(levels, first, next)
  {
    hide LevelAt;
    assert !NoneIn(LevelAt(levels, m), first, next);
  }

  lemma NotMerged(s: State, n: nat, f: Sst, first: nat, next: nat)
    requires n > 0 && Pick(s.db.levels, n).Plan? && f in LevelAt(s.db.levels, 0) && first <= f.meta.fileId < next
    ensures !SurvivorsClear(s.db.levels, n, first, next)
  {
    hide Pick, LevelAt;
    assert Bystander(s.db.levels, n, 0, f);
  }

  /** A compaction of L0 whose first id is that of an L0 file begins at or before that file's first entry. */
  lemma {:induction false} FirstOutputUnsafe(levels: DbLevels, merged: seq<Entry>, out: Levels.Files, first: nat,
                                             f: Sst)
    requires Merges(levels, 0, merged, out) && Numbered(out, first, first + |out|) && f in LevelAt(levels, 0)
    requires f.meta.fileId == first && Exact(f)
    requires SafeOutput(Pick(levels, 0).source + Pick(levels, 0).target, out)
    ensures BeforeLast(f.entries) < 2
  {
    hide LeastMin, GreatestMax, Overlapping, BeforeLast, Bag, Sorted, LevelAt;
    var source, e := Pick(levels, 0).source, f.entries[0];
    assert source == LevelAt(levels, 0);
    MemberBag(source, f, e);
    assert e in multiset(merged);
    FirstOfOutput(out, merged);
    var i :| 0 <= i < |merged| && merged[i] == e;
    assert f in source + Pick(levels, 0).target && out[0].meta.fileId == f.meta.fileId;
    assert ReadUpTo(f.entries, out[0].entries[0].key);
    BeforeLastWithin(f.entries);
    var b := BeforeLast(f.entries);
    if b >= 2 { Strictly(f.entries, b - 1, merged, i); }
  }

  lemma {:induction false} FirstOfOutput(out: Levels.Files, merged: seq<Entry>)
    requires OutputOf(out, merged) && merged != []
    ensures out != [] && out[0].entries != [] && out[0].entries[0] == merged[0]
    decreases |out|
  {
    ConcatNone();
    assert out != [];
    if |out| == 1 {
      assert Concat(out) == Concat(out[..0]) + out[0].entries;
    } else {
      var n := |out| - 1;
      assert out[..n][0] == out[0];
      assert Concat(out[..n]) != [] by { ConcatSome(out[..n]); }
      FirstOfOutput(out[..n], Concat(out[..n]));
    }
  }

  lemma {:induction false} ConcatSome(files: Levels.Files)
    requires files != [] && files[|files| - 1].entries != []
    ensures Concat(files) != []
  {}

  // --- Where entries are ---

  predicate InSome(layers: seq<Layer>, e: Entry) {
    exists i :: 0 <= i < |layers| && e in layers[i].entries
  }

  lemma InSomeAppend(a: seq<Layer>, b: seq<Layer>, e: Entry)
    ensures InSome(a + b, e) <==> InSome(a, e) || InSome(b, e)
  {
    var c := a + b;
    if InSome(a, e) {
      var i :| 0 <= i < |a| && e in a[i].entries;
      assert e in c[i].entries;
    }
    if InSome(b, e) {
      var i :| 0 <= i < |b| && e in b[i].entries;
      assert e in c[|a| + i].entries;
    }
  }

  lemma {:induction false} InFrozen(frozen: seq<seq<Entry>>, e: Entry)
    ensures e in FrozenBag(frozen) <==> InSome(FrozenLayers(frozen), e)
  {
    if frozen != [] {
      InFrozen(frozen[1..], e);
      assert FrozenLayers(frozen) == FrozenLayers(frozen[1..]) + [Mem(frozen[0])];
      InSomeAppend(FrozenLayers(frozen[1..]), [Mem(frozen[0])], e);
      InOne(frozen[0], e);
    }
  }

  lemma InOne(es: seq<Entry>, e: Entry)
    ensures InSome([Mem(es)], e) <==> e in multiset(es)
  {
    assert [Mem(es)][0].entries == es;
    assert e in multiset(es) <==> e in es;
  }

  /** An entry is in some layer exactly when the database holds it. */
  lemma InLayers(db: Db, e: Entry)
    ensures InSome(Layers(db), e) <==> e in Held(db)
  {
    var levels := LevelLayers(db.levels);
    InPart(db.levels, |db.levels|, e);
    assert e in Total(db.levels) <==> InSome(levels, e);
    hide FrozenBag, Total, InSome;
    InFrozen(db.frozen, e);
    InOne(db.active, e);
    InSomeAppend([Mem(db.active)], FrozenLayers(db.frozen), e);
    InSomeAppend([Mem(db.active)] + FrozenLayers(db.frozen), levels, e);
  }

  lemma InLog(s: State, i: nat, x: Entry)
    requires Kept(s) && i < |Layers(s.db)| && x in Layers(s.db)[i].entries
    ensures x in s.log
  {
    hide Layers, Held, WellFormed, StrictlySorted;
    assert InSome(Layers(s.db), x);
    InLayers(s.db, x);
    assert x in multiset(s.log);
  }

  // --- Order over runs ---

  lemma RunIsKept(run: seq<State>, events: seq<Event>, first: nat, i: nat)
    requires IsRun(run, events, first) && i < |run| && forall j :: 0 <= j < i ==> Clean(run[j], events[j])
    ensures Kept(run[i]) && Inv(run[i])
  {
    hide IsRun, Clean, Kept, Agree;
    RunKeepsIff(run, events, first, i);
    assert Inv(run[i]);
  }

  /** The event compacts a level below L0 whose first file and other files both hold k. */
  ghost predicate Splits(s: State, ev: Event, k: Bytes) {
    ev.Compact? && SplitsKey(s.db.levels, ev.n, k)
  }

  /** A step from ordered layers leads to ordered layers unless it is a compaction that splits the key. */
  lemma StepOrderIff(s: State, ev: Event, s': State, k: Bytes)
    requires Kept(s) && Step(s, ev, s') && Clean(s, ev) && OrderedFor(Layers(s.db), k)
    ensures OrderedFor(Layers(s'.db), k) <==> !Splits(s, ev, k)
  {
    hide OrderedFor, Layers, WellFormed, Held, StrictlySorted, SplitsKey, CompactionOf, Install, Pick, AllExact, Merges,
         NoLiveIn, SurvivorsClear, Overwritten, SafeOutput, Numbered;
    match ev
    case Put(e) =>
      forall i, x | 0 <= i < |Layers(s.db)| && x in Layers(s.db)[i].entries ensures x.key.lsn < e.key.lsn {
        InLog(s, i, x);
      }
      PutKeepsOrder(s.db, e, k);
    case Rotate(_) => RotateKeepsOrder(s.db, k);
    case Flush(out) => FlushKeepsOrder(s.db, |out|, out, k);
    case Compact(n, merged, out) =>
      CompactKeeps(s, n, merged, out, s');
      CompactionKeepsDbOrderIff(s.db, n, merged, out, k);
    case Fails(_, _, _) =>
  }

  lemma InitOrdered(k: Bytes)
    ensures OrderedFor(Layers(Init(0).db), k)
  {}

  /** As long as the steps are clean, whatever is written, rotated, flushed and compacted: all layers are in order in
      all states up to one exactly when no compaction before it split the key. */
  lemma {:induction false} RunOrderIff(run: seq<State>, events: seq<Event>, first: nat, i: nat, k: Bytes)
    requires IsRun(run, events, first) && i < |run| && forall j :: 0 <= j < i ==> Clean(run[j], events[j])
    ensures (forall j :: 0 <= j <= i ==> OrderedFor(Layers(run[j].db), k))
            <==> (forall j :: 0 <= j < i ==> !Splits(run[j], events[j], k))
  {
    hide Step, Inv, OrderedFor, Layers, Splits, Clean;
    if i == 0 {
      InitOrdered(k);
    } else {
      RunOrderIff(run, events, first, i - 1, k);
      RunIsKept(run, events, first, i - 1);
      assert Step(run[i - 1], events[i - 1], run[i - 1 + 1]);
      if OrderedFor(Layers(run[i - 1].db), k) {
        StepOrderIff(run[i - 1], events[i - 1], run[i], k);
      }
    }
  }

  /** In particular, puts, rotations, flushes and compactions of L0 never disorder any key. */
  lemma OrderedWithoutDeepCompactions(run: seq<State>, events: seq<Event>, first: nat, i: nat, k: Bytes)
    requires IsRun(run, events, first) && i < |run| && forall j :: 0 <= j < i ==> Clean(run[j], events[j])
    requires forall j :: 0 <= j < i && events[j].Compact? ==> events[j].n == 0
    ensures OrderedFor(Layers(run[i].db), k)
  {
    hide Step, OrderedFor, Layers, Clean;
    RunOrderIff(run, events, first, i, k);
  }

  // --- L0 ---

  lemma StepFlushOrder(s: State, ev: Event, s': State, k: Bytes)
    requires Step(s, ev, s') && OrderedFor(Layers(s.db), k) && FlushOrder(LevelAt(s.db.levels, 0), k)
    ensures FlushOrder(LevelAt(s'.db.levels, 0), k)
  {
    hide OrderedFor, Layers, StrictlySorted, Install, Pick, AllExact, FlushOrder, LevelAt, OutputOf, Sorted, Numbered,
         Overwritten, SafeOutput;
    match ev
    case Put(_) =>
    case Rotate(_) =>
    case Flush(out) =>
      WithL0Levels(s.db.levels, out);
      L0TakesNewer(s.db, out, k);
    case Compact(n, merged, out) => L0AfterCompaction(s.db.levels, n, out, k);
    case Fails(_, _, _) =>
  }

  lemma L0AfterCompaction(levels: DbLevels, n: nat, out: Levels.Files, k: Bytes)
    requires Pick(levels, n).Plan? && FlushOrder(LevelAt(levels, 0), k)
    ensures FlushOrder(LevelAt(Install(levels, n, Pick(levels, n), out), 0), k)
  {
    hide LevelAt, Overlapping, LeastMin, GreatestMax;
    var plan, files := Pick(levels, n), LevelAt(levels, 0);
    if n == 0 {
      assert forall f :: f in files ==> f.meta.fileId in Ids(plan.source);
      FilterAll(files, (f: Sst) => f.meta.fileId !in Ids(plan.source));
      assert Retain(files, Ids(plan.source)) == [];
    }
  }

  lemma L0TakesNewer(db: Db, out: Levels.Files, k: Bytes)
    requires OrderedFor(Layers(db), k) && FlushOrder(LevelAt(db.levels, 0), k)
    requires |out| <= |db.frozen| && (forall i :: 0 <= i < |out| ==> out[i].entries == db.frozen[i])
    ensures FlushOrder(LevelAt(db.levels, 0) + out, k)
  {
    hide LevelLayers, FrozenLayers;
    var l0, n := LevelAt(db.levels, 0), |db.frozen|;
    var files := l0 + out;
    forall i, j, x, y |
      0 <= i < j < |files| && x in files[i].entries && y in files[j].entries && x.key.bytes == k == y.key.bytes
      ensures x.key.lsn < y.key.lsn
    {
      if j < |l0| {
        assert x in l0[i].entries && y in l0[j].entries;
      } else {
        FrozenLayer(db, j - |l0|);
        if i < |l0| {
          L0Layer(db, i, x);
        } else {
          FrozenLayer(db, i - |l0|);
        }
      }
    }
  }

  lemma FrozenLayer(db: Db, i: nat)
    requires i < |db.frozen|
    ensures 0 < |db.frozen| - i < |Layers(db)| && Layers(db)[|db.frozen| - i] == Mem(db.frozen[i])
  {}

  lemma L0Layer(db: Db, i: nat, x: Entry)
    requires i < |LevelAt(db.levels, 0)| && x in LevelAt(db.levels, 0)[i].entries
    ensures |db.frozen| + 1 < |Layers(db)| && x in Layers(db)[|db.frozen| + 1].entries
  {
    InConcat(db.levels[0], i, x);
    assert Layers(db)[|db.frozen| + 1] == LevelLayers(db.levels)[0];
  }

  lemma {:induction false} RunFlushOrder(run: seq<State>, events: seq<Event>, first: nat, i: nat, k: Bytes)
    requires IsRun(run, events, first) && i < |run|
    requires forall j :: 0 <= j < i ==> Clean(run[j], events[j]) && !Splits(run[j], events[j], k)
    ensures OrderedFor(Layers(run[i].db), k) && FlushOrder(LevelAt(run[i].db.levels, 0), k)
  {
    hide Step, OrderedFor, Layers, Splits, Clean;
    RunOrderIff(run, events, first, i, k);
    if i > 0 {
      RunFlushOrder(run, events, first, i - 1, k);
      assert Step(run[i - 1], events[i - 1], run[i - 1 + 1]);
      hide FlushOrder;
      StepFlushOrder(run[i - 1], events[i - 1], run[i], k);
    }
  }

  // --- What `get` answers in a run ---

  lemma {:induction false} LastWriteIs(log: seq<Entry>, k: Bytes, e: Entry)
    requires M.LsnsIncrease(log) && e in log && e.key.bytes == k
    requires forall x :: x in log && x.key.bytes == k ==> x.key.lsn <= e.key.lsn
    ensures M.LastWrite(log, k) == Some(e)
  {
    var n := |log| - 1;
    var last := log[n];
    if last.key.bytes == k {
      var i :| 0 <= i < |log| && log[i] == e;
      assert last in log;
    } else {
      assert log == log[..n] + [last];
      LastWriteIs(log[..n], k, e);
    }
  }

  /** The newest version of k anywhere is the last put of k. */
  lemma NewestIsLastPut(s: State, k: Bytes, e: Entry)
    requires Kept(s) && IsNewest(Layers(s.db), k, e)
    ensures M.LastWrite(s.log, k) == Some(e)
  {
    hide Layers, Held, WellFormed, StrictlySorted;
    var i :| 0 <= i < |Layers(s.db)| && e in Layers(s.db)[i].entries;
    InLog(s, i, e);
    forall x | x in s.log && x.key.bytes == k ensures x.key.lsn <= e.key.lsn {
      assert x in multiset(s.log);
      InLayers(s.db, x);
    }
    LastWriteIs(s.log, k, e);
  }

  lemma {:induction false} NoWrite(log: seq<Entry>, k: Bytes)
    requires forall x :: x in log ==> x.key.bytes != k
    ensures M.LastWrite(log, k).None?
  {
    if log != [] {
      NoWrite(log[..|log| - 1], k);
    }
  }

  lemma NothingPut(s: State, k: Bytes)
    requires Kept(s) && FirstHolder(Layers(s.db), k) == |Layers(s.db)|
    ensures M.LastWrite(s.log, k).None? && Scan(Layers(s.db), k).None?
  {
    hide Layers, Held, WellFormed, StrictlySorted, FirstFor, FirstHolder;
    forall i | 0 <= i < |Layers(s.db)| ensures !HoldsKey(Layers(s.db)[i].entries, k) {}
    AbsentKey(Layers(s.db), k);
    forall x | x in s.log ensures x.key.bytes != k {
      assert x in multiset(s.log);
      InLayers(s.db, x);
      var i :| 0 <= i < |Layers(s.db)| && x in Layers(s.db)[i].entries;
    }
    NoWrite(s.log, k);
  }

  /** The last put of k is live, or a deletion still in memory with nothing but deletions in memory below it. */
  predicate LastShows(s: State, k: Bytes) {
    var layers, e := Layers(s.db), M.LastWrite(s.log, k);
    var n := FirstHolder(layers, k);
    e.Some? && e.value.value.Tombstone? ==>
      n < |layers| && layers[n].Mem? && forall j :: n < j < |layers| ==> Silent(layers[j], k)
  }

  /** `get` against the writes of a whole run: in clean steps, if no compaction split k and L0 holds it in one file
      at most, it answers the last put, absent for a deletion, exactly when that put is live, or a deletion in a
      memtable under which no layer shows a value. */
  lemma RunReadsLastPutIff(run: seq<State>, events: seq<Event>, first: nat, i: nat, k: Bytes)
    requires IsRun(run, events, first) && i < |run|
    requires forall j :: 0 <= j < i ==> Clean(run[j], events[j]) && !Splits(run[j], events[j], k)
    requires OneHolder(LevelAt(run[i].db.levels, 0), k)
    ensures Scan(Layers(run[i].db), k) == M.Visible(M.LastWrite(run[i].log, k)) <==> LastShows(run[i], k)
  {
    hide IsRun, Splits, Clean, Layers, Held, WellFormed, StrictlySorted, OneHolder, LevelAt, FirstFor, Scan, OrderedFor,
         Silent, FirstHolder;
    var s := run[i];
    RunIsKept(run, events, first, i);
    RunFlushOrder(run, events, first, i, k);
    var n := FirstHolder(Layers(s.db), k);
    if n == |Layers(s.db)| {
      NothingPut(s, k);
    } else {
      var e := FirstFor(Layers(s.db)[n].entries, k).value;
      DbReadsNewestIff(s.db, k, e);
      NewestIsLastPut(s, k, e);
    }
  }
}
