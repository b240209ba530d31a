/** Rotation, flush and compaction: the manifest's WAL list against the memtables readers see. */
module Publication {
  import opened Codec
  import opened Manifests
  import ManifestCommit

  /** What readers load: the mutable memtable and the frozen ones, oldest first. */
  datatype View = View(active: nat, frozen: seq<nat>)

  /** The compaction thread: idle; in a flush, having captured, committed, or loaded the version it will
      replace; or in a compaction, having committed and loaded. */
  datatype Work =
    | Idle
    | Captured(wals: seq<u32>, mems: seq<nat>)
    | Committed(mems: seq<nat>)
    | Flushing(mems: seq<nat>, seen: View)
    | Compacting(seen: View)

  /** The writer in the memtable stage: not rotating, or having committed its manifest, or loaded the version. */
  datatype Rotation = NoRotation | RotationCommitted | Rotating(seen: View)

  datatype State = State(wals: seq<u32>, view: View, rotation: Rotation, work: Work,
                         // Whether a flush found fewer WALs than memtables, or other WALs than it had captured.
                         short: bool, mismatched: bool,
                         // History: the memtable each active WAL feeds, and how many memtables there were.
                         feeds: seq<nat>, made: nat)

  function Init(wal: u32): State {
    State([wal], View(0, []), NoRotation, Idle, false, false, [0], 1)
  }

  // --- Steps ---

  /** A rotation's manifest commit: one more WAL, feeding the memtable about to be made. */
  function RotateCommit(s: State, wal: u32): State {
    s.(wals := s.wals + [wal], feeds := s.feeds + [s.made], made := s.made + 1, rotation := RotationCommitted)
  }

  function RotateLoad(s: State): State { s.(rotation := Rotating(s.view)) }

  /** Its new version: the mutable memtable frozen behind the others, a fresh one in its place. */
  function RotateStore(s: State): State
    requires s.rotation.Rotating? && s.made > 0
  {
    var seen := s.rotation.seen;
    s.(view := View(s.made - 1, seen.frozen + [seen.active]), rotation := NoRotation)
  }

  /** Phase 1 of a flush: the frozen memtables, and as many WALs from the front. */
  function Capture(s: State): State {
    if |s.wals| < |s.view.frozen| then s.(short := true)
    else s.(work := Captured(s.wals[..|s.view.frozen|], s.view.frozen))
  }

  /** Phase 3: drops the captured WALs if they are still the first. */
  function FlushCommit(s: State): State
    requires s.work.Captured?
  {
    var k := |s.work.wals|;
    if s.work.wals <= s.wals && k <= |s.feeds| then
      s.(wals := s.wals[k..], feeds := s.feeds[k..], work := Committed(s.work.mems))
    else s.(mismatched := true, work := Idle)
  }

  function FlushLoad(s: State): State
    requires s.work.Committed?
  {
    s.(work := Flushing(s.work.mems, s.view))
  }

  /** Stores a version made from the loaded one: everything but the first |mems| frozen memtables. */
  function FlushStore(s: State): State
    requires s.work.Flushing?
  {
    var k, seen := |s.work.mems|, s.work.seen;
    s.(view := View(seen.active, if k <= |seen.frozen| then seen.frozen[k..] else []), work := Idle)
  }

  /** A compaction loads the version after its commit and stores it with other tables. */
  function CompactLoad(s: State): State { s.(work := Compacting(s.view)) }

  function CompactStore(s: State): State
    requires s.work.Compacting?
  {
    s.(view := s.work.seen, work := Idle)
  }

  /** Rotations are exclusive among themselves, flushes and compactions take turns; otherwise any interleaving. */
  predicate Next(s: State, s': State) { WriterStep(s, s') || WorkerStep(s, s') }

  predicate WriterStep(s: State, s': State) {
    match s.rotation
    case NoRotation => exists wal: u32 :: s' == RotateCommit(s, wal)
    case RotationCommitted => s' == RotateLoad(s)
    case Rotating(_) => s.made > 0 && s' == RotateStore(s)
  }

  predicate WorkerStep(s: State, s': State) {
    match s.work
    case Idle => (s.view.frozen != [] && s' == Capture(s)) || s' == CompactLoad(s)
    case Captured(_, _) => s' == FlushCommit(s)
    case Committed(_) => s' == FlushLoad(s)
    case Flushing(_, _) => s' == FlushStore(s)
    case Compacting(_) => s' == CompactStore(s)
  }

  predicate IsRun(run: seq<State>, wal: u32) {
    run != [] && run[0] == Init(wal) && forall i :: 0 <= i < |run| - 1 ==> Next(run[i], run[i + 1])
  }

  // --- What holds whatever the stores race with ---

  /** A flush's captured WALs are as many as its memtables and stay in front. */
  predicate Inv(s: State) {
    && |s.feeds| == |s.wals| && s.made > 0 && !s.mismatched
    && (s.work.Captured? ==> s.work.wals <= s.wals && |s.work.wals| == |s.work.mems|)
    && (!s.rotation.NoRotation? ==> s.made > 1)
  }

  lemma NextKeeps(s: State, s': State)
    requires Inv(s) && Next(s, s')
    ensures Inv(s')
  {
    if WriterStep(s, s') {
      match s.rotation
      case NoRotation =>
      case RotationCommitted =>
      case Rotating(_) =>
    } else {
      match s.work
      case Captured(_, _) =>
      case _ =>
    }
  }

  /** However many rotations intervene, and whatever versions the stores replace: the WAL prefix captured in
      phase 1 is still the prefix at commit, so the commit's mismatch check never fires. */
  lemma {:induction false} CapturedPrefixStays(run: seq<State>, wal: u32, i: nat)
    requires IsRun(run, wal) && i < |run|
    ensures Inv(run[i])
    ensures !run[i].mismatched && (run[i].work.Captured? ==> run[i].work.wals <= run[i].wals)
  {
    hide Next;
    if i > 0 {
      CapturedPrefixStays(run, wal, i - 1);
      assert Next(run[i - 1], run[i]);
      NextKeeps(run[i - 1], run[i]);
    }
  }

  // --- Memtables and WALs matched ---

  /** The memtables whose WALs a flush has dropped and which readers may still see. */
  function Dropped(w: Work): seq<nat> {
    if w.Committed? || w.Flushing? then w.mems else []
  }

  /** The memtable a rotation has made and not yet shown. */
  function Unseen(s: State): seq<int> { if s.rotation.NoRotation? then [] else [s.made - 1] }

  /** What readers see is what the active WALs feed, up to the change under way. */
  predicate Aligned(s: State) {
    s.view.frozen + [s.view.active] + Unseen(s) == Dropped(s.work) + s.feeds
  }

  /** The flush in progress is about the oldest frozen memtables. */
  predicate FlushOk(s: State) {
    && (s.work.Captured? || s.work.Committed? ==> s.work.mems <= s.view.frozen)
    && (s.work.Flushing? ==> s.work.mems <= s.work.seen.frozen && s.work.mems <= s.view.frozen)
    && (s.rotation.Rotating? && (s.work.Captured? || s.work.Committed? || s.work.Flushing?)
        && s.rotation.seen == s.view ==>
          s.work.mems <= s.rotation.seen.frozen)
  }

  predicate WorkerStores(s: State, s': State) { (s.work.Flushing? || s.work.Compacting?) && s'.work.Idle? }

  predicate WriterStores(s: State, s': State) { s.rotation.Rotating? && s'.rotation.NoRotation? }

  /** A store, if this step is one, replaces the version that readers see. */
  predicate StoresCurrent(s: State, s': State) {
    && (WorkerStores(s, s') ==> s.work.seen == s.view)
    && (WriterStores(s, s') ==> s.rotation.seen == s.view)
  }

  lemma StepAligned(s: State, s': State)
    requires Inv(s) && FlushOk(s) && Aligned(s) && Next(s, s')
    ensures Aligned(s') <==> StoresCurrent(s, s')
    ensures StoresCurrent(s, s') ==> FlushOk(s') && (s'.short ==> s.short)
  {
    hide Inv, Aligned, FlushOk, StoresCurrent, RotateCommit, RotateStore, FlushCommit, FlushStore;
    if WriterStep(s, s') {
      match s.rotation
      case NoRotation =>
        var wal: u32 :| s' == RotateCommit(s, wal);
        RotateCommitAligned(s, wal);
      case RotationCommitted => RotateLoadAligned(s);
      case Rotating(_) => RotateStoreAligned(s);
    } else {
      match s.work
      case Idle => IdleAligned(s, s');
      case Captured(_, _) => FlushCommitAligned(s);
      case Committed(_) => FlushLoadAligned(s);
      case Flushing(_, _) => FlushStoreAligned(s);
      case Compacting(_) => CompactStoreAligned(s);
    }
  }

  lemma RotateCommitAligned(s: State, wal: u32)
    requires FlushOk(s) && Aligned(s) && s.rotation.NoRotation?
    ensures var s' := RotateCommit(s, wal); Aligned(s') && FlushOk(s') && StoresCurrent(s, s') && s'.short == s.short
  {
    assert s.view.frozen + [s.view.active] + [] == s.view.frozen + [s.view.active];
    assert Dropped(s.work) + (s.feeds + [s.made]) == (Dropped(s.work) + s.feeds) + [s.made];
  }

  lemma RotateLoadAligned(s: State)
    requires FlushOk(s) && Aligned(s) && s.rotation.RotationCommitted?
    ensures var s' := RotateLoad(s); Aligned(s') && FlushOk(s') && StoresCurrent(s, s') && s'.short == s.short
  {}

  lemma RotateStoreAligned(s: State)
    requires FlushOk(s) && Aligned(s) && s.rotation.Rotating? && s.made > 0
    ensures var s' := RotateStore(s);
            && (Aligned(s') <==> StoresCurrent(s, s')) && (StoresCurrent(s, s') ==> FlushOk(s')) && s'.short == s.short
  {
    var s', seen, view := RotateStore(s), s.rotation.seen, s.view;
    var fresh' := [s.made - 1];
    assert s'.view.frozen + [s'.view.active] + [] == seen.frozen + [seen.active] + fresh';
    if Aligned(s') {
      CancelRight(seen.frozen + [seen.active], view.frozen + [view.active], fresh');
      SameView(seen, view);
    }
  }

  lemma CancelRight<T>(a: seq<T>, b: seq<T>, c: seq<T>)
    requires a + c == b + c
    ensures a == b
  {
    assert |a| == |b|;
    assert (a + c)[..|a|] == a && (b + c)[..|b|] == b;
  }

  lemma SameView(a: View, b: View)
    requires a.frozen + [a.active] == b.frozen + [b.active]
    ensures a == b
  {
    CancelLast(a.frozen, a.active, b.frozen, b.active);
  }

  lemma CancelLast<T>(a: seq<T>, x: T, b: seq<T>, y: T)
    requires a + [x] == b + [y]
    ensures a == b && x == y
  {
    assert |a| == |b|;
    assert (a + [x])[|a|] == x && (b + [y])[|b|] == y;
    assert (a + [x])[..|a|] == a && (b + [y])[..|b|] == b;
  }

  lemma IdleAligned(s: State, s': State)
    requires Inv(s) && FlushOk(s) && Aligned(s) && s.work.Idle? && (s' == Capture(s) || s' == CompactLoad(s))
    ensures Aligned(s') && FlushOk(s') && StoresCurrent(s, s') && s'.short == s.short
  {
    assert |s.view.frozen + [s.view.active] + Unseen(s)| == |[] + s.feeds|;
  }

  lemma FlushCommitAligned(s: State)
    requires Inv(s) && FlushOk(s) && Aligned(s) && s.work.Captured?
    ensures var s' := FlushCommit(s); Aligned(s') && FlushOk(s') && StoresCurrent(s, s') && s'.short == s.short
  {
    var k, mems := |s.work.wals|, s.work.mems;
    var seen := s.view.frozen + [s.view.active] + Unseen(s);
    assert seen == [] + s.feeds == s.feeds;
    assert seen[..k] == s.view.frozen[..k] == mems;
    assert s.feeds == mems + s.feeds[k..];
  }

  lemma FlushLoadAligned(s: State)
    requires FlushOk(s) && Aligned(s) && s.work.Committed?
    ensures var s' := FlushLoad(s); Aligned(s') && FlushOk(s') && StoresCurrent(s, s') && s'.short == s.short
  {}

  lemma FlushStoreAligned(s: State)
    requires FlushOk(s) && Aligned(s) && s.work.Flushing?
    ensures var s' := FlushStore(s);
            && (Aligned(s') <==> StoresCurrent(s, s')) && (StoresCurrent(s, s') ==> FlushOk(s')) && s'.short == s.short
  {
    var s', mems, seen, view := FlushStore(s), s.work.mems, s.work.seen, s.view;
    assert seen.frozen == mems + s'.view.frozen;
    var left := s'.view.frozen + [seen.active] + Unseen(s);
    assert mems + left == seen.frozen + [seen.active] + Unseen(s);
    assert Dropped(s'.work) + s'.feeds == s.feeds;
    assert view.frozen + [view.active] + Unseen(s) == mems + s.feeds;
    if seen == view {
      CancelLeft(mems, left, s.feeds);
    }
    if left == s.feeds {
      CancelRight(seen.frozen + [seen.active], view.frozen + [view.active], Unseen(s));
      SameView(seen, view);
    }
  }

  lemma CancelLeft<T>(a: seq<T>, b: seq<T>, c: seq<T>)
    requires a + b == a + c
    ensures b == c
  {
    assert (a + b)[|a|..] == b && (a + c)[|a|..] == c;
  }

  lemma CompactStoreAligned(s: State)
    requires FlushOk(s) && Aligned(s) && s.work.Compacting?
    ensures var s' := CompactStore(s);
            && (Aligned(s') <==> StoresCurrent(s, s')) && (StoresCurrent(s, s') ==> FlushOk(s')) && s'.short == s.short
  {
    var seen, view := s.work.seen, s.view;
    if seen.frozen + [seen.active] + Unseen(s) == view.frozen + [view.active] + Unseen(s) {
      CancelRight(seen.frozen + [seen.active], view.frozen + [view.active], Unseen(s));
      SameView(seen, view);
    }
  }

  /** Readers' memtables and the active WALs are matched in order, up to the change under way, in every state
      exactly as long as every store, of a rotation, a flush or a compaction, replaces the version that readers
      see: the first stale store breaks the match. Until then no flush finds fewer WALs than memtables. */
  lemma {:induction false} WalsMatchMemtablesIff(run: seq<State>, wal: u32, i: nat)
    requires IsRun(run, wal) && i < |run|
    ensures (forall j :: 0 <= j <= i ==> Aligned(run[j]))
            <==> (forall j :: 0 <= j < i ==> StoresCurrent(run[j], run[j + 1]))
    ensures (forall j :: 0 <= j < i ==> StoresCurrent(run[j], run[j + 1])) ==> FlushOk(run[i]) && !run[i].short
  {
    hide Next, Inv, Aligned, FlushOk, StoresCurrent;
    if i == 0 {
      StartAligned(wal);
    } else {
      var s, s' := run[i - 1], run[i];
      WalsMatchMemtablesIff(run, wal, i - 1);
      CapturedPrefixStays(run, wal, i - 1);
      assert Next(s, s') by { assert Next(run[i - 1], run[i - 1 + 1]); }
      if forall j :: 0 <= j < i - 1 ==> StoresCurrent(run[j], run[j + 1]) {
        assert Aligned(run[i - 1]);
        StepAligned(s, s');
        assert (forall j :: 0 <= j < i ==> StoresCurrent(run[j], run[j + 1])) <==>
                 StoresCurrent(run[i - 1], run[i - 1 + 1]);
      } else {
        var j :| 0 <= j < i - 1 && !StoresCurrent(run[j], run[j + 1]);
        var k :| 0 <= k <= i - 1 && !Aligned(run[k]);
        assert !(forall j :: 0 <= j < i ==> StoresCurrent(run[j], run[j + 1]));
      }
    }
  }

  lemma StartAligned(wal: u32)
    ensures Aligned(Init(wal)) && FlushOk(Init(wal)) && !Init(wal).short
  {}

  /** In every run whose stores so far replaced the version readers saw, then, at rest: the active WALs number the
      frozen memtables plus one, each feeding its memtable in order. */
  lemma AtRest(run: seq<State>, wal: u32, i: nat)
    requires IsRun(run, wal) && i < |run| && forall j :: 0 <= j < i ==> StoresCurrent(run[j], run[j + 1])
    requires run[i].rotation.NoRotation? && Dropped(run[i].work) == []
    ensures |run[i].wals| == |run[i].view.frozen| + 1 && run[i].feeds == run[i].view.frozen + [run[i].view.active]
  {
    hide Next, Aligned, Inv, FlushOk, StoresCurrent;
    WalsMatchMemtablesIff(run, wal, i);
    CapturedPrefixStays(run, wal, i);
    assert Aligned(run[i]);
    Matched(run[i]);
  }

  lemma Matched(s: State)
    requires Inv(s) && Aligned(s) && s.rotation.NoRotation? && Dropped(s.work) == []
    ensures |s.wals| == |s.view.frozen| + 1 && s.feeds == s.view.frozen + [s.view.active]
  {
    assert s.view.frozen + [s.view.active] + [] == s.view.frozen + [s.view.active];
    assert [] + s.feeds == s.feeds;
  }

  const FLUSH_TRIGGER: nat := 4

  /** The worker flushes when there are more than four WALs. In every run in which each store so far replaced the
      version readers saw, it then takes at least three memtables, and the same number of WALs whatever rotates before
      it commits: never the single one for which one reserved table id is enough. */
  lemma {:induction false} TriggeredFlushTakesThree(run: seq<State>, wal: u32, i: nat, j: nat)
    requires IsRun(run, wal) && i < j < |run| && forall n :: 0 <= n < i ==> StoresCurrent(run[n], run[n + 1])
    requires run[i].work.Idle? && |run[i].wals| > FLUSH_TRIGGER
    requires run[i + 1] == Capture(run[i]) && forall n :: i < n <= j ==> run[n].work.Captured?
    ensures |run[i].view.frozen| >= 3 && run[j].work.mems == run[i].view.frozen
    ensures |run[j].work.wals| == |run[j].work.mems| && run[j].work.wals <= run[j].wals
  {
    hide Next, Aligned, Inv, FlushOk, StoresCurrent, Capture;
    WalsMatchMemtablesIff(run, wal, i);
    CapturedPrefixStays(run, wal, i);
    CapturedPrefixStays(run, wal, j);
    assert Aligned(run[i]);
    EnoughFrozen(run[i]);
    CapturedCounts(run[j]);
    if j == i + 1 {
      CapturesFrozen(run[i]);
    } else {
      TriggeredFlushTakesThree(run, wal, i, j - 1);
      assert Next(run[j - 1], run[j - 1 + 1]);
      StaysCaptured(run[j - 1], run[j]);
    }
  }

  lemma EnoughFrozen(s: State)
    requires Aligned(s) && Inv(s) && s.work.Idle? && |s.wals| > FLUSH_TRIGGER
    ensures |s.view.frozen| >= 3
  {
    assert |s.view.frozen + [s.view.active] + Unseen(s)| == |[] + s.feeds|;
  }

  lemma CapturedCounts(s: State)
    requires Inv(s) && s.work.Captured?
    ensures |s.work.wals| == |s.work.mems| && s.work.wals <= s.wals
  {}

  lemma CapturesFrozen(s: State)
    requires s.work.Idle? && Capture(s).work.Captured?
    ensures Capture(s).work.mems == s.view.frozen
  {}

  lemma StaysCaptured(s: State, s': State)
    requires Next(s, s') && s.work.Captured? && s'.work.Captured?
    ensures s'.work.mems == s.work.mems
  {}

  lemma Rotates(s: State, wal: u32) returns (s1: State, s2: State, s3: State)
    requires s.rotation.NoRotation?
    ensures s1 == RotateCommit(s, wal) && s2 == RotateLoad(s1) && s3.work == s.work && s3.wals == s1.wals
            && s3.feeds == s1.feeds
    ensures s3.view == View(s.made, s.view.frozen + [s.view.active]) && s3.made == s1.made && s3.rotation.NoRotation?
    ensures Next(s, s1) && Next(s1, s2) && Next(s2, s3)
  {
    s1 := RotateCommit(s, wal);
    s2 := RotateLoad(s1);
    s3 := RotateStore(s2);
  }

  /** The stores do race: a rotation that falls between the flush's load and store is undone, and readers are
      left with a mutable memtable that the newest WAL does not feed. */
  lemma StaleFlushUndoesRotation(wal: u32, wal1: u32, wal2: u32) returns (run: seq<State>)
    ensures IsRun(run, wal) && |run| == 11
    ensures var s := run[10]; s.feeds == [1, 2] && s.view == View(1, []) && s.rotation.NoRotation? && s.work.Idle?
  {
    var s0 := Init(wal);
    var s1, s2, s3 := Rotates(s0, wal1);
    assert s3.view == View(1, [0]) && s3.wals == [wal, wal1] && s3.feeds == [0, 1];
    var s4 := Capture(s3);
    assert s4.work == Captured([wal], [0]);
    var s5 := FlushCommit(s4);
    assert s5.wals == [wal1] && s5.feeds == [1];
    var s6 := FlushLoad(s5);
    var s7, s8, s9 := Rotates(s6, wal2);
    var s10 := FlushStore(s9);
    assert s10.view == View(1, []) && s10.feeds == [1, 2];
    assert Next(s3, s4) && Next(s4, s5) && Next(s5, s6) && Next(s9, s10);
    run := TenSteps(wal, s0, s1, s2, s3, s4, s5, s6, s7, s8, s9, s10);
  }

  lemma TenSteps(wal: u32, s0: State, s1: State, s2: State, s3: State, s4: State, s5: State, s6: State, s7: State,
                 s8: State, s9: State, s10: State) returns (run: seq<State>)
    requires s0 == Init(wal) && Next(s0, s1) && Next(s1, s2) && Next(s2, s3) && Next(s3, s4) && Next(s4, s5)
    requires Next(s5, s6) && Next(s6, s7) && Next(s7, s8) && Next(s8, s9) && Next(s9, s10)
    ensures IsRun(run, wal) && |run| == 11 && run[10] == s10
  {
    hide Next, Init;
    run := [s0, s1, s2, s3, s4, s5, s6, s7, s8, s9, s10];
  }

  /** And the other way round: a flush that falls between a rotation's load and store is undone, and the next
      flush would take the WAL being written for that of a memtable already flushed. */
  lemma StaleRotationRevivesFlushed(wal: u32, wal1: u32, wal2: u32) returns (run: seq<State>)
    ensures IsRun(run, wal) && |run| == 11
    ensures var s := run[10];
            s.feeds == [1, 2] && s.view == View(2, [0, 1]) && Capture(s).work == Captured([wal1, wal2], [0, 1])
  {
    var s0 := Init(wal);
    var s1, s2, s3 := Rotates(s0, wal1);
    assert s3.view == View(1, [0]) && s3.wals == [wal, wal1] && s3.feeds == [0, 1];
    var s4 := Capture(s3);
    assert s4.work == Captured([wal], [0]);
    var s5 := RotateCommit(s4, wal2);
    var s6 := RotateLoad(s5);
    var s7 := FlushCommit(s6);
    assert s7.wals == [wal1, wal2] && s7.feeds == [1, 2];
    var s8 := FlushLoad(s7);
    var s9 := FlushStore(s8);
    var s10 := RotateStore(s9);
    assert s10.view == View(2, [0, 1]);
    assert Next(s3, s4) && Next(s4, s5) && Next(s5, s6) && Next(s6, s7) && Next(s7, s8) && Next(s8, s9)
           && Next(s9, s10);
    run := TenSteps(wal, s0, s1, s2, s3, s4, s5, s6, s7, s8, s9, s10);
  }

  // --- WAL ids ---

  /** The manifest after k rotations. */
  function RotateTimes(m: Manifest, k: nat): Manifest
    requires m.nextWalId < 0x1_0000_0000
    ensures RotateTimes(m, k).nextWalId == m.nextWalId
  {
    if k == 0 then m
    else
      var r := ManifestCommit.Mutate(RotateTimes(m, k - 1), ManifestCommit.Rotation);
      r.value
  }

  predicate Distinct<T(==)>(xs: seq<T>) {
    forall i, j :: 0 <= i < j < |xs| ==> xs[i] != xs[j]
  }

  lemma {:induction false} RotateTimesAppends(m: Manifest, k: nat)
    requires m.nextWalId < 0x1_0000_0000
    ensures RotateTimes(m, k).wals == m.wals + seq(k, _ => m.nextWalId)
  {
    if k > 0 {
      RotateTimesAppends(m, k - 1);
    }
  }

  /** The next WAL id is read but never advanced: active WALs have distinct ids for one rotation, and share
      one id from the second on. */
  lemma WalIdsDistinctIffOneRotation(m: Manifest, k: nat)
    requires m.nextWalId < 0x1_0000_0000 && Distinct(m.wals) && forall w :: w in m.wals ==> w < m.nextWalId
    ensures Distinct(RotateTimes(m, k).wals) <==> k <= 1
  {
    RotateTimesAppends(m, k);
    var n, wals := |m.wals|, RotateTimes(m, k).wals;
    if k > 1 {
      assert wals[n] == wals[n + 1];
    } else {
      forall i, j | 0 <= i < j < |wals| ensures wals[i] != wals[j] {
        assert i < n && m.wals[i] in m.wals;
      }
    }
  }
}
