/** The table ids handed out while manifests are committed. */
module TableIds {
  import opened Codec
  import opened Manifests
  import opened ManifestCommit

  /** A step that commits a manifest whose snapshot was taken before an id already handed out. */
  ghost predicate Loses(s: State, s': State) {
    exists u: nat :: Commits(s, u) && s' == Commit(s, u) && s.phases[u].draft.known < |s.handed|
  }

  /** Among the first i steps. */
  ghost predicate HasLost(run: seq<State>, i: nat)
    requires i < |run|
  {
    exists j :: 0 <= j < i && Loses(run[j], run[j + 1])
  }

  /** Among the first i steps, an id was reserved after a losing commit. */
  ghost predicate HasReserved(run: seq<State>, i: nat)
    requires i < |run|
  {
    exists k :: 0 <= k < i && HasLost(run, k) && run[k + 1] == Reserve(run[k])
  }

  predicate Distinct(ids: seq<nat>) {
    forall i, j :: 0 <= i < j < |ids| ==> ids[i] != ids[j]
  }

  /** Counting up from the first. */
  predicate Consecutive(ids: seq<nat>, first: nat) {
    forall i :: 0 <= i < |ids| ==> ids[i] == first + i
  }

  /** While no version has passed since a snapshot, the counter has moved by the ids handed out since. */
  ghost predicate DraftCounts(p: Phase, s: State, first: nat) {
    p.Mutated? || p.Written? ==>
      && p.draft.cand.nextSstableId == p.draft.base.nextSstableId
      && p.draft.base.nextSstableId >= first && p.draft.known <= |s.handed|
      && (p.draft.base.version == s.cur.version ==>
            s.cur.nextSstableId - p.draft.base.nextSstableId == |s.handed| - p.draft.known)
  }

  ghost predicate Counts(s: State, first: nat) {
    && s.cur.nextSstableId >= first
    && (forall i :: 0 <= i < |s.handed| ==> s.handed[i] >= first)
    && forall u :: 0 <= u < |s.phases| ==> DraftCounts(s.phases[u], s, first)
  }

  /** A commit moves the counter back by the ids handed out since its snapshot. */
  lemma CommitTakesBack(s: State, u: nat, first: nat)
    requires Counts(s, first) && Commits(s, u)
    ensures Commit(s, u).cur.nextSstableId == s.cur.nextSstableId - (|s.handed| - s.phases[u].draft.known)
    ensures Commit(s, u).cur.nextSstableId >= first && s.phases[u].draft.known <= |s.handed|
  {
    CommitMoves(s, u);
    assert DraftCounts(s.phases[u], s, first);
  }

  lemma CommitCounts(s: State, u: nat, first: nat)
    requires Inv(s) && Counts(s, first) && u < |s.phases| && s.phases[u].Written?
    ensures Counts(Commit(s, u), first)
  {
    hide Inv, Commit;
    CommitMoves(s, u);
    if Commits(s, u) {
      CommitTakesBack(s, u, first);
      VersionOfEdit(s, u);
    }
    var s' := Commit(s, u);
    forall x | 0 <= x < |s'.phases| ensures DraftCounts(s'.phases[x], s', first) {
      assert DraftCounts(s.phases[x], s, first);
      if x != u && (s.phases[x].Mutated? || s.phases[x].Written?) { VersionOfEdit(s, x); }
    }
  }

  lemma NextCounts(s: State, s': State, first: nat)
    requires Inv(s) && Counts(s, first) && Next(s, s')
    ensures Counts(s', first)
  {
    if exists u :: 0 <= u < |s.phases| && s.phases[u].Written? && s' == Commit(s, u) {
      var u :| 0 <= u < |s.phases| && s.phases[u].Written? && s' == Commit(s, u);
      hide *;
      CommitCounts(s, u, first);
    } else {
      hide Inv, Next, Commit;
      StepHands(s, s');
      forall x | 0 <= x < |s'.phases| ensures DraftCounts(s'.phases[x], s', first) {
        StepMoves(s, s', x);
        assert DraftCounts(s.phases[x], s, first);
      }
    }
  }

  /** A step hands out the counter's value and advances it, commits, or leaves both alone. */
  lemma StepHands(s: State, s': State)
    requires Next(s, s')
    ensures || s' == Reserve(s)
            || (exists u: nat :: Commits(s, u) && s' == Commit(s, u))
            || (s'.handed == s.handed && s'.cur == s.cur)
  {
    hide Snap, WriteTmp, Commit;
    if exists u :: 0 <= u < |s.phases| && UpdaterStep(s, u, s') {
      var u :| 0 <= u < |s.phases| && UpdaterStep(s, u, s');
      match s.phases[u]
      case Snapping(_) => SnapMoves(s, u);
      case Mutated(_, _) => WriteMoves(s, u);
      case Written(_, _) => CommitMoves(s, u);
      case _ =>
    }
  }

  lemma {:induction false} RunCounts(run: seq<State>, m: Manifest, updaters: nat, i: nat)
    requires IsRun(run, m, updaters) && i < |run|
    ensures Inv(run[i]) && Counts(run[i], m.nextSstableId)
  {
    CommitsAreSerializable(run, m, updaters, i);
    if i > 0 {
      hide Next, Inv, Counts;
      RunCounts(run, m, updaters, i - 1);
      assert Next(run[i - 1], run[i]);
      NextCounts(run[i - 1], run[i], m.nextSstableId);
    }
  }

  /** The ids so far, by what has happened: consecutive up to the counter; still consecutive, but with the
      counter among them; or with one of them twice. */
  ghost predicate Chronicle(s: State, first: nat, lost: bool, reserved: bool) {
    && (!reserved ==> Consecutive(s.handed, first))
    && (!lost ==> s.cur.nextSstableId == first + |s.handed|)
    && (lost && !reserved ==> first <= s.cur.nextSstableId < first + |s.handed|)
    && (reserved ==> lost && !Distinct(s.handed))
  }

  lemma StepChronicle(s: State, s': State, first: nat, lost: bool, reserved: bool)
    requires Counts(s, first) && Chronicle(s, first, lost, reserved) && Next(s, s')
    ensures Chronicle(s', first, lost || Loses(s, s'), reserved || (lost && s' == Reserve(s)))
  {
    hide Counts, Next, Commit;
    StepHands(s, s');
    if s' == Reserve(s) {
      ReserveChronicle(s, first, lost, reserved);
      assert !Loses(s, s') by { NotBoth(s, s'); }
    } else if exists u: nat :: Commits(s, u) && s' == Commit(s, u) {
      var u: nat :| Commits(s, u) && s' == Commit(s, u);
      CommitTakesBack(s, u, first);
      CommitMoves(s, u);
      assert s'.handed == s.handed;
      assert Loses(s, s') <==> s.phases[u].draft.known < |s.handed| by { OneCommitter(s, u, s', first); }
    } else {
      assert s'.handed == s.handed && s'.cur == s.cur;
    }
  }

  lemma ReserveChronicle(s: State, first: nat, lost: bool, reserved: bool)
    requires Chronicle(s, first, lost, reserved)
    ensures Chronicle(Reserve(s), first, lost, reserved || lost)
  {
    var s' := Reserve(s);
    if reserved {
      var i, j :| 0 <= i < j < |s.handed| && s.handed[i] == s.handed[j];
      assert s'.handed[i] == s'.handed[j];
    } else if lost {
      var k := s.cur.nextSstableId - first;
      assert s'.handed[k] == s'.handed[|s.handed|];
    }
  }

  lemma NotBoth(s: State, s': State)
    requires s' == Reserve(s)
    ensures !Loses(s, s')
  {
    hide Commit;
    forall u: nat | Commits(s, u) ensures s' != Commit(s, u) {
      CommitMoves(s, u);
      assert |s'.handed| == |s.handed| + 1;
    }
  }

  lemma OneCommitter(s: State, u: nat, s': State, first: nat)
    requires Counts(s, first) && Commits(s, u) && s' == Commit(s, u)
    ensures Loses(s, s') <==> s.phases[u].draft.known < |s.handed|
  {
    hide Counts, Commit;
    CommitTakesBack(s, u, first);
    if x: nat :| Commits(s, x) && s' == Commit(s, x) && s.phases[x].draft.known < |s.handed| {
      CommitTakesBack(s, x, first);
    }
  }

  lemma {:induction false} RunChronicle(run: seq<State>, m: Manifest, updaters: nat, i: nat)
    requires IsRun(run, m, updaters) && i < |run|
    ensures Chronicle(run[i], m.nextSstableId, HasLost(run, i), HasReserved(run, i))
  {
    hide Next, Inv, Counts, Reserve, Loses, Chronicle, HasLost, HasReserved, Init;
    if i == 0 {
      StartChronicle(run, m, updaters);
    } else {
      RunChronicle(run, m, updaters, i - 1);
      RunCounts(run, m, updaters, i - 1);
      assert Next(run[i - 1], run[i]);
      StepChronicle(run[i - 1], run[i], m.nextSstableId, HasLost(run, i - 1), HasReserved(run, i - 1));
      OneMore(run, i);
    }
  }

  lemma StartChronicle(run: seq<State>, m: Manifest, updaters: nat)
    requires run != [] && run[0] == Init(m, updaters)
    ensures Chronicle(run[0], m.nextSstableId, HasLost(run, 0), HasReserved(run, 0))
  {
    hide Loses, Reserve, Counts;
    assert !HasLost(run, 0) && !HasReserved(run, 0);
  }

  lemma OneMore(run: seq<State>, i: nat)
    requires 0 < i < |run|
    ensures HasLost(run, i) <==> HasLost(run, i - 1) || Loses(run[i - 1], run[i])
    ensures HasReserved(run, i) <==> HasReserved(run, i - 1) || (HasLost(run, i - 1) && run[i] == Reserve(run[i - 1]))
  {
    hide Loses, Reserve;
    assert run[i] == run[i - 1 + 1];
    if Loses(run[i - 1], run[i]) { assert Loses(run[i - 1], run[i - 1 + 1]); }
  }

  /** The ids handed out in a run are pairwise different exactly when none is reserved after a commit whose
      snapshot is older than an earlier reservation. */
  lemma IdsDistinctIff(run: seq<State>, m: Manifest, updaters: nat, i: nat)
    requires IsRun(run, m, updaters) && i < |run|
    ensures Distinct(run[i].handed) <==> !HasReserved(run, i)
  {
    hide IsRun, HasLost, HasReserved;
    RunChronicle(run, m, updaters, i);
  }

  /** None of them was ever in use when the run began. */
  lemma IdsAreNew(run: seq<State>, m: Manifest, updaters: nat, i: nat, k: nat)
    requires IsRun(run, m, updaters) && i < |run| && k < |run[i].handed|
    ensures run[i].handed[k] >= m.nextSstableId
  {
    hide IsRun, DraftCounts;
    RunCounts(run, m, updaters, i);
  }

  /** The failure is reachable with one caller: an id reserved while a rotation is under way is handed out
      again after its commit. */
  lemma IdHandedOutTwice(m: Manifest) returns (run: seq<State>)
    requires m.nextWalId < 0x1_0000_0000
    ensures IsRun(run, m, 1) && |run| == 7
    ensures run[6].handed == [m.nextSstableId, m.nextSstableId]
  {
    hide Inv;
    var s0 := Init(m, 1);
    var s1 := Begin(s0, 0, Rotation);
    var s2 := Snap(s1, 0);
    var s3 := Reserve(s2);
    var s4 := WriteTmp(s3, 0);
    var s5 := Commit(s4, 0);
    var s6 := Reserve(s5);
    run := [s0, s1, s2, s3, s4, s5, s6];
    assert UpdaterStep(s1, 0, s2) && UpdaterStep(s3, 0, s4) && UpdaterStep(s4, 0, s5);
    assert Next(s0, s1) && Next(s1, s2) && Next(s2, s3) && Next(s3, s4) && Next(s4, s5) && Next(s5, s6);
  }
}
