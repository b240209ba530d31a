/** A compaction's commit against the rotations that were committed since it chose its files. */
module CompactionCommits {
  import opened Codec
  import opened Entries
  import opened Manifests
  import opened Levels
  import opened ManifestCommit
  import Levelled = Compaction
  import TableIds

  lemma {:induction false} RotationsKeepLevels(chain: seq<Manifest>, edits: seq<Op>, i: nat, j: nat)
    requires Chained(chain, edits) && i <= j < |chain|
    requires forall e :: i <= e < j ==> edits[e].Rotation?
    ensures chain[j].levels == chain[i].levels && chain[i].wals <= chain[j].wals
  {
    if i < j {
      RotationsKeepLevels(chain, edits, i, j - 1);
      assert EditOf(chain[j - 1 + 1], edits[j - 1], chain[j - 1]);
    }
  }

  /** One caller's step that commits a compaction of level n. */
  ghost predicate CommitsCompaction(s: State, s': State, u: nat, n: nat, plan: Levelled.Plan, out: Files)
    requires plan.Plan?
  {
    && Commits(s, u) && s' == Commit(s, u)
    && s.phases[u].job.op == Compaction(n, Ids(plan.source), Ids(plan.target), Levelled.Metas(out))
  }

  /** The committed manifest is the edit of the one before it. */
  lemma CommittedEdit(s: State, u: nat)
    requires Inv(s) && Commits(s, u)
    ensures |Commit(s, u).chain| == |s.chain| + 1 && s.chain != []
    ensures EditOf(Commit(s, u).cur, s.phases[u].job.op, s.chain[|s.chain| - 1])
  {
    hide EditOf, SameLists, Chained;
    SameListsBack(s, u);
    SameEdit(s.phases[u].draft.cand, s.phases[u].job.op, s.phases[u].draft.base, s.chain[|s.chain| - 1]);
    CommitMoves(s, u);
  }

  lemma LastLevels(s: State)
    requires Inv(s)
    ensures |s.chain| == |s.edits| + 1
    ensures s.chain[|s.edits|].levels == s.cur.levels && s.chain[|s.edits|].wals == s.cur.wals
  {
    hide EditOf, PhaseOk;
  }

  /** The levels committed are those chosen from, edited, and no WAL rotated in between is lost. */
  lemma LevelsCommitted(run: seq<State>, m: Manifest, updaters: nat, a: nat, b: nat, u: nat,
                        levels: Levelled.DbLevels, n: nat, out: Files)
    requires IsRun(run, m, updaters) && a <= b < |run| - 1
    requires Levelled.MetaLevels(levels) == run[a].cur.levels && Levelled.Pick(levels, n).Plan?
    requires CommitsCompaction(run[b], run[b + 1], u, n, Levelled.Pick(levels, n), out)
    requires forall e :: |run[a].edits| <= e < |run[b].edits| ==> run[b].edits[e].Rotation?
    ensures run[b + 1].cur.levels == Levelled.MetaLevels(Levelled.Install(levels, n, Levelled.Pick(levels, n), out))
    ensures run[b + 1].cur.wals == run[b].cur.wals && run[a].cur.wals <= run[b + 1].cur.wals
  {
    hide Next, Init, SameLists, Inv, Levelled.Pick, Levelled.MetaLevels, Levelled.Replace, Levelled.EditLevels,
         Levelled.Metas, Ids;
    hide CommitsCompaction, EditOf, Chained, Commit, Commits, Levelled.Install;
    CommitsAreSerializable(run, m, updaters, a);
    CommitsAreSerializable(run, m, updaters, b);
    RunGrows(run, m, updaters, a, b);
    LastLevels(run[a]);
    LastLevels(run[b]);
    RotationsKeepLevels(run[b].chain, run[b].edits, |run[a].edits|, |run[b].edits|);
    assert run[b].cur.levels == run[a].cur.levels;
    assert run[a].cur.wals <= run[b].cur.wals;
    InstalledBy(run[b], run[b + 1], u, levels, n, out);
  }

  /** A commit of a compaction, made from levels that are still the current ones. */
  lemma InstalledBy(s: State, s': State, u: nat, levels: Levelled.DbLevels, n: nat, out: Files)
    requires Inv(s) && s.cur.levels == Levelled.MetaLevels(levels) && Levelled.Pick(levels, n).Plan?
    requires CommitsCompaction(s, s', u, n, Levelled.Pick(levels, n), out)
    ensures s'.cur.levels == Levelled.MetaLevels(Levelled.Install(levels, n, Levelled.Pick(levels, n), out))
    ensures s'.cur.wals == s.cur.wals
  {
    hide Levelled.MetaLevels, Levelled.Replace, Levelled.EditLevels, Levelled.Metas, Levelled.Pick, Inv, Commit, Ids;
    var plan := Levelled.Pick(levels, n);
    CommittedEdit(s, u);
    LastLevels(s);
    Levelled.EditIsReplace(levels, n, Ids(plan.source), Ids(plan.target), out);
  }

  /** A compaction commits, however many rotations were committed between its choice of files and its own
      commit: readers get the installed levels, well formed, holding exactly the entries they held. */
  lemma FreshUnderRotations(run: seq<State>, m: Manifest, updaters: nat, a: nat, b: nat, u: nat,
                            levels: Levelled.DbLevels, n: nat, merged: seq<Entry>, out: Files)
    requires IsRun(run, m, updaters) && a <= b < |run| - 1
    requires Levelled.MetaLevels(levels) == run[a].cur.levels && Levelled.Pick(levels, n).Plan?
    requires CommitsCompaction(run[b], run[b + 1], u, n, Levelled.Pick(levels, n), out)
    requires forall e :: |run[a].edits| <= e < |run[b].edits| ==> run[b].edits[e].Rotation?
    requires Levelled.WellFormed(levels) && Levelled.UniqueKeys(Levelled.Total(levels))
    requires var plan := Levelled.Pick(levels, n);
             Sorted(merged) && multiset(merged) == Bag(plan.source) + Bag(plan.target)
    requires Levelled.OutputOf(out, merged) && Levelled.FreshIds(Levelled.KeptBelow(levels, n), out)
    ensures var installed := Levelled.Install(levels, n, Levelled.Pick(levels, n), out);
            && run[b + 1].cur.levels == Levelled.MetaLevels(installed)
            && Levelled.Total(installed) == Levelled.Total(levels) && Levelled.WellFormed(installed)
  {
    hide IsRun, Levelled.Pick, Levelled.WellFormed, Levelled.Total, Levelled.Install, Levelled.OutputOf;
    hide CommitsCompaction, Levelled.MetaLevels, Bag, Sorted, Levelled.UniqueKeys, Levelled.FreshIds;
    LevelsCommitted(run, m, updaters, a, b, u, levels, n, out);
    Levelled.CompactionKeeps(levels, n, merged, out);
  }

  /** The files' ids are those handed out from the given place on; every kept file of the level below has one from
      before the run, or one handed out earlier. */
  predicate TookIds(s: State, first: nat, at: nat, kept: Files, out: Files) {
    && at + |out| <= |s.handed|
    && (forall i :: 0 <= i < |out| ==> out[i].meta.fileId == s.handed[at + i])
    && forall f :: f in kept ==> f.meta.fileId < first || exists h :: 0 <= h < at && s.handed[h] == f.meta.fileId
  }

  lemma TookFreshIds(s: State, first: nat, at: nat, kept: Files, out: Files)
    requires TookIds(s, first, at, kept, out)
    requires TableIds.Distinct(s.handed) && forall h :: 0 <= h < |s.handed| ==> s.handed[h] >= first
    ensures Levelled.FreshIds(kept, out)
  {
    forall i | 0 <= i < |out| ensures out[i].meta.fileId == s.handed[at + i] >= first {}
  }

  /** Where no id was reserved after a commit with an older snapshot, and so all ids handed out differ, the ids need no
      assumption: a compaction commits, however many rotations were committed between its choice of files and its own
      commit, and readers get the installed levels, well formed, holding exactly the entries they held. */
  lemma CompactionUnderRotations(run: seq<State>, m: Manifest, updaters: nat, a: nat, b: nat, u: nat,
                                 levels: Levelled.DbLevels, n: nat, merged: seq<Entry>, out: Files, at: nat)
    requires IsRun(run, m, updaters) && a <= b < |run| - 1 && !TableIds.HasReserved(run, b)
    requires Levelled.MetaLevels(levels) == run[a].cur.levels && Levelled.Pick(levels, n).Plan?
    requires CommitsCompaction(run[b], run[b + 1], u, n, Levelled.Pick(levels, n), out)
    requires forall e :: |run[a].edits| <= e < |run[b].edits| ==> run[b].edits[e].Rotation?
    requires Levelled.WellFormed(levels) && Levelled.UniqueKeys(Levelled.Total(levels))
    requires var plan := Levelled.Pick(levels, n);
             Sorted(merged) && multiset(merged) == Bag(plan.source) + Bag(plan.target)
    requires Levelled.OutputOf(out, merged)
    requires TookIds(run[b], m.nextSstableId, at, Levelled.KeptBelow(levels, n), out)
    ensures var installed := Levelled.Install(levels, n, Levelled.Pick(levels, n), out);
            && run[b + 1].cur.levels == Levelled.MetaLevels(installed)
            && Levelled.Total(installed) == Levelled.Total(levels) && Levelled.WellFormed(installed)
  {
    hide IsRun, Levelled.Pick, Levelled.WellFormed, Levelled.Total, Levelled.Install, Levelled.OutputOf;
    hide CommitsCompaction, Levelled.MetaLevels, Bag, Sorted, Levelled.UniqueKeys, Levelled.FreshIds;
    hide TableIds.HasReserved, Levelled.KeptBelow;
    TableIds.IdsDistinctIff(run, m, updaters, b);
    forall h | 0 <= h < |run[b].handed| ensures run[b].handed[h] >= m.nextSstableId {
      TableIds.IdsAreNew(run, m, updaters, b, h);
    }
    TookFreshIds(run[b], m.nextSstableId, at, Levelled.KeptBelow(levels, n), out);
    FreshUnderRotations(run, m, updaters, a, b, u, levels, n, merged, out);
  }
}
