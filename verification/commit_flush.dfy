/** A flush's commit, from the manifests committed to what readers see and what recovery finds. */
module FlushCommits {
  import opened Codec
  import opened Entries
  import opened Manifests
  import opened ManifestCommit
  import Levels
  import Levelled = Compaction
  import Flushing
  import Publication
  import Restart
  import Retention

  /** The flush's side of it, with the WALs it captured, drops just what the committed manifest has dropped. */
  lemma PublishedFlush(run: seq<State>, m: Manifest, updaters: nat, i: nat, e: nat, files: Level, p: Publication.State)
    requires IsRun(run, m, updaters) && i < |run| && e < |run[i].edits| && Publication.Inv(p) && p.work.Captured?
    requires run[i].edits[e] == Flush(files, p.work.wals)
    ensures |run[i].chain| == |run[i].edits| + 1
    ensures p.wals == run[i].chain[e].wals ==>
              Publication.FlushCommit(p).wals == run[i].chain[e + 1].wals && !Publication.FlushCommit(p).mismatched
  {
    hide IsRun;
    CommittedFlush(run, m, updaters, i, e, files, p.work.wals);
  }

  /** A rotation's adds just what the committed manifest has added. */
  lemma PublishedRotation(run: seq<State>, m: Manifest, updaters: nat, i: nat, e: nat, p: Publication.State)
    requires IsRun(run, m, updaters) && i < |run| && e < |run[i].edits| && run[i].edits[e].Rotation?
    requires |run[i].chain| == |run[i].edits| + 1 ==> run[i].chain[e].nextWalId < 0x1_0000_0000
    ensures |run[i].chain| == |run[i].edits| + 1
    ensures p.wals == run[i].chain[e].wals ==>
              Publication.RotateCommit(p, run[i].chain[e].nextWalId).wals == run[i].chain[e + 1].wals
  {
    hide IsRun;
    CommittedRotation(run, m, updaters, i, e);
  }

  /** Recovering from the manifest before a committed flush and from the one after it gives the same entries exactly
      when its files hold nothing that was not recovered before, and every record of a WAL whose id is gone is in a
      table or in a WAL still named. */
  lemma CommittedFlushKeepsRecoveryIff(run: seq<State>, m: Manifest, updaters: nat, i: nat, e: nat, wals: seq<u32>,
                                       log: map<u32, seq<Entry>>, levels: Levelled.DbLevels, out: Levels.Files)
    requires IsRun(run, m, updaters) && i < |run| && e < |run[i].edits|
    requires run[i].edits[e] == Flush(Levelled.Metas(out), wals)
    ensures |run[i].chain| == |run[i].edits| + 1
    ensures |wals| <= |run[i].chain[e].wals|
    ensures Levelled.MetaLevels(levels) == run[i].chain[e].levels ==>
              forall n: nat :: Levelled.MetaLevelAt(run[i].chain[e + 1].levels, n)
                               == Levelled.Metas(Levelled.LevelAt(Flushing.WithL0(levels, out), n))
    ensures var was, now := run[i].chain[e], run[i].chain[e + 1];
            Retention.Recovered(log, now.wals, Flushing.WithL0(levels, out))
            == Retention.Recovered(log, was.wals, levels)
            <==> && Retention.Covered(log, was.wals, levels, |wals|, out)
                 && forall x :: x in Levels.Bag(out) ==> x in Retention.Recovered(log, was.wals, levels)
  {
    hide IsRun, Retention.Recovered, Retention.Covered, Levels.Bag, Flushing.WithL0, Levelled.MetaLevelAt,
         Levelled.LevelAt;
    CommittedFlush(run, m, updaters, i, e, Levelled.Metas(out), wals);
    var was, now := run[i].chain[e], run[i].chain[e + 1];
    assert now.wals == was.wals[|wals|..];
    Retention.FlushKeepsRecoveryIff(log, was.wals, levels, |wals|, out);
    Flushing.WithL0Levels(levels, out);
    if Levelled.MetaLevels(levels) == was.levels {
      forall n: nat
        ensures Levelled.MetaLevelAt(now.levels, n) == Levelled.Metas(Levelled.LevelAt(Flushing.WithL0(levels, out), n))
      {
        Levelled.MetasAt(levels, n);
        if n == 0 { MetasAppend(Levelled.LevelAt(levels, 0), out); }
      }
    }
  }

  lemma MetasAppend(a: Levels.Files, b: Levels.Files)
    ensures Levelled.Metas(a + b) == Levelled.Metas(a) + Levelled.Metas(b)
  {}

  // --- What a collection sees of it ---

  lemma NamesAre(m: Manifest)
    ensures Restart.NamesOf(m).wals == m.wals
    ensures forall f :: f in Restart.NamesOf(m).ssts
                        <==> exists n: nat, x :: x in Levelled.MetaLevelAt(m.levels, n) && x.fileId == f
  {
    forall f | f in Restart.NamesOf(m).ssts
      ensures exists n: nat, x :: x in Levelled.MetaLevelAt(m.levels, n) && x.fileId == f
    {
      var l, x :| l in m.levels && x in l && x.fileId == f;
      var n :| 0 <= n < |m.levels| && m.levels[n] == l;
      assert x in Levelled.MetaLevelAt(m.levels, n);
    }
    forall n: nat, x | x in Levelled.MetaLevelAt(m.levels, n) ensures x.fileId in Restart.NamesOf(m).ssts {
      assert m.levels[n] in m.levels;
    }
  }

  /** A committed rotation names what the collector's rotation step says. */
  lemma RotationIsNamed(cand: Manifest, base: Manifest, s: Retention.State)
    requires EditOf(cand, Rotation, base) && s.kept != [] && Restart.NamesOf(base) == Retention.Newest(s)
    requires s.newWal.Some? && s.newWal.value == base.nextWalId
    ensures Restart.NamesOf(cand) == Retention.Newest(Retention.CommitRotation(s))
  {
    RotationIs(cand, base);
    assert cand.wals == base.wals + [base.nextWalId];
  }

  /** Committed flushes and compactions, whose files are on disk, are among its commits of tables. */
  lemma TablesAreNamed(cand: Manifest, op: Op, base: Manifest, s: Retention.State)
    requires EditOf(cand, op, base) && s.kept != [] && Restart.NamesOf(base) == Retention.Newest(s)
    requires match op
             case Flush(files, _) => forall x :: x in files ==> x.fileId in s.newSsts
             case Compaction(_, _, _, out) => forall x :: x in out ==> x.fileId in s.newSsts
             case Rotation => false
    ensures Retention.MayCommit(s, Restart.NamesOf(cand))
  {
    hide EditOf, Levelled.MetaLevelAt;
    NamesAre(cand);
    NamesAre(base);
    match op
    case Flush(files, wals) =>
      FlushIs(cand, files, wals, base);
      forall f | f in Restart.NamesOf(cand).ssts ensures f in Retention.Newest(s).ssts + s.newSsts {
        var n: nat, x :| x in Levelled.MetaLevelAt(cand.levels, n) && x.fileId == f;
        assert x in files || x in Levelled.MetaLevelAt(base.levels, n);
      }
    case Compaction(n, source, target, out) =>
      CompactionIs(cand, n, source, target, out, base);
      forall f | f in Restart.NamesOf(cand).ssts ensures f in Retention.Newest(s).ssts + s.newSsts {
        var m: nat, x :| x in Levelled.MetaLevelAt(cand.levels, m) && x.fileId == f;
        assert x in out || x in Levelled.MetaLevelAt(base.levels, m);
      }
  }
}
