/** The manifest files on disk: whose content lands under a committed version. */
module ManifestFiles {
  import opened Codec
  import opened Manifests
  import opened ManifestCommit

  /** The last write of v's temporary file is u's own, or the same bytes. */
  predicate OwnLast(stamp: Stamp, own: Content) {
    stamp.last.writer == stamp.caller || stamp.last.content == own
  }

  /** The temporary files are what was last written to them, and every waiting caller wrote its own candidate. */
  ghost predicate TmpOk(s: State) {
    && (forall v :: v in s.tmp ==> v in s.wrote && s.tmp[v] == s.wrote[v].content)
    && (forall u :: 0 <= u < |s.phases| && s.phases[u].Written? ==> WroteOwn(s.phases[u].draft.cand, s.wrote, u))
  }

  ghost predicate WroteOwn(cand: Manifest, wrote: map<nat, Write>, u: nat) {
    cand.version in wrote && (wrote[cand.version].writer == u ==> wrote[cand.version].content == ContentOf(cand))
  }

  /** Version c's file is what was last written under its temporary name; its own if the committer wrote last. */
  ghost predicate FileOk(s: State, c: nat)
    requires c < |s.chain| == |s.stamps| + 1
  {
    && s.chain[c].version in s.files
    && if c == 0 then s.files[s.chain[c].version] == ContentOf(s.chain[c])
       else
         var stamp := s.stamps[c - 1];
         && s.files[s.chain[c].version] == stamp.last.content
         && (stamp.last.writer == stamp.caller ==> stamp.last.content == ContentOf(s.chain[c]))
  }

  ghost predicate FilesOk(s: State) {
    && |s.chain| == |s.stamps| + 1
    && forall c :: 0 <= c < |s.chain| ==> FileOk(s, c)
  }

  lemma CommitTmp(s: State, u: nat)
    requires TmpOk(s) && u < |s.phases| && s.phases[u].Written?
    ensures TmpOk(Commit(s, u))
  {
    var s' := Commit(s, u);
    hide WroteOwn;
    forall x | 0 <= x < |s'.phases| && s'.phases[x].Written?
      ensures WroteOwn(s'.phases[x].draft.cand, s'.wrote, x)
    {
      assert s'.phases[x] == s.phases[x];
    }
  }

  lemma WriteTmpOk(s: State, u: nat)
    requires TmpOk(s) && u < |s.phases| && s.phases[u].Mutated?
    ensures TmpOk(WriteTmp(s, u))
  {
    hide ContentOf;
    var s' := WriteTmp(s, u);
    forall x | 0 <= x < |s'.phases| && s'.phases[x].Written?
      ensures WroteOwn(s'.phases[x].draft.cand, s'.wrote, x)
    {
      if x != u {
        assert s'.phases[x] == s.phases[x];
        assert WroteOwn(s.phases[x].draft.cand, s.wrote, x);
      }
    }
  }

  lemma CommitFiles(s: State, u: nat)
    requires Inv(s) && TmpOk(s) && FilesOk(s) && u < |s.phases| && s.phases[u].Written?
    ensures FilesOk(Commit(s, u))
  {
    hide Mutate, ContentOf, Inv;
    var s', cand := Commit(s, u), s.phases[u].draft.cand;
    if Commits(s, u) {
      VersionOfEdit(s, u);
      assert WroteOwn(cand, s.wrote, u);
      forall c | 0 <= c < |s'.chain| ensures FileOk(s', c) {
        if c < |s.chain| {
          assert FileOk(s, c);
          EarlierVersion(s, c);
          assert s'.chain[c] == s.chain[c] && (c > 0 ==> s'.stamps[c - 1] == s.stamps[c - 1]);
        }
      }
    } else {
      assert s'.files == s.files && s'.chain == s.chain && s'.stamps == s.stamps;
      forall c | 0 <= c < |s'.chain| ensures FileOk(s', c) {
        assert FileOk(s, c);
      }
    }
  }

  lemma EarlierVersion(s: State, c: nat)
    requires Inv(s) && c < |s.chain|
    ensures s.chain[c].version <= s.cur.version
  {
    hide EditOf, PhaseOk;
    VersionsClimb(s.chain, s.edits, c);
  }

  lemma NextFiles(s: State, s': State)
    requires Inv(s) && TmpOk(s) && FilesOk(s) && Next(s, s')
    ensures TmpOk(s') && FilesOk(s')
  {
    hide Inv, Snap, WriteTmp, Commit, WroteOwn;
    if exists u :: 0 <= u < |s.phases| && s.phases[u].Written? && s' == Commit(s, u) {
      var u :| 0 <= u < |s.phases| && s.phases[u].Written? && s' == Commit(s, u);
      hide *;
      CommitTmp(s, u);
      CommitFiles(s, u);
    } else if exists u :: 0 <= u < |s.phases| && s.phases[u].Mutated? && s' == WriteTmp(s, u) {
      var u :| 0 <= u < |s.phases| && s.phases[u].Mutated? && s' == WriteTmp(s, u);
      WriteTmpOk(s, u);
      WriteKeepsFiles(s, u);
    } else {
      StepWrites(s, s');
      SameFiles(s, s');
    }
  }

  lemma WriteKeepsFiles(s: State, u: nat)
    requires FilesOk(s) && u < |s.phases| && s.phases[u].Mutated?
    ensures FilesOk(WriteTmp(s, u))
  {
    SameFiles(s, WriteTmp(s, u));
  }

  lemma SameFiles(s: State, s': State)
    requires FilesOk(s) && s'.files == s.files && s'.chain == s.chain && s'.stamps == s.stamps
    ensures FilesOk(s')
  {
    hide ContentOf;
    forall c | 0 <= c < |s'.chain| ensures FileOk(s', c) {
      assert FileOk(s, c);
    }
  }

  /** A step that neither writes nor commits touches no file. */
  lemma StepWrites(s: State, s': State)
    requires Next(s, s')
    requires forall u :: 0 <= u < |s.phases| && s.phases[u].Mutated? ==> s' != WriteTmp(s, u)
    requires forall u :: 0 <= u < |s.phases| && s.phases[u].Written? ==> s' != Commit(s, u)
    ensures s'.tmp == s.tmp && s'.wrote == s.wrote && s'.files == s.files && s'.chain == s.chain
            && s'.stamps == s.stamps
    ensures |s'.phases| == |s.phases| && forall x :: 0 <= x < |s.phases| && s'.phases[x].Written? ==>
              s'.phases[x] == s.phases[x]
  {
    hide WriteTmp, Commit, Mutate;
  }

  lemma {:induction false} RunFiles(run: seq<State>, m: Manifest, updaters: nat, i: nat)
    requires IsRun(run, m, updaters) && i < |run|
    ensures TmpOk(run[i]) && FilesOk(run[i])
  {
    if i > 0 {
      hide Next, Inv, TmpOk, FilesOk;
      RunFiles(run, m, updaters, i - 1);
      CommitsAreSerializable(run, m, updaters, i - 1);
      assert Next(run[i - 1], run[i]);
      NextFiles(run[i - 1], run[i]);
    }
  }

  /** In every run, the file of a committed version holds that version exactly when the last caller to write its
      temporary file before the rename was the one committing, or wrote the same content. */
  lemma FileIsOwnIff(run: seq<State>, m: Manifest, updaters: nat, i: nat, c: nat)
    requires IsRun(run, m, updaters) && i < |run| && c < |run[i].chain|
    ensures run[i].chain[c].version in run[i].files && |run[i].chain| == |run[i].stamps| + 1
    ensures run[i].files[run[i].chain[c].version] == ContentOf(run[i].chain[c]) <==>
              c == 0 || OwnLast(run[i].stamps[c - 1], ContentOf(run[i].chain[c]))
  {
    hide IsRun, ContentOf;
    RunFiles(run, m, updaters, i);
    assert FileOk(run[i], c);
  }

  /** With a single caller no two writers ever meet: every file is its version's. */
  lemma OneCallerIsFaithful(run: seq<State>, m: Manifest, i: nat, c: nat)
    requires IsRun(run, m, 1) && i < |run| && c < |run[i].chain|
    ensures run[i].chain[c].version in run[i].files
    ensures run[i].files[run[i].chain[c].version] == ContentOf(run[i].chain[c])
  {
    hide IsRun, ContentOf, OwnLast;
    FileIsOwnIff(run, m, 1, i, c);
    if c > 0 {
      RunAlone(run, m, i);
      OwnIfSame(run[i].stamps[c - 1], ContentOf(run[i].chain[c]));
    }
  }

  lemma OwnIfSame(stamp: Stamp, own: Content)
    ensures stamp.last.writer == stamp.caller ==> OwnLast(stamp, own)
  {}

  ghost predicate Alone(s: State) {
    && |s.phases| == 1 && (forall v :: v in s.wrote ==> s.wrote[v].writer == 0)
    && (forall v :: v in s.tmp ==> v in s.wrote)
    && forall k :: 0 <= k < |s.stamps| ==> s.stamps[k].caller == s.stamps[k].last.writer == 0
  }

  lemma AloneCommit(s: State)
    requires Alone(s) && s.phases[0].Written?
    ensures Alone(Commit(s, 0))
  {}

  lemma AloneNext(s: State, s': State)
    requires Alone(s) && Next(s, s')
    ensures Alone(s')
  {
    hide Snap, WriteTmp, Commit, Alone;
    assert |s.phases| == 1 by { hide *; AloneSize(s); }
    if s.phases[0].Written? && s' == Commit(s, 0) {
      AloneCommit(s);
    } else if s.phases[0].Mutated? && s' == WriteTmp(s, 0) {
      AloneWrite(s);
    } else {
      StepWrites(s, s');
      AloneSame(s, s');
    }
  }

  lemma AloneSize(s: State)
    requires Alone(s)
    ensures |s.phases| == 1
  {}

  lemma AloneWrite(s: State)
    requires Alone(s) && s.phases[0].Mutated?
    ensures Alone(WriteTmp(s, 0))
  {}

  lemma AloneSame(s: State, s': State)
    requires Alone(s) && s'.wrote == s.wrote && s'.tmp == s.tmp && s'.stamps == s.stamps && |s'.phases| == 1
    ensures Alone(s')
  {}

  lemma {:induction false} RunAlone(run: seq<State>, m: Manifest, i: nat)
    requires IsRun(run, m, 1) && i < |run|
    ensures Alone(run[i])
  {
    if i > 0 {
      hide Next, Alone;
      RunAlone(run, m, i - 1);
      assert Next(run[i - 1], run[i]);
      AloneNext(run[i - 1], run[i]);
    }
  }

  /** It does happen: a rotation and a compaction at the same version share the name, and the version
      committed by one lands on disk with the other's content. */
  lemma TemporaryFilesClash(m: Manifest, op: Op) returns (run: seq<State>)
    requires m.nextWalId < 0x1_0000_0000 && op.Compaction?
    ensures IsRun(run, m, 2) && |run| == 8
    ensures var s := run[7];
            && s.cur.version == m.version + 1 && s.cur.wals == m.wals + [m.nextWalId] && s.cur.levels == m.levels
            && m.version + 1 in s.files
            && s.files[m.version + 1].wals == m.wals
               && Some(m.(levels := s.files[m.version + 1].levels)) == Mutate(m, op)
  {
    hide Inv, Mutate, Snap, WriteTmp, Commit;
    var s0 := Init(m, 2);
    var s1 := Begin(s0, 0, Rotation);
    var s2 := Begin(s1, 1, op);
    var s3 := Snap(s2, 0);
    BothSnap(m, op, s2);
    var s4 := Snap(s3, 1);
    var s5 := WriteTmp(s4, 0);
    ClashEnds(m, op, s4);
    var s6 := WriteTmp(s5, 1);
    var s7 := Commit(s6, 0);
    run := [s0, s1, s2, s3, s4, s5, s6, s7];
    assert UpdaterStep(s2, 0, s3) && UpdaterStep(s3, 1, s4) && UpdaterStep(s4, 0, s5);
    assert UpdaterStep(s5, 1, s6) && UpdaterStep(s6, 0, s7);
    RunOf(m, 2, run);
  }

  lemma RunOf(m: Manifest, updaters: nat, run: seq<State>)
    requires |run| == 8 && run[0] == Init(m, updaters)
    requires Next(run[0], run[1]) && Next(run[1], run[2]) && Next(run[2], run[3]) && Next(run[3], run[4])
    requires Next(run[4], run[5]) && Next(run[5], run[6]) && Next(run[6], run[7])
    ensures IsRun(run, m, updaters)
  {
    hide Next, Init;
  }

  function Rotated(m: Manifest): Manifest
    requires m.nextWalId < 0x1_0000_0000
  {
    m.(wals := m.wals + [m.nextWalId], version := m.version + 1)
  }

  function Edited(m: Manifest, op: Op): (r: Manifest)
    requires op.Compaction?
    ensures r.wals == m.wals && Some(m.(levels := r.levels)) == Mutate(m, op)
  {
    Mutate(m, op).value.(version := m.version + 1)
  }

  /** Both callers having cloned the same version. */
  ghost function Cloned(m: Manifest, op: Op): State
    requires m.nextWalId < 0x1_0000_0000 && op.Compaction?
  {
    Init(m, 2).(phases := [Mutated(Job(Rotation, 1, 0), Draft(m, Rotated(m), 0)),
                           Mutated(Job(op, 1, 0), Draft(m, Edited(m, op), 0))])
  }

  lemma BothSnap(m: Manifest, op: Op, s: State)
    requires m.nextWalId < 0x1_0000_0000 && op.Compaction? && s == Begin(Begin(Init(m, 2), 0, Rotation), 1, op)
    ensures s.phases[0].Snapping? && |Snap(s, 0).phases| == 2 && Snap(s, 0).phases[1].Snapping?
    ensures Snap(Snap(s, 0), 1) == Cloned(m, op)
  {
    hide Levelled.EditLevels;
    var s3 := Snap(s, 0);
    assert s3.phases == [Mutated(Job(Rotation, 1, 0), Draft(m, Rotated(m), 0)), Snapping(Job(op, 1, 0))];
  }

  lemma ClashEnds(m: Manifest, op: Op, s: State)
    requires m.nextWalId < 0x1_0000_0000 && op.Compaction? && s == Cloned(m, op)
    ensures |WriteTmp(s, 0).phases| == 2 && WriteTmp(s, 0).phases[1] == s.phases[1] && WriteTmp(s, 0).phases[0].Written?
    ensures var s6 := WriteTmp(WriteTmp(s, 0), 1);
            && |s6.phases| == 2 && s6.phases[0].Written?
            && Commit(s6, 0).cur == Rotated(m)
            && m.version + 1 in Commit(s6, 0).files && Commit(s6, 0).files[m.version + 1] == ContentOf(Edited(m, op))
  {
    hide Edited, Commit, ContentOf, Mutate, Rotated;
    var s5 := WriteTmp(s, 0);
    assert s5.phases == [Written(s.phases[0].job, s.phases[0].draft), s.phases[1]];
    EditedVersion(m, op);
    var s6 := WriteTmp(s5, 1);
    assert s6.phases[0] == s5.phases[0] && s6.cur == m;
    assert Commits(s6, 0);
    Renames(s6, 0);
  }

  lemma Renames(s: State, u: nat)
    requires Commits(s, u)
    ensures var v := s.phases[u].draft.cand.version;
            Commit(s, u).cur == s.phases[u].draft.cand && v in Commit(s, u).files && Commit(s, u).files[v] == s.tmp[v]
  {}

  lemma EditedVersion(m: Manifest, op: Op)
    requires m.nextWalId < 0x1_0000_0000 && op.Compaction?
    ensures Edited(m, op).version == m.version + 1 && Rotated(m).version == m.version + 1
  {}
}
