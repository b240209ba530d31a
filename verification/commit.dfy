/** The optimistic manifest commit: snapshot, mutate, write a temporary file, compare and swap, retry. */
module ManifestCommit {
  import opened Codec
  import opened Manifests
  import Levelled = Compaction

  /** The three structural changes, as edits of a manifest; files are removed by id. */
  datatype Op =
    | Rotation
    | Flush(files: Level, wals: seq<u32>)
    | Compaction(n: nat, source: set<u32>, target: set<u32>, out: Level)

  /** What is written to disk of a manifest. */
  datatype Content = Content(wals: seq<u32>, levels: seq<Level>)

  function ContentOf(m: Manifest): Content { Content(m.wals, m.levels) }

  function AddToL0(levels: seq<Level>, files: Level): seq<Level> {
    if files == [] then levels
    else if levels == [] then [files]
    else levels[0 := levels[0] + files]
  }

  /** The mutator run on a candidate; None when it refuses. */
  function Mutate(m: Manifest, op: Op): Option<Manifest> {
    match op
    case Rotation =>
      if m.nextWalId < 0x1_0000_0000 then Some(m.(wals := m.wals + [m.nextWalId])) else None
    case Flush(files, wals) =>
      if wals <= m.wals then Some(m.(wals := m.wals[|wals|..], levels := AddToL0(m.levels, files))) else None
    case Compaction(n, source, target, out) =>
      Some(m.(levels := Levelled.EditLevels(m.levels, n, source, target, out)))
  }

  /** An update under way: its edit, which try this is, and (history) how many commits there had been
      when it began. */
  datatype Job = Job(op: Op, tries: nat, began: nat)

  /** A snapshot and its edited copy, with (history) how many table ids had been handed out at the snapshot. */
  datatype Draft = Draft(base: Manifest, cand: Manifest, known: nat)

  /** Where one caller of the commit loop stands. */
  datatype Phase =
    | Idle
    | Snapping(job: Job)
    | Mutated(job: Job, draft: Draft)
    | Written(job: Job, draft: Draft)
    | Finished(ok: bool)

  /** A write of a temporary file: by whom, and what. */
  datatype Write = Write(writer: nat, content: Content)

  /** A commit: whose, and the last write of the temporary file it renamed. */
  datatype Stamp = Stamp(caller: nat, last: Write)

  datatype State = State(
    cur: Manifest, phases: seq<Phase>, tmp: map<nat, Content>, files: map<nat, Content>,
    // History, read by no step: the manifests committed so far, the edits between them and the commits that
    // made them; the last write of every temporary name; the table ids handed out.
    chain: seq<Manifest>, edits: seq<Op>, stamps: seq<Stamp>, wrote: map<nat, Write>, handed: seq<nat>)

  ghost function Init(m: Manifest, updaters: nat): State {
    State(m, seq(updaters, _ => Idle), map[], map[m.version := ContentOf(m)], [m], [], [], map[], [])
  }

  const MAX_TRIES: nat := 3

  ghost function Begin(s: State, u: nat, op: Op): State
    requires u < |s.phases|
  {
    s.(phases := s.phases[u := Snapping(Job(op, 1, |s.stamps|))])
  }

  /** Clones the manifest under the lock, then mutates the clone outside it. */
  ghost function Snap(s: State, u: nat): State
    requires u < |s.phases| && s.phases[u].Snapping?
  {
    var job := s.phases[u].job;
    var c := Mutate(s.cur, job.op);
    if job.tries > MAX_TRIES || c.None? then s.(phases := s.phases[u := Finished(false)])
    else
      var draft := Draft(s.cur, c.value.(version := c.value.version + 1), |s.handed|);
      s.(phases := s.phases[u := Mutated(job, draft)])
  }

  /** The temporary file's name is made of the version only. */
  ghost function WriteTmp(s: State, u: nat): State
    requires u < |s.phases| && s.phases[u].Mutated?
  {
    var cand := s.phases[u].draft.cand;
    s.(tmp := s.tmp[cand.version := ContentOf(cand)], wrote := s.wrote[cand.version := Write(u, ContentOf(cand))],
       phases := s.phases[u := Written(s.phases[u].job, s.phases[u].draft)])
  }

  /** The caller's version is still the current one and its temporary file is there. */
  ghost predicate Commits(s: State, u: nat) {
    && u < |s.phases| && s.phases[u].Written? && s.cur.version == s.phases[u].draft.base.version
    && s.phases[u].draft.cand.version in s.tmp
  }

  /** Under the lock: retry if the version moved, else rename and replace the manifest in memory. */
  ghost function Commit(s: State, u: nat): State
    requires u < |s.phases| && s.phases[u].Written?
  {
    var job, draft := s.phases[u].job, s.phases[u].draft;
    var v := draft.cand.version;
    if s.cur.version != draft.base.version then
      s.(tmp := s.tmp - {v}, phases := s.phases[u := Snapping(job.(tries := job.tries + 1))])
    else if v !in s.tmp then s.(phases := s.phases[u := Finished(false)])
    else
      s.(cur := draft.cand, tmp := s.tmp - {v}, files := s.files[v := s.tmp[v]],
         phases := s.phases[u := Finished(true)],
         chain := s.chain + [draft.cand], edits := s.edits + [job.op],
         stamps := s.stamps + [Stamp(u, if v in s.wrote then s.wrote[v] else Write(u, s.tmp[v]))])
  }

  /** A table id is handed out under the lock, without a new version. */
  ghost function Reserve(s: State): State {
    s.(cur := s.cur.(nextSstableId := s.cur.nextSstableId + 1), handed := s.handed + [s.cur.nextSstableId])
  }

  ghost predicate Next(s: State, s': State) {
    || s' == Reserve(s)
    || (exists u, op :: 0 <= u < |s.phases| && s.phases[u].Idle? && s' == Begin(s, u, op))
    || (exists u :: 0 <= u < |s.phases| && UpdaterStep(s, u, s'))
  }

  ghost predicate UpdaterStep(s: State, u: nat, s': State) {
    && u < |s.phases|
    && match s.phases[u]
       case Snapping(_) => s' == Snap(s, u)
       case Mutated(_, _) => s' == WriteTmp(s, u)
       case Written(_, _) => s' == Commit(s, u)
       case Finished(_) => s' == s.(phases := s.phases[u := Idle])
       case Idle => false
  }

  ghost predicate IsRun(run: seq<State>, m: Manifest, updaters: nat) {
    run != [] && run[0] == Init(m, updaters) && forall i :: 0 <= i < |run| - 1 ==> Next(run[i], run[i + 1])
  }

  // --- Serializability ---

  ghost predicate SameLists(a: Manifest, b: Manifest) {
    a.wals == b.wals && a.levels == b.levels && a.nextWalId == b.nextWalId && a.version == b.version
  }

  /** cand is op's edit of base, one version up. */
  ghost predicate EditOf(cand: Manifest, op: Op, base: Manifest) {
    && Mutate(base, op).Some?
    && cand.wals == Mutate(base, op).value.wals && cand.levels == Mutate(base, op).value.levels
    && cand.version == base.version + 1 && cand.nextWalId == base.nextWalId
  }

  /** An edit in progress starts from a manifest that is current or superseded, never changed under it. */
  ghost predicate PhaseOk(p: Phase, cur: Manifest) {
    p.Mutated? || p.Written? ==>
      var base, cand := p.draft.base, p.draft.cand;
      && EditOf(cand, p.job.op, base) && base.version <= cur.version
      && (base.version == cur.version ==> SameLists(base, cur))
  }

  /** The committed manifests form a chain, one version and one edit apart. */
  ghost predicate Chained(chain: seq<Manifest>, edits: seq<Op>) {
    && |chain| == |edits| + 1
    && forall i :: 0 <= i < |edits| ==> EditOf(chain[i + 1], edits[i], chain[i])
  }

  ghost predicate Inv(s: State) {
    && Chained(s.chain, s.edits) && SameLists(s.chain[|s.chain| - 1], s.cur)
    && forall u :: 0 <= u < |s.phases| ==> PhaseOk(s.phases[u], s.cur)
  }

  lemma InitInv(m: Manifest, updaters: nat)
    ensures Inv(Init(m, updaters))
  {}

  /** Edits depend only on the lists. */
  lemma SameEdit(cand: Manifest, op: Op, a: Manifest, b: Manifest)
    requires EditOf(cand, op, a) && SameLists(a, b)
    ensures EditOf(cand, op, b)
  {
    hide Levelled.EditLevels;
  }

  lemma ChainExtends(chain: seq<Manifest>, edits: seq<Op>, cand: Manifest, op: Op)
    requires Chained(chain, edits) && EditOf(cand, op, chain[|chain| - 1])
    ensures Chained(chain + [cand], edits + [op])
  {
    hide EditOf;
    var c, e := chain + [cand], edits + [op];
    forall i | 0 <= i < |e| ensures EditOf(c[i + 1], e[i], c[i]) {
      if i < |edits| {
        assert c[i + 1] == chain[i + 1] && e[i] == edits[i] && c[i] == chain[i];
      }
    }
  }

  lemma CommitKeeps(s: State, u: nat)
    requires Inv(s) && u < |s.phases| && s.phases[u].Written?
    ensures Inv(Commit(s, u))
  {
    hide EditOf, SameLists, Chained;
    var p, s' := s.phases[u], Commit(s, u);
    assert PhaseOk(p, s.cur);
    if Commits(s, u) {
      SameListsBack(s, u);
      SameEdit(p.draft.cand, p.job.op, p.draft.base, s.chain[|s.chain| - 1]);
      ChainExtends(s.chain, s.edits, p.draft.cand, p.job.op);
      OthersSuperseded(s, u);
    } else {
      assert s'.cur == s.cur && s'.chain == s.chain && s'.edits == s.edits;
      forall x | 0 <= x < |s'.phases| ensures PhaseOk(s'.phases[x], s'.cur) {
        assert PhaseOk(s.phases[x], s.cur);
      }
    }
  }

  lemma SameListsBack(s: State, u: nat)
    requires Inv(s) && Commits(s, u)
    ensures s.chain != [] && SameLists(s.phases[u].draft.base, s.chain[|s.chain| - 1])
    ensures EditOf(s.phases[u].draft.cand, s.phases[u].job.op, s.phases[u].draft.base)
  {
    hide EditOf;
    assert PhaseOk(s.phases[u], s.cur);
  }

  lemma OthersSuperseded(s: State, u: nat)
    requires Inv(s) && Commits(s, u)
    ensures var s' := Commit(s, u);
            && SameLists(s'.chain[|s'.chain| - 1], s'.cur)
            && forall x :: 0 <= x < |s'.phases| ==> PhaseOk(s'.phases[x], s'.cur)
  {
    hide Mutate;
    var s' := Commit(s, u);
    assert PhaseOk(s.phases[u], s.cur);
    forall x | 0 <= x < |s'.phases| ensures PhaseOk(s'.phases[x], s'.cur) {
      assert PhaseOk(s.phases[x], s.cur);
    }
  }

  lemma SnapKeeps(s: State, u: nat)
    requires Inv(s) && u < |s.phases| && s.phases[u].Snapping?
    ensures Inv(Snap(s, u))
  {
    var s' := Snap(s, u);
    hide Chained, Levelled.EditLevels;
    forall x | 0 <= x < |s'.phases| ensures PhaseOk(s'.phases[x], s'.cur) {
      assert PhaseOk(s.phases[x], s.cur);
    }
  }

  lemma OtherKeeps(s: State, s': State)
    requires Inv(s)
    requires s'.chain == s.chain && s'.edits == s.edits && SameLists(s'.cur, s.cur)
    requires |s'.phases| == |s.phases|
    requires forall u :: 0 <= u < |s.phases| ==>
               || s'.phases[u] == s.phases[u] || s'.phases[u].Idle? || s'.phases[u].Snapping?
               || (s.phases[u].Mutated? && s'.phases[u] == Written(s.phases[u].job, s.phases[u].draft))
    ensures Inv(s')
  {
    hide Chained, EditOf;
    forall u | 0 <= u < |s'.phases| ensures PhaseOk(s'.phases[u], s'.cur) {
      assert PhaseOk(s.phases[u], s.cur);
    }
  }

  lemma NextKeeps(s: State, s': State)
    requires Inv(s) && Next(s, s')
    ensures Inv(s')
  {
    hide Inv, Snap, Commit;
    if s' == Reserve(s) {
      OtherKeeps(s, s');
    } else if exists u, op :: 0 <= u < |s.phases| && s.phases[u].Idle? && s' == Begin(s, u, op) {
      OtherKeeps(s, s');
    } else {
      var u :| 0 <= u < |s.phases| && UpdaterStep(s, u, s');
      match s.phases[u]
      case Snapping(_) => SnapKeeps(s, u);
      case Written(_, _) => CommitKeeps(s, u);
      case _ => OtherKeeps(s, s');
    }
  }

  /** Commit serializability: under any interleaving, with any retries, the committed manifests go up one
      version at a time, each being exactly one edit of its immediate predecessor; the last is the one in memory. */
  lemma {:induction false} CommitsAreSerializable(run: seq<State>, m: Manifest, updaters: nat, i: nat)
    requires IsRun(run, m, updaters) && i < |run|
    ensures Inv(run[i])
    ensures Chained(run[i].chain, run[i].edits) && SameLists(run[i].chain[|run[i].chain| - 1], run[i].cur)
  {
    hide EditOf, PhaseOk;
    if i == 0 {
      InitInv(m, updaters);
    } else {
      CommitsAreSerializable(run, m, updaters, i - 1);
      assert Next(run[i - 1], run[i]);
      NextKeeps(run[i - 1], run[i]);
    }
  }

  // --- What an edit does ---

  /** A rotation: one more WAL, the next id's, and the same levels. */
  lemma RotationIs(cand: Manifest, base: Manifest)
    requires EditOf(cand, Rotation, base)
    ensures |cand.wals| == |base.wals| + 1 && base.wals <= cand.wals && cand.wals[|base.wals|] == base.nextWalId
    ensures cand.levels == base.levels
  {}

  /** A flush: the WALs it names are gone from the front, its files stand behind those of L0, deeper levels are the
      same. */
  lemma FlushIs(cand: Manifest, files: Level, wals: seq<u32>, base: Manifest)
    requires EditOf(cand, Flush(files, wals), base)
    ensures base.wals == wals + cand.wals
    ensures Levelled.MetaLevelAt(cand.levels, 0) == Levelled.MetaLevelAt(base.levels, 0) + files
    ensures forall n: nat :: n > 0 ==> Levelled.MetaLevelAt(cand.levels, n) == Levelled.MetaLevelAt(base.levels, n)
  {
    assert base.wals == base.wals[..|wals|] + base.wals[|wals|..];
    assert [] + files == files && Levelled.MetaLevelAt(base.levels, 0) + [] == Levelled.MetaLevelAt(base.levels, 0);
  }

  /** A compaction: the same WALs; level n has lost the files of source, and the one below has exactly what it had but
      the files of target, and the new ones; other levels are the same. */
  lemma CompactionIs(cand: Manifest, n: nat, source: set<u32>, target: set<u32>, out: Level, base: Manifest)
    requires EditOf(cand, Compaction(n, source, target, out), base)
    ensures cand.wals == base.wals
    ensures forall f :: f in Levelled.MetaLevelAt(cand.levels, n)
                        <==> f in Levelled.MetaLevelAt(base.levels, n) && f.fileId !in source
    ensures forall f :: f in Levelled.MetaLevelAt(cand.levels, n + 1)
                        <==> f in out || (f in Levelled.MetaLevelAt(base.levels, n + 1) && f.fileId !in target)
    ensures forall m: nat :: m != n && m != n + 1 ==>
              Levelled.MetaLevelAt(cand.levels, m) == Levelled.MetaLevelAt(base.levels, m)
  {
    Levelled.EditMeans(base.levels, n, source, target, out);
    hide Levelled.EditLevels;
  }

  /** In every run, of every commit so far. */
  lemma CommittedRotation(run: seq<State>, m: Manifest, updaters: nat, i: nat, e: nat)
    requires IsRun(run, m, updaters) && i < |run| && e < |run[i].edits| && run[i].edits[e].Rotation?
    ensures |run[i].chain| == |run[i].edits| + 1
    ensures run[i].chain[e + 1].wals == run[i].chain[e].wals + [run[i].chain[e].nextWalId]
    ensures run[i].chain[e + 1].levels == run[i].chain[e].levels
  {
    hide IsRun, EditOf;
    CommitsAreSerializable(run, m, updaters, i);
    assert EditOf(run[i].chain[e + 1], run[i].edits[e], run[i].chain[e]);
    RotationIs(run[i].chain[e + 1], run[i].chain[e]);
    var was, now := run[i].chain[e].wals, run[i].chain[e + 1].wals;
    assert now == now[..|was|] + [now[|was|]];
  }

  lemma CommittedFlush(run: seq<State>, m: Manifest, updaters: nat, i: nat, e: nat, files: Level, wals: seq<u32>)
    requires IsRun(run, m, updaters) && i < |run| && e < |run[i].edits| && run[i].edits[e] == Flush(files, wals)
    ensures |run[i].chain| == |run[i].edits| + 1
    ensures run[i].chain[e].wals == wals + run[i].chain[e + 1].wals
    ensures var was, now := run[i].chain[e].levels, run[i].chain[e + 1].levels;
            && Levelled.MetaLevelAt(now, 0) == Levelled.MetaLevelAt(was, 0) + files
            && forall n: nat :: n > 0 ==> Levelled.MetaLevelAt(now, n) == Levelled.MetaLevelAt(was, n)
  {
    hide IsRun, EditOf;
    CommitsAreSerializable(run, m, updaters, i);
    assert EditOf(run[i].chain[e + 1], run[i].edits[e], run[i].chain[e]);
    FlushIs(run[i].chain[e + 1], files, wals, run[i].chain[e]);
  }

  lemma CommittedCompaction(run: seq<State>, m: Manifest, updaters: nat, i: nat, e: nat, n: nat, source: set<u32>,
                            target: set<u32>, out: Level)
    requires IsRun(run, m, updaters) && i < |run| && e < |run[i].edits|
    requires run[i].edits[e] == Compaction(n, source, target, out)
    ensures |run[i].chain| == |run[i].edits| + 1
    ensures var was, now := run[i].chain[e], run[i].chain[e + 1];
            && now.wals == was.wals
            && (forall f :: f in Levelled.MetaLevelAt(now.levels, n)
                            <==> f in Levelled.MetaLevelAt(was.levels, n) && f.fileId !in source)
            && (forall f :: f in Levelled.MetaLevelAt(now.levels, n + 1)
                            <==> f in out || (f in Levelled.MetaLevelAt(was.levels, n + 1) && f.fileId !in target))
            && forall k: nat :: k != n && k != n + 1 ==>
                 Levelled.MetaLevelAt(now.levels, k) == Levelled.MetaLevelAt(was.levels, k)
  {
    hide IsRun, EditOf, Levelled.MetaLevelAt;
    CommitsAreSerializable(run, m, updaters, i);
    assert EditOf(run[i].chain[e + 1], run[i].edits[e], run[i].chain[e]);
    CompactionIs(run[i].chain[e + 1], n, source, target, out, run[i].chain[e]);
  }

  lemma {:induction false} VersionsClimb(chain: seq<Manifest>, edits: seq<Op>, i: nat)
    requires Chained(chain, edits) && i < |chain|
    ensures chain[i].version == chain[|chain| - 1].version + i + 1 - |chain|
    decreases |chain| - i
  {
    hide Mutate;
    if i < |chain| - 1 {
      VersionsClimb(chain, edits, i + 1);
      assert EditOf(chain[i + 1], edits[i], chain[i]);
    }
  }

  /** As many manifests have been committed as versions have passed. */
  lemma CountsVersions(s: State)
    requires Inv(s)
    ensures s.chain != [] && s.cur.version == s.chain[0].version + |s.chain| - 1
  {
    hide EditOf, PhaseOk;
    VersionsClimb(s.chain, s.edits, 0);
  }

  /** The version a written candidate would get. */
  lemma VersionOfEdit(s: State, u: nat)
    requires Inv(s) && u < |s.phases| && (s.phases[u].Mutated? || s.phases[u].Written?)
    ensures s.phases[u].draft.cand.version == s.phases[u].draft.base.version + 1
    ensures s.phases[u].draft.base.version <= s.cur.version
  {
    hide Chained, Mutate;
    assert PhaseOk(s.phases[u], s.cur);
  }

  /** What a step does to one caller's phase. */
  ghost predicate Moves(p: Phase, s: State, p': Phase) {
    || p' == p || p'.Idle? || p'.Finished?
    || (p'.Snapping? && p.Idle? && p'.job.tries == 1 && p'.job.began == |s.stamps|)
    || (p'.Mutated? && p.Snapping? && p'.job == p.job && p'.draft.base == s.cur && p'.draft.known == |s.handed|
        && p'.draft.cand.nextSstableId == s.cur.nextSstableId)
    || (p'.Written? && p.Mutated? && p'.job == p.job && p'.draft == p.draft)
    || (p'.Snapping? && p.Written? && p'.job == p.job.(tries := p.job.tries + 1)
        && s.cur.version != p.draft.base.version)
  }

  lemma StepMoves(s: State, s': State, x: nat)
    requires Next(s, s') && x < |s.phases|
    ensures |s'.phases| == |s.phases| && Moves(s.phases[x], s, s'.phases[x])
    ensures s'.stamps == s.stamps || (|s'.stamps| == |s.stamps| + 1 && s.stamps <= s'.stamps
                                      && (s'.stamps[|s.stamps|].caller == x ==> s'.phases[x].Finished?))
  {
    hide Snap, WriteTmp, Commit;
    if exists u :: 0 <= u < |s.phases| && UpdaterStep(s, u, s') {
      var u :| 0 <= u < |s.phases| && UpdaterStep(s, u, s');
      match s.phases[u]
      case Snapping(_) => SnapMoves(s, u);
      case Mutated(_, _) => WriteMoves(s, u);
      case Written(_, _) => CommitMoves(s, u);
      case _ =>
    }
  }

  lemma SnapMoves(s: State, u: nat)
    requires u < |s.phases| && s.phases[u].Snapping?
    ensures var s' := Snap(s, u);
            && s'.phases == s.phases[u := s'.phases[u]] && Moves(s.phases[u], s, s'.phases[u])
            && s'.cur == s.cur && s'.stamps == s.stamps && s'.chain == s.chain && s'.edits == s.edits
               && s'.handed == s.handed
  {
    hide Levelled.EditLevels;
  }

  lemma WriteMoves(s: State, u: nat)
    requires u < |s.phases| && s.phases[u].Mutated?
    ensures var s' := WriteTmp(s, u);
            && s'.phases == s.phases[u := s'.phases[u]] && Moves(s.phases[u], s, s'.phases[u])
            && s'.cur == s.cur && s'.stamps == s.stamps && s'.chain == s.chain && s'.edits == s.edits
               && s'.handed == s.handed
  {}

  lemma CommitMoves(s: State, u: nat)
    requires u < |s.phases| && s.phases[u].Written?
    ensures var s' := Commit(s, u);
            && s'.phases == s.phases[u := s'.phases[u]] && Moves(s.phases[u], s, s'.phases[u]) && s'.handed == s.handed
            && if Commits(s, u) then
                 && |s'.stamps| == |s.stamps| + 1 && s.stamps <= s'.stamps && s'.stamps[|s.stamps|].caller == u
                 && s'.phases[u].Finished? && s'.cur == s.phases[u].draft.cand
                 && s'.chain == s.chain + [s.phases[u].draft.cand] && s'.edits == s.edits + [s.phases[u].job.op]
               else s'.cur == s.cur && s'.stamps == s.stamps && s'.chain == s.chain && s'.edits == s.edits
  {}

  /** A step appends at most one manifest and one edit, and takes none back. */
  lemma StepGrows(s: State, s': State)
    requires Next(s, s')
    ensures s.chain <= s'.chain && s.edits <= s'.edits && s.stamps <= s'.stamps && s.handed <= s'.handed
    ensures |s'.phases| == |s.phases|
    ensures |s'.chain| - |s.chain| == |s'.stamps| - |s.stamps|
    ensures s'.chain == s.chain ==> SameLists(s.cur, s'.cur) && s'.edits == s.edits
  {
    hide Snap, WriteTmp, Commit, Moves;
    if exists u :: 0 <= u < |s.phases| && UpdaterStep(s, u, s') {
      var u :| 0 <= u < |s.phases| && UpdaterStep(s, u, s');
      match s.phases[u]
      case Snapping(_) => SnapMoves(s, u);
      case Mutated(_, _) => WriteMoves(s, u);
      case Written(_, _) => CommitMoves(s, u);
      case _ =>
    }
  }

  lemma {:induction false} RunGrows(run: seq<State>, m: Manifest, updaters: nat, i: nat, j: nat)
    requires IsRun(run, m, updaters) && i <= j < |run|
    ensures run[i].chain <= run[j].chain && run[i].edits <= run[j].edits && |run[j].phases| == |run[i].phases|
    ensures run[i].stamps <= run[j].stamps && run[i].handed <= run[j].handed
  {
    hide Next, Init, SameLists;
    if i < j {
      RunGrows(run, m, updaters, i, j - 1);
      assert Next(run[j - 1], run[j]);
      StepGrows(run[j - 1], run[j]);
    }
  }

  // --- Giving up ---

  /** Every lost try of an update cost at least one commit, and no commit since it began was its own. */
  ghost predicate Tried(s: State, u: nat)
    requires s.chain != [] && u < |s.phases|
  {
    var p := s.phases[u];
    && (p.Snapping? ==> p.job.began + p.job.tries <= |s.stamps| + 1)
    && (p.Mutated? || p.Written? ==> p.job.began + p.job.tries <= p.draft.base.version - s.chain[0].version + 1)
    && (p.Snapping? || p.Mutated? || p.Written? ==>
          forall c :: p.job.began <= c < |s.stamps| ==> s.stamps[c].caller != u)
  }

  ghost predicate AllTried(s: State) {
    s.chain != [] && |s.chain| == |s.stamps| + 1 && forall u :: 0 <= u < |s.phases| ==> Tried(s, u)
  }

  lemma NextTried(s: State, s': State)
    requires Inv(s) && AllTried(s) && Next(s, s')
    ensures AllTried(s')
  {
    hide Inv, Next;
    CountsVersions(s);
    StepGrows(s, s');
    assert s'.chain[0] == s.chain[0];
    forall u | 0 <= u < |s'.phases| ensures Tried(s', u) {
      assert Tried(s, u);
      StepMoves(s, s', u);
      if s.phases[u].Written? { VersionOfEdit(s, u); }
    }
  }

  lemma {:induction false} RunTried(run: seq<State>, m: Manifest, updaters: nat, i: nat)
    requires IsRun(run, m, updaters) && i < |run|
    ensures AllTried(run[i])
  {
    if i > 0 {
      hide Next, Inv, Tried;
      RunTried(run, m, updaters, i - 1);
      CommitsAreSerializable(run, m, updaters, i - 1);
      assert Next(run[i - 1], run[i]);
      NextTried(run[i - 1], run[i]);
    }
  }

  /** How an update ends: well exactly when the step commits its edit; badly only when it has run out of tries, when its
      edit cannot be made, or when its temporary file is gone though no version has passed. A version that has passed
      costs a try and never the update. */
  lemma UpdateEnds(s: State, s': State, u: nat)
    requires Inv(s) && Next(s, s') && u < |s.phases| && !s.phases[u].Finished?
    requires |s'.phases| == |s.phases| && s'.phases[u].Finished?
    ensures s'.phases[u].ok ==>
              && s.phases[u].Written? && s'.edits == s.edits + [s.phases[u].job.op] && |s'.chain| == |s.chain| + 1
              && s'.cur.version == s.cur.version + 1 && SameLists(s'.chain[|s.chain|], s'.cur)
    ensures !s'.phases[u].ok ==>
              && s'.chain == s.chain && s'.edits == s.edits
              && (|| (s.phases[u].Snapping? && s.phases[u].job.tries > MAX_TRIES)
                  || (s.phases[u].Snapping? && Refuses(s.phases[u].job.op, s.cur))
                  || (s.phases[u].Written? && s.phases[u].draft.base.version == s.cur.version
                      && s.cur.version + 1 !in s.tmp))
    ensures s.phases[u].Snapping? && s.phases[u].job.tries <= MAX_TRIES ==> Refuses(s.phases[u].job.op, s.cur)
  {
    hide Chained, Levelled.EditLevels;
    assert PhaseOk(s.phases[u], s.cur);
    EndsByItself(s, s', u);
  }

  /** An edit that cannot be made: no WAL id is left, or the WALs to drop are not the first. */
  predicate Refuses(op: Op, m: Manifest) {
    || (op.Rotation? && m.nextWalId >= 0x1_0000_0000)
    || (op.Flush? && !(op.wals <= m.wals))
  }

  lemma EndsByItself(s: State, s': State, u: nat)
    requires Next(s, s') && u < |s.phases| && !s.phases[u].Finished?
    requires |s'.phases| == |s.phases| && s'.phases[u].Finished?
    ensures UpdaterStep(s, u, s') && (s.phases[u].Snapping? || s.phases[u].Written?)
  {
    hide Snap, Commit;
    if exists x :: 0 <= x < |s.phases| && UpdaterStep(s, x, s') {
      var x :| 0 <= x < |s.phases| && UpdaterStep(s, x, s');
      match s.phases[x]
      case Snapping(_) => SnapMoves(s, x);
      case Mutated(_, _) => WriteMoves(s, x);
      case Written(_, _) => CommitMoves(s, x);
      case _ =>
    }
  }

  /** An update runs out of tries only when other callers have committed at least as many manifests since it
      began as it had tries. */
  lemma GivesUpOnlyAfterLosing(run: seq<State>, m: Manifest, updaters: nat, i: nat, u: nat)
    requires IsRun(run, m, updaters) && i < |run| && u < |run[i].phases|
    requires run[i].phases[u].Snapping? && run[i].phases[u].job.tries > MAX_TRIES
    ensures |run[i].stamps| >= run[i].phases[u].job.began + MAX_TRIES
    ensures forall c :: run[i].phases[u].job.began <= c < |run[i].stamps| ==> run[i].stamps[c].caller != u
  {
    hide Next, IsRun;
    RunTried(run, m, updaters, i);
    assert Tried(run[i], u);
  }
}
