/** The files behind a session's WALs. Every rotation opens a WAL, but the id it takes is never advanced, so all WALs
    from the second on write one file. */
module WalFiles {
  import opened Codec
  import opened Manifests
  import opened WritePipeline
  import opened PipelineProofs
  import opened PipelineTheorems
  import opened PipelineProgress
  import opened PipelineLimits
  import Publication

  /** A manifest as a session finds it: it names a WAL, and the next id is above all it names. */
  predicate Opened(m: Manifest) {
    m.wals != [] && m.nextWalId < 0x1_0000_0000 && forall w :: w in m.wals ==> w < m.nextWalId
  }

  /** The ids of a session's n WALs: the last that its manifest named, and what n - 1 rotations push. */
  function SessionIds(m: Manifest, n: nat): (r: seq<u32>)
    requires Opened(m) && n > 0
    ensures |r| == n && r[0] == m.wals[|m.wals| - 1] && Shared(r)
    ensures forall f :: 0 < f < n ==> r[f] == m.nextWalId
  {
    Publication.RotateTimesAppends(m, n - 1);
    assert m.wals[|m.wals| - 1] in m.wals;
    Publication.RotateTimes(m, n - 1).wals[|m.wals| - 1..]
  }

  predicate Shared(ids: seq<u32>) {
    && ids != [] && (forall f :: 0 < f < |ids| ==> ids[f] != ids[0])
    && forall f, g :: 0 < f < |ids| && 0 < g < |ids| ==> ids[f] == ids[g]
  }

  /** What the session has put into a file: the records of all WALs with its id, in turn. */
  function Content<T>(wals: seq<seq<T>>, ids: seq<u32>, id: u32): seq<T>
    requires |ids| == |wals|
  {
    if wals == [] then []
    else
      var n := |wals| - 1;
      Content(wals[..n], ids[..n], id) + if ids[n] == id then wals[n] else []
  }

  /** The file that WAL f of a session writes. */
  function FileOf<T>(m: Manifest, wals: seq<seq<T>>, f: nat): seq<T>
    requires Opened(m) && f < |wals|
  {
    Content(wals, SessionIds(m, |wals|), SessionIds(m, |wals|)[f])
  }

  lemma {:induction false} ContentNone<T>(wals: seq<seq<T>>, ids: seq<u32>, id: u32)
    requires |ids| == |wals| && id !in ids
    ensures Content(wals, ids, id) == []
  {
    if wals != [] { ContentNone(wals[..|wals| - 1], ids[..|wals| - 1], id); }
  }

  lemma {:induction false} ContentShared<T>(wals: seq<seq<T>>, ids: seq<u32>, f: nat)
    requires |ids| == |wals| && Shared(ids) && f < |ids|
    ensures Content(wals, ids, ids[f]) == if f == 0 then wals[0] else Flatten(wals[1..])
  {
    var n := |wals| - 1;
    var front, names := wals[..n], ids[..n];
    if n == 0 {
      assert Content(front, names, ids[f]) == [];
    } else if f == 0 {
      ContentShared(front, names, 0);
    } else if n == 1 {
      ContentNone(front, names, ids[f]);
      assert wals[1..][..0] == [];
      assert wals[1..] == [wals[1]];
    } else {
      ContentShared(front, names, 1);
      assert wals[1..][..n - 1] == front[1..];
    }
  }

  /** A session's first WAL has its file to itself; all others write one. */
  lemma FileIs<T>(m: Manifest, wals: seq<seq<T>>, f: nat)
    requires Opened(m) && f < |wals|
    ensures FileOf(m, wals, f) == if f == 0 then wals[0] else Flatten(wals[1..])
  {
    ContentShared(wals, SessionIds(m, |wals|), f);
  }

  lemma {:induction false} ContentOne<T>(wals: seq<seq<T>>, ids: seq<u32>, f: nat)
    requires |ids| == |wals| && f < |wals|
    requires forall g :: 0 <= g < |wals| && g != f && ids[g] == ids[f] ==> wals[g] == []
    ensures Content(wals, ids, ids[f]) == wals[f]
  {
    var n := |wals| - 1;
    if f < n {
      ContentOne(wals[..n], ids[..n], f);
    } else {
      ContentEmpty(wals[..n], ids[..n], ids[f]);
    }
  }

  lemma {:induction false} ContentEmpty<T>(wals: seq<seq<T>>, ids: seq<u32>, id: u32)
    requires |ids| == |wals| && forall g :: 0 <= g < |wals| && ids[g] == id ==> wals[g] == []
    ensures Content(wals, ids, id) == []
  {
    if wals != [] { ContentEmpty(wals[..|wals| - 1], ids[..|wals| - 1], id); }
  }

  lemma {:induction false} ContentAtLeast<T>(wals: seq<seq<T>>, ids: seq<u32>, id: u32, g: nat)
    requires |ids| == |wals| && g < |wals| && ids[g] == id
    ensures |Content(wals, ids, id)| >= |wals[g]|
    ensures forall f :: 0 <= f < |wals| && f != g && ids[f] == id ==> |Content(wals, ids, id)| >= |wals[g]| + |wals[f]|
  {
    var n := |wals| - 1;
    if g < n {
      ContentAtLeast(wals[..n], ids[..n], id, g);
    } else {
      forall f | 0 <= f < n && ids[f] == id ensures |Content(wals, ids, id)| >= |wals[g]| + |wals[f]| {
        ContentAtLeast(wals[..n], ids[..n], id, f);
      }
    }
  }

  /** A file holds one WAL's records alone exactly when no other WAL with its id has a record. */
  lemma AloneIff<T>(wals: seq<seq<T>>, ids: seq<u32>, f: nat)
    requires |ids| == |wals| && f < |wals|
    ensures Content(wals, ids, ids[f]) == wals[f]
            <==> forall g :: 0 <= g < |wals| && g != f && ids[g] == ids[f] ==> wals[g] == []
  {
    if forall g :: 0 <= g < |wals| && g != f && ids[g] == ids[f] ==> wals[g] == [] {
      ContentOne(wals, ids, f);
    } else {
      ContentAtLeast(wals, ids, ids[f], f);
    }
  }

  // --- Pieces of one log ---

  lemma {:induction false} FlattenCons<T>(xs: seq<seq<T>>)
    requires xs != []
    ensures Flatten(xs) == xs[0] + Flatten(xs[1..])
  {
    var n := |xs| - 1;
    if n == 0 {
      assert xs[..0] == [] && xs[1..] == [];
    } else {
      FlattenCons(xs[..n]);
      assert xs[1..][..n - 1] == xs[..n][1..];
      Associative(xs[0], Flatten(xs[..n][1..]), xs[n]);
    }
  }

  lemma {:induction false} FlattenPrefix<T>(xs: seq<seq<T>>, k: nat)
    requires k <= |xs|
    ensures Flatten(xs[..k]) <= Flatten(xs)
  {
    if k < |xs| {
      FlattenPrefix(xs[..|xs| - 1], k);
      assert xs[..|xs| - 1][..k] == xs[..k];
    } else {
      assert xs[..k] == xs;
    }
  }

  lemma {:induction false} FlattenGrows<T>(xs: seq<seq<T>>, f: nat, x: seq<T>)
    requires f < |xs|
    ensures |Flatten(xs[f := xs[f] + x])| == |Flatten(xs)| + |x|
  {
    var n := |xs| - 1;
    if f < n {
      FlattenGrows(xs[..n], f, x);
      assert xs[f := xs[f] + x][..n] == xs[..n][f := xs[..n][f] + x];
    } else {
      assert xs[f := xs[f] + x][..n] == xs[..n];
    }
  }

  lemma {:induction false} InFlatten<T>(xs: seq<seq<T>>, r: T)
    ensures r in Flatten(xs) <==> exists f :: 0 <= f < |xs| && r in xs[f]
  {
    if xs != [] {
      InFlatten(xs[..|xs| - 1], r);
    }
  }

  // --- Frozen memtables and their files ---

  /** Every frozen memtable holds what its WAL's file holds. */
  predicate FilesMatch(m: Manifest, s: State)
    requires Opened(m)
  {
    && |s.wals| == |s.mems| > 0
    && forall f :: 0 <= f < |s.wals| - 1 ==> FileOf(m, s.wals, f) == s.mems[f]
  }

  /** The step lets a file grow that is a frozen memtable's. */
  predicate GrowsFrozen(m: Manifest, s: State, s': State)
    requires Opened(m)
  {
    exists f, g :: 0 <= f < |s.wals| && f < |s'.wals| && 0 <= g < |s.wals| - 1 && s'.wals[f] != s.wals[f]
                   && SessionIds(m, |s.wals|)[g] == SessionIds(m, |s.wals|)[f]
  }

  /** Or rotates while something appended is not applied. */
  predicate Parts(m: Manifest, s: State, s': State)
    requires Opened(m)
  {
    (|s'.wals| > |s.wals| && s.applied != s.appended) || GrowsFrozen(m, s, s')
  }

  /** Whoever has inserted a record is still in the memtable it went to. */
  predicate HasRecords(s: State) {
    && s.mems != []
    && forall w :: 0 <= w < |s.pc| && Inserting(s.pc[w]) ==> s.mems[|s.mems| - 1] != []
  }

  predicate Inserting(p: Pc) { p.MemRotate? || (p.MemInsert? && p.next > 0) }

  lemma WakesNobodyIn(pc: seq<Pc>, w: nat, v: nat)
    requires w < |pc| && v < |pc|
    ensures |Notify(pc, w)| == |WakeWal(pc)| == |WakeMem(pc)| == |pc|
    ensures Inserting(Notify(pc, w)[v]) ==> Notify(pc, w)[v] == pc[v]
    ensures Inserting(WakeWal(pc)[v]) ==> WakeWal(pc)[v] == pc[v]
    ensures Inserting(WakeMem(pc)[v]) ==> WakeMem(pc)[v] == pc[v]
  {}

  /** Only its own insertions bring a writer there. */
  lemma StepInserting(s: State, w: nat, full: bool, v: nat)
    requires Shape(s) && CanStep(s, w) && v < |s.pc|
    ensures v < |Step(s, w, full).pc| == |s.pc|
    ensures Inserting(Step(s, w, full).pc[v]) ==> Step(s, w, full).pc[v] == s.pc[v] || (v == w && s.pc[w].MemInsert?)
  {
    hide BaseLsn, Batch, Notify, WakeWal, WakeMem;
    WakesNobodyIn(s.pc, w, v);
    match s.pc[w]
    case Marking(k) => if k < |s.group[w]| && s.group[w][k] < |s.pc| { WakesNobodyIn(s.pc, s.group[w][k], v); }
    case Finishing(k) => if k < |s.group[w]| && s.group[w][k] < |s.pc| { WakesNobodyIn(s.pc, s.group[w][k], v); }
    case _ =>
  }

  lemma StepMems(s: State, w: nat, full: bool)
    requires Shape(s) && CanStep(s, w)
    ensures !s.pc[w].MemInsert? && !s.pc[w].MemRotate? ==> Step(s, w, full).mems == s.mems
    ensures !s.pc[w].WalAppend? && !s.pc[w].MemRotate? ==> Step(s, w, full).wals == s.wals
  {
    hide BaseLsn, Batch, Shape;
  }

  lemma StepHasRecords(s: State, w: nat, full: bool)
    requires Inv(s) && Shape(s) && HasRecords(s) && CanStep(s, w)
    ensures HasRecords(Step(s, w, full))
  {
    hide Inv, Step, Shape;
    var s' := Step(s, w, full);
    LeaderHasGroup(s, w);
    StepMems(s, w, full);
    StepInserting(s, w, full, w);
    forall v | 0 <= v < |s'.pc| && Inserting(s'.pc[v]) ensures s'.mems != [] && s'.mems[|s'.mems| - 1] != [] {
      StepInserting(s, w, full, v);
      if s.pc[w].MemInsert? {
        InsertHasRecords(s, w, full);
      } else if s.pc[w].MemRotate? {
        RotatorAlone(s, w);
        RotateStep(s, w, full);
      }
    }
    if s.pc[w].MemInsert? { InsertHasRecords(s, w, full); }
    if s.pc[w].MemRotate? { RotateStep(s, w, full); }
  }

  lemma InsertHasRecords(s: State, w: nat, full: bool)
    requires Shape(s) && HasRecords(s) && CanStep(s, w) && s.pc[w].MemInsert? && s.group[w] != []
    requires s.pc[w].next <= |s.group[w]|
    ensures Step(s, w, full).mems != [] && Step(s, w, full).mems[|Step(s, w, full).mems| - 1] != []
  {
    hide BaseLsn;
  }

  lemma LeaderHasGroup(s: State, w: nat)
    requires Inv(s) && w < |s.pc|
    ensures Leading(s.pc[w]) ==> s.group[w] != []
    ensures s.pc[w].MemInsert? ==> s.pc[w].next <= |s.group[w]|
  {
    hide QueueInv, GroupInv, WalInv, TicketInv, LogInv, StoreInv, Placed;
  }

  lemma RotatorAlone(s: State, w: nat)
    requires Inv(s) && w < |s.pc| && s.pc[w].MemRotate?
    ensures forall v :: 0 <= v < |s.pc| && v != w ==> !InMem(s.pc[v])
  {
    hide Inv;
    forall v | 0 <= v < |s.pc| && v != w ensures !InMem(s.pc[v]) {
      StagesAreExclusive(s, v, w);
    }
  }

  /** A rotation keeps them matched exactly when everything appended has been applied. */
  lemma RotationMatchesIff(m: Manifest, s: State, w: nat)
    requires Opened(m) && Inv(s) && HasRecords(s) && FilesMatch(m, s) && w < |s.pc| && s.pc[w].MemRotate?
    ensures Shape(s) && (FilesMatch(m, Rotate(s, w)) <==> s.applied == s.appended)
  {
    hide MemberInv, QueueInv, GroupInv, WalInv, TicketInv, LogInv, AppendPos, ApplyPos, Flatten, FileOf;
    AppliedBound(s);
    var s', n := Rotate(s, w), |s.wals| - 1;
    forall f | 0 <= f <= n ensures FileOf(m, s'.wals, f) == FileOf(m, s.wals, f) {
      FileIs(m, s.wals, f);
      FileIs(m, s'.wals, f);
      FlattenRotated(s.wals[1..]);
      assert s'.wals[1..] == s.wals[1..] + [[]];
    }
    assert FilesMatch(m, s') <==> FileOf(m, s.wals, n) == s.mems[n];
    FileIs(m, s.wals, n);
    NewestMatchesIff(m, s);
  }

  lemma NewestMatchesIff(m: Manifest, s: State)
    requires Opened(m) && FilesMatch(m, s) && s.mems[|s.mems| - 1] != [] && s.applied <= s.appended <= |s.log|
    requires Stored(s.wals, s.mems, s.log, s.appended, s.applied)
    ensures FileOf(m, s.wals, |s.wals| - 1) == s.mems[|s.mems| - 1] <==> s.applied == s.appended
  {
    hide FileOf, Flatten;
    var n := |s.wals| - 1;
    FileIs(m, s.wals, n);
    if n > 0 {
      FileIs(m, s.wals, 0);
      assert s.wals[0] == s.mems[0];
    }
    if n == 1 {
      FlattenOne(s.wals[1..]);
      assert s.wals[..1] == s.mems[..1];
    }
    if n <= 1 {
      LastPieces(s.wals, s.mems, s.log, s.appended, s.applied);
    } else {
      FileIs(m, s.wals, 1);
      assert Flatten(s.wals[1..]) == s.mems[1];
      ThreePieces(s.wals, s.mems);
    }
  }

  lemma FlattenOne<T>(xs: seq<seq<T>>)
    requires |xs| == 1
    ensures Flatten(xs) == xs[0]
  {
    assert xs[..0] == [];
  }

  /** If the second memtable has all of the shared file, a later one has to be ahead of the WALs. */
  lemma ThreePieces<T>(wals: seq<seq<T>>, mems: seq<seq<T>>)
    requires |wals| == |mems| > 2 && wals[0] == mems[0] && Flatten(wals[1..]) == mems[1] && mems[|mems| - 1] != []
    ensures |Flatten(mems)| > |Flatten(wals)|
  {
    var n := |mems| - 1;
    FlattenCons(wals);
    FlattenCons(mems[..n]);
    FlattenCons(mems[..n][1..]);
    assert mems[..n][1..][0] == mems[1];
  }

  /** A write keeps them matched exactly when its file is no frozen memtable's. */
  lemma AppendMatchesIff(m: Manifest, s: State, w: nat)
    requires Opened(m) && Shape(s) && FilesMatch(m, s) && w < |s.pc| && s.pc[w].WalAppend? && s.group[w] != []
    requires s.pc[w].file < |s.wals|
    ensures FilesMatch(m, Append(s, w))
            <==> forall g :: 0 <= g < |s.wals| - 1 ==>
                   SessionIds(m, |s.wals|)[g] != SessionIds(m, |s.wals|)[s.pc[w].file]
  {
    hide FileOf, Flatten, BaseLsn;
    var s', f, n := Append(s, w), s.pc[w].file, |s.wals| - 1;
    var batch := Batch(s.group[w], CommittedLsn(s, w));
    assert s'.wals == s.wals[f := s.wals[f] + batch];
    forall g | 0 <= g < n
      ensures FileOf(m, s'.wals, g) == s'.mems[g] <==> SessionIds(m, |s.wals|)[g] != SessionIds(m, |s.wals|)[f]
    {
      assert FileOf(m, s.wals, g) == s.mems[g];
      FileGrowsIff(m, s.wals, f, batch, g);
    }
  }

  lemma FileGrowsIff<T>(m: Manifest, wals: seq<seq<T>>, f: nat, x: seq<T>, g: nat)
    requires Opened(m) && f < |wals| && g < |wals| && x != []
    ensures FileOf(m, wals[f := wals[f] + x], g) == FileOf(m, wals, g)
            <==> SessionIds(m, |wals|)[g] != SessionIds(m, |wals|)[f]
  {
    hide Flatten, FileOf, SessionIds;
    var wals' := wals[f := wals[f] + x];
    FileIs(m, wals, g);
    FileIs(m, wals', g);
    SameIdIff(m, |wals|, f, g);
    if f > 0 {
      FlattenGrows(wals[1..], f - 1, x);
      assert wals'[1..] == wals[1..][f - 1 := wals[1..][f - 1] + x];
      assert |Flatten(wals'[1..])| > |Flatten(wals[1..])|;
    } else {
      assert wals'[1..] == wals[1..];
      assert |wals'[0]| > |wals[0]|;
    }
  }

  lemma SameIdIff(m: Manifest, n: nat, f: nat, g: nat)
    requires Opened(m) && f < n && g < n
    ensures SessionIds(m, n)[f] == SessionIds(m, n)[g] <==> (f == 0 <==> g == 0)
  {
    hide SessionIds;
  }

  lemma RotateKeepsWals(m: Manifest, s: State, w: nat)
    requires Opened(m) && Shape(s) && w < |s.pc|
    ensures !GrowsFrozen(m, s, Rotate(s, w)) && |Rotate(s, w).wals| == |s.wals| + 1
  {}

  /** A WAL that is being written exists. */
  lemma AppendsSomewhere(s: State, w: nat)
    requires Inv(s) && w < |s.pc| && s.pc[w].WalAppend?
    ensures s.pc[w].file < |s.wals| && forall f :: s.pc[w].file < f < |s.wals| ==> s.wals[f] == []
  {
    hide MemberInv, QueueInv, GroupInv, WalInv, TicketInv, LogInv, Stored, ApplyPos;
    assert WalKinds(s.pc)[w] == WalKindOf(s.pc[w]);
    hide WalKinds;
  }

  lemma AppendGrows(m: Manifest, s: State, w: nat)
    requires Opened(m) && Shape(s) && w < |s.pc| && s.pc[w].WalAppend? && s.group[w] != [] && s.pc[w].file < |s.wals|
    ensures |Append(s, w).wals| == |s.wals|
    ensures GrowsFrozen(m, s, Append(s, w))
            <==> exists g :: 0 <= g < |s.wals| - 1
                             && SessionIds(m, |s.wals|)[g] == SessionIds(m, |s.wals|)[s.pc[w].file]
  {
    hide BaseLsn;
    assert |Append(s, w).wals[s.pc[w].file]| > |s.wals[s.pc[w].file]|;
  }

  lemma AppendStep(s: State, w: nat, full: bool)
    requires Shape(s) && CanStep(s, w) && s.pc[w].WalAppend?
    ensures Step(s, w, full) == Append(s, w)
  {}

  /** Other steps change the mutable memtable at most. */
  lemma OthersKeepFrozen(s: State, w: nat, full: bool)
    requires Shape(s) && CanStep(s, w) && !s.pc[w].MemRotate? && !s.pc[w].WalAppend?
    ensures Step(s, w, full).wals == s.wals && |Step(s, w, full).mems| == |s.mems|
    ensures forall f :: 0 <= f < |s.mems| - 1 ==> Step(s, w, full).mems[f] == s.mems[f]
  {
    hide BaseLsn, Batch;
    StepMems(s, w, full);
  }

  lemma StepMatchesIff(m: Manifest, s: State, w: nat, full: bool)
    requires Opened(m) && Inv(s) && Shape(s) && HasRecords(s) && FilesMatch(m, s) && CanStep(s, w)
    ensures FilesMatch(m, Step(s, w, full)) <==> !Parts(m, s, Step(s, w, full))
  {
    hide Inv, Step, Shape, FileOf, HasRecords, GrowsFrozen, Append, Rotate;
    if s.pc[w].MemRotate? {
      RotationMatchesIff(m, s, w);
      RotateStep(s, w, full);
      RotateKeepsWals(m, s, w);
    } else if s.pc[w].WalAppend? {
      LeaderHasGroup(s, w);
      AppendsSomewhere(s, w);
      AppendMatchesIff(m, s, w);
      AppendStep(s, w, full);
      AppendGrows(m, s, w);
    } else {
      OthersKeepFrozen(s, w, full);
      StillWals(m, s, Step(s, w, full));
    }
  }

  lemma StillWals(m: Manifest, s: State, s': State)
    requires Opened(m) && s'.wals == s.wals
    ensures !Parts(m, s, s')
  {}

  lemma NextMatchesIff(m: Manifest, s: State, s': State)
    requires Opened(m) && Inv(s) && HasRecords(s) && Next(s, s') && FilesMatch(m, s)
    ensures FilesMatch(m, s') <==> !Parts(m, s, s')
  {
    hide Inv, Step, Shape, FileOf, HasRecords, Parts;
    var w: nat, full: bool :| StepsTo(s, w, full, s');
    if CanStep(s, w) && s' == Step(s, w, full) {
      StepMatchesIff(m, s, w, full);
    } else {
      StillWals(m, s, s');
    }
  }

  lemma WakeHasRecords(s: State, w: nat)
    requires HasRecords(s) && w < |s.pc|
    ensures HasRecords(SpuriousWake(s, w))
  {}

  lemma {:induction false} RunHasRecords(run: seq<State>, n: nat, start: nat, i: nat)
    requires IsRun(run, n, start) && i < |run|
    ensures HasRecords(run[i])
  {
    hide Next, HasRecords, Inv, Init;
    if i == 0 {
      NoneInserting(n, start);
    } else {
      RunHasRecords(run, n, start, i - 1);
      RunKeepsInv(run, n, start, i - 1);
      assert Next(run[i - 1], run[i - 1 + 1]);
      NextHasRecords(run[i - 1], run[i]);
    }
  }

  lemma NextHasRecords(s: State, s': State)
    requires Inv(s) && HasRecords(s) && Next(s, s')
    ensures HasRecords(s')
  {
    hide Inv, Step, Shape, HasRecords;
    var w: nat, full: bool :| StepsTo(s, w, full, s');
    if CanStep(s, w) && s' == Step(s, w, full) {
      StepHasRecords(s, w, full);
    } else {
      WakeHasRecords(s, w);
    }
  }

  lemma NoneInserting(n: nat, start: nat)
    ensures HasRecords(Init(n, start)) && |Init(n, start).wals| == |Init(n, start).mems| == 1
  {}

  /** In every run: each frozen memtable holds what its WAL's file holds, in all states up to one, exactly when every
      rotation before it found everything appended applied and no write before it went to a frozen memtable's file. */
  lemma {:induction false} FilesMatchThroughoutIff(m: Manifest, run: seq<State>, n: nat, start: nat, i: nat)
    requires Opened(m) && IsRun(run, n, start) && i < |run|
    ensures (forall j :: 0 <= j <= i ==> FilesMatch(m, run[j]))
            <==> (forall j :: 0 <= j < i ==> !Parts(m, run[j], run[j + 1]))
  {
    hide Next, FilesMatch, Parts, HasRecords, Inv, Init;
    if i == 0 {
      NoneInserting(n, start);
      MatchedAtFirst(m, run[0]);
    } else {
      FilesMatchThroughoutIff(m, run, n, start, i - 1);
      RunHasRecords(run, n, start, i - 1);
      RunKeepsInv(run, n, start, i - 1);
      assert Next(run[i - 1], run[i - 1 + 1]);
      if FilesMatch(m, run[i - 1]) { NextMatchesIff(m, run[i - 1], run[i]); }
    }
  }

  lemma MatchedAtFirst(m: Manifest, s: State)
    requires Opened(m) && |s.wals| == |s.mems| == 1
    ensures FilesMatch(m, s)
  {}

  /** So once there have been two rotations no write is harmless: all WALs it could go to share a frozen memtable's
      file. */
  lemma LateWritesPart(m: Manifest, s: State, s': State, f: nat)
    requires Opened(m) && 2 < |s.wals| <= |s'.wals| && f < |s.wals| && s'.wals[f] != s.wals[f]
    ensures Parts(m, s, s')
  {
    var ids := SessionIds(m, |s.wals|);
    var g := if f == 0 then 0 else 1;
    assert ids[g] == ids[f];
  }

  /** In a run whose rotations all fell in quiet moments, a frozen memtable holds what its file holds exactly when no
      other WAL with its id has a record. */
  lemma QuietFileIff(m: Manifest, run: seq<State>, n: nat, start: nat, i: nat, f: nat)
    requires Opened(m) && IsRun(run, n, start) && i < |run| && f < |run[i].wals| - 1
    requires forall j :: 0 <= j < i && |run[j + 1].wals| > |run[j].wals| ==> QuietMoment(run[j])
    ensures |run[i].mems| == |run[i].wals|
    ensures var ids := SessionIds(m, |run[i].wals|);
            FileOf(m, run[i].wals, f) == run[i].mems[f]
            <==> forall g :: 0 <= g < |run[i].wals| && g != f && ids[g] == ids[f] ==> run[i].wals[g] == []
  {
    hide IsRun, QuietMoment;
    SettledThroughoutIff(run, n, start, i);
    assert Settled(run[i]);
    AloneIff(run[i].wals, SessionIds(m, |run[i].wals|), f);
  }

  // --- What a flush leaves behind ---

  /** The record is in one of the k oldest memtables. */
  predicate InFlushed<T(==)>(mems: seq<seq<T>>, k: nat, r: T) {
    exists f :: 0 <= f < k && f < |mems| && r in mems[f]
  }

  /** Or in a file that is still named once their k WALs have been dropped. */
  predicate InNamed<T(==)>(m: Manifest, wals: seq<seq<T>>, k: nat, r: T)
    requires Opened(m)
  {
    exists f :: k <= f < |wals| && r in FileOf(m, wals, f)
  }

  predicate Distinct<T(==)>(log: seq<T>) {
    forall x, y :: 0 <= x < y < |log| ==> log[x] != log[y]
  }

  /** WALs and memtables hold prefixes of one log of different records, the WALs the longer one. */
  predicate Split<T(==)>(wals: seq<seq<T>>, mems: seq<seq<T>>, log: seq<T>) {
    && |wals| == |mems| > 0 && Flatten(mems) <= Flatten(wals) <= log && Distinct(log)
  }

  lemma InPrefixIff<T>(log: seq<T>, a: nat, x: nat)
    requires Distinct(log) && a <= |log| && x < |log|
    ensures log[x] in log[..a] <==> x < a
  {
    if x < a { assert log[..a][x] == log[x]; }
  }

  lemma InSuffixIff<T>(log: seq<T>, a: nat, b: nat, x: nat)
    requires Distinct(log) && a <= b <= |log| && x < |log|
    ensures log[x] in log[a..b] <==> a <= x < b
  {
    if a <= x < b { assert log[a..b][x - a] == log[x]; }
  }

  lemma FlushedIff<T>(wals: seq<seq<T>>, mems: seq<seq<T>>, log: seq<T>, k: nat, x: nat)
    requires Split(wals, mems, log) && k <= |mems| && x < |log|
    ensures InFlushed(mems, k, log[x]) <==> x < |Flatten(mems[..k])|
  {
    hide Flatten;
    FlattenPrefix(mems, k);
    InFlatten(mems[..k], log[x]);
    var a := |Flatten(mems[..k])|;
    assert Flatten(mems[..k]) == log[..a];
    InPrefixIff(log, a, x);
    if x < a {
      var f :| 0 <= f < |mems[..k]| && log[x] in mems[..k][f];
      assert log[x] in mems[f];
    }
  }

  lemma NamedIff<T>(m: Manifest, wals: seq<seq<T>>, mems: seq<seq<T>>, log: seq<T>, k: nat, x: nat)
    requires Opened(m) && Split(wals, mems, log) && 0 < k < |wals| && x < |log|
    ensures InNamed(m, wals, k, log[x]) <==> |wals[0]| <= x < |Flatten(wals)|
  {
    hide Flatten, FileOf;
    FlattenCons(wals);
    var a, b := |wals[0]|, |Flatten(wals)|;
    assert Flatten(wals[1..]) == log[a..b];
    InSuffixIff(log, a, b, x);
    forall f | k <= f < |wals| ensures FileOf(m, wals, f) == log[a..b] { FileIs(m, wals, f); }
    if a <= x < b {
      assert log[x] in FileOf(m, wals, k);
    }
  }

  /** A written record is in a flushed memtable or in a file still named exactly when it was inserted into one of them
      or did not go to the first WAL. */
  lemma SafeIff<T>(m: Manifest, wals: seq<seq<T>>, mems: seq<seq<T>>, log: seq<T>, k: nat, x: nat)
    requires Opened(m) && Split(wals, mems, log) && 0 < k < |wals| && x < |Flatten(wals)|
    ensures x < |log|
    ensures InFlushed(mems, k, log[x]) || InNamed(m, wals, k, log[x])
            <==> x < |Flatten(mems[..k])| || x >= |wals[0]|
  {
    hide Flatten, InFlushed, InNamed;
    FlushedIff(wals, mems, log, k, x);
    NamedIff(m, wals, mems, log, k, x);
  }

  /** Every record is, exactly when the flushed memtables go at least as far as the first WAL. */
  lemma AllSafeIff<T>(m: Manifest, wals: seq<seq<T>>, mems: seq<seq<T>>, log: seq<T>, k: nat)
    requires Opened(m) && Split(wals, mems, log) && 0 < k < |wals|
    ensures (forall x :: 0 <= x < |Flatten(wals)| ==> InFlushed(mems, k, log[x]) || InNamed(m, wals, k, log[x]))
            <==> |wals[0]| <= |Flatten(mems[..k])|
  {
    hide Flatten, InFlushed, InNamed;
    forall x | 0 <= x < |Flatten(wals)|
      ensures InFlushed(mems, k, log[x]) || InNamed(m, wals, k, log[x])
              <==> x < |Flatten(mems[..k])| || x >= |wals[0]|
    {
      SafeIff(m, wals, mems, log, k, x);
    }
    FlattenCons(wals);
    var x := |Flatten(mems[..k])|;
    if x < |wals[0]| {
      assert !(InFlushed(mems, k, log[x]) || InNamed(m, wals, k, log[x]));
    }
  }

  // --- Over runs ---

  lemma RunSplit(run: seq<State>, n: nat, start: nat, i: nat)
    requires IsRun(run, n, start) && i < |run|
    ensures Split(run[i].wals, run[i].mems, run[i].log) && run[i].start == start
    ensures |Flatten(run[i].mems)| == run[i].applied <= run[i].appended == |Flatten(run[i].wals)|
    ensures forall x :: 0 <= x < |run[i].log| ==> run[i].log[x].lsn == start + x
  {
    hide IsRun, Inv, Flatten;
    RunKeepsInv(run, n, start, i);
    AppliedIsPrefix(run[i]);
    StoredSizes(run[i]);
    RunStart(run, n, start, i);
  }

  lemma StoredSizes(s: State)
    requires Inv(s)
    ensures |Flatten(s.mems)| == s.applied <= s.appended == |Flatten(s.wals)| && |s.wals| == |s.mems| > 0
  {
    AppliedBound(s);
    hide MemberInv, QueueInv, GroupInv, WalInv, TicketInv, LogInv, AppendPos, ApplyPos, Flatten;
  }

  /** A step leaves frozen memtables alone and takes nothing out of a WAL. */
  predicate Grows(s: State, s': State) {
    && s'.start == s.start && s.applied <= s'.applied && |s.wals| <= |s'.wals| && |s.mems| <= |s'.mems|
    && (forall f :: 0 <= f < |s.mems| - 1 ==> s'.mems[f] == s.mems[f])
    && (forall f :: 0 <= f < |s.wals| ==> |s.wals[f]| <= |s'.wals[f]|)
    && (s.wals != [] && s'.wals[0] != s.wals[0] ==> |s'.wals[0]| > s.applied)
  }

  lemma StepGrows(s: State, w: nat, full: bool)
    requires Inv(s) && Shape(s) && CanStep(s, w)
    ensures Grows(s, Step(s, w, full))
  {
    hide Inv, Step, Shape;
    if s.pc[w].WalAppend? {
      AppendsSomewhere(s, w);
      AppendStep(s, w, full);
      FirstWalGrows(s, w);
    } else if s.pc[w].MemRotate? {
      RotateStep(s, w, full);
    } else {
      OthersKeepFrozen(s, w, full);
      StepApplies(s, w, full);
    }
  }

  lemma StepApplies(s: State, w: nat, full: bool)
    requires Shape(s) && CanStep(s, w)
    ensures Step(s, w, full).applied >= s.applied && Step(s, w, full).start == s.start
  {
    hide BaseLsn, Batch, Shape;
  }

  /** A write to the first WAL brings it beyond everything applied. */
  lemma FirstWalGrows(s: State, w: nat)
    requires Inv(s) && Shape(s) && w < |s.pc| && s.pc[w].WalAppend? && s.pc[w].file < |s.wals|
    requires forall f :: s.pc[w].file < f < |s.wals| ==> s.wals[f] == []
    ensures Grows(s, Append(s, w))
  {
    hide Inv, Flatten, BaseLsn;
    StoredSizes(s);
    if s.pc[w].file == 0 {
      FlattenCons(s.wals);
      NoneLeft(s.wals[1..]);
    }
  }

  lemma {:induction false} NoneLeft<T>(xs: seq<seq<T>>)
    requires forall f :: 0 <= f < |xs| ==> xs[f] == []
    ensures Flatten(xs) == []
  {
    if xs != [] { NoneLeft(xs[..|xs| - 1]); }
  }

  lemma NextGrows(s: State, s': State)
    requires Inv(s) && Next(s, s')
    ensures Grows(s, s')
  {
    hide Inv, Step, Shape, Grows;
    var w: nat, full: bool :| StepsTo(s, w, full, s');
    if CanStep(s, w) && s' == Step(s, w, full) {
      StepGrows(s, w, full);
    } else {
      WakeGrows(s, w);
    }
  }

  lemma WakeGrows(s: State, w: nat)
    requires w < |s.pc|
    ensures Grows(s, SpuriousWake(s, w))
  {}

  lemma {:induction false} RunStart(run: seq<State>, n: nat, start: nat, i: nat)
    requires IsRun(run, n, start) && i < |run|
    ensures run[i].start == start
  {
    hide Next, Inv;
    if i > 0 {
      RunStart(run, n, start, i - 1);
      RunKeepsInv(run, n, start, i - 1);
      assert Next(run[i - 1], run[i - 1 + 1]);
      NextGrows(run[i - 1], run[i]);
    }
  }

  /** Run j's next step is the session's k-th rotation. */
  predicate Rotation(run: seq<State>, j: nat, k: nat) {
    j + 1 < |run| && |run[j].wals| == k && |run[j + 1].wals| == k + 1
  }

  /** From its rotation on a memtable stays as it was, and the first WAL goes beyond what was applied then if it still
      grows. */
  lemma {:induction false} SinceRotation(run: seq<State>, n: nat, start: nat, j: nat, k: nat, i: nat)
    requires IsRun(run, n, start) && Rotation(run, j, k) && k > 0 && j < i < |run|
    ensures |run[i].wals| == |run[i].mems| > k && run[i].mems[..k] == run[j].mems && run[j].applied <= run[i].applied
    ensures |run[i].wals[0]| <= run[j].applied
            <==> run[i].wals[0] == run[j].wals[0] && |run[j].wals[0]| <= run[j].applied
    ensures |run[j].wals[0]| <= |run[i].wals[0]|
  {
    hide Next, Inv, Flatten;
    RunSplit(run, n, start, i - 1);
    RunSplit(run, n, start, i);
    RunKeepsInv(run, n, start, i - 1);
    assert Next(run[i - 1], run[i - 1 + 1]);
    NextGrows(run[i - 1], run[i]);
    if i == j + 1 {
      RotationFreezes(run[j], run[i]);
    } else {
      SinceRotation(run, n, start, j, k, i - 1);
      hide IsRun, Split;
      assert run[i].mems[..k] == run[i - 1].mems[..k];
    }
  }

  lemma RotationFreezes(s: State, s': State)
    requires Inv(s) && Next(s, s') && |s'.wals| > |s.wals|
    ensures s'.mems == s.mems + [[]] && s'.wals == s.wals + [[]] && s'.applied == s.applied
  {
    InvShape(s);
    hide Inv, Step, Shape;
    var w: nat, full: bool :| StepsTo(s, w, full, s');
    if CanStep(s, w) && s' == Step(s, w, full) {
      if s.pc[w].MemRotate? {
        RotateStep(s, w, full);
      } else if s.pc[w].WalAppend? {
        AppendStep(s, w, full);
      } else {
        OthersKeepFrozen(s, w, full);
      }
    }
  }

  /** In every run, once the k oldest memtables have been flushed and their WALs dropped, a put that has returned has
      its record in a flushed memtable or in a file still named exactly when the record had been applied before the
      k-th rotation or is not in the first WAL. */
  lemma AcknowledgedSurvivesIff(m: Manifest, run: seq<State>, n: nat, start: nat, j: nat, k: nat, i: nat, w: nat)
    returns (x: nat)
    requires Opened(m) && IsRun(run, n, start) && Rotation(run, j, k) && k > 0 && j < i < |run|
    requires w < |run[i].pc| && run[i].pc[w].Done?
    ensures |run[i].wals| > 0 && run[i].mems != [] && x < |run[i].log| && run[i].log[x] == Rec(w, start + x)
    ensures InFlushed(run[i].mems, k, Rec(w, start + x)) || InNamed(m, run[i].wals, k, Rec(w, start + x))
            <==> x < run[j].applied || x >= |run[i].wals[0]|
  {
    hide IsRun, Inv, Flatten, InFlushed, InNamed;
    RunSplit(run, n, start, i);
    RunSplit(run, n, start, j);
    RunKeepsInv(run, n, start, i);
    SinceRotation(run, n, start, j, k, i);
    x := OkMeansStored(run[i], w);
    SafeIff(m, run[i].wals, run[i].mems, run[i].log, k, x);
  }

  /** Nothing is lost to the flush at any time exactly when at the k-th rotation everything in the first WAL had been
      applied and nothing has been written to it since. */
  lemma FlushLosesNothingIff(m: Manifest, run: seq<State>, n: nat, start: nat, j: nat, k: nat, i: nat)
    requires Opened(m) && IsRun(run, n, start) && Rotation(run, j, k) && k > 0 && j < i < |run|
    ensures |run[i].wals| > 0 && |run[j].wals| > 0 && run[i].appended <= |run[i].log|
    ensures (forall x :: 0 <= x < run[i].appended ==>
               InFlushed(run[i].mems, k, run[i].log[x]) || InNamed(m, run[i].wals, k, run[i].log[x]))
            <==> |run[j].wals[0]| <= run[j].applied && run[i].wals[0] == run[j].wals[0]
  {
    hide IsRun, Inv, Flatten, InFlushed, InNamed;
    RunSplit(run, n, start, i);
    RunSplit(run, n, start, j);
    SinceRotation(run, n, start, j, k, i);
    AllSafeIff(m, run[i].wals, run[i].mems, run[i].log, k);
  }

  /** If at the k-th rotation no write to the first WAL was in flight, there never is one again. */
  lemma {:induction false} FirstWalStays(run: seq<State>, n: nat, start: nat, j: nat, k: nat, i: nat)
    requires IsRun(run, n, start) && Rotation(run, j, k) && k > 0 && j < i < |run|
    requires forall l :: 0 <= l < |run[j].pc| ==> run[j].pc[l] != WalAppend(0)
    ensures |run[i].wals| > 1 && run[i].wals[0] == run[j].wals[0]
    ensures forall l :: 0 <= l < |run[i].pc| ==> run[i].pc[l] != WalAppend(0)
  {
    hide Next, Inv, Flatten, Init;
    RunKeepsInv(run, n, start, i - 1);
    assert Next(run[i - 1], run[i - 1 + 1]);
    if i == j + 1 {
      RotationFreezes(run[j], run[i]);
      RotationStarts(run[j], run[i]);
    } else {
      FirstWalStays(run, n, start, j, k, i - 1);
      NotFirst(run[i - 1], run[i]);
    }
  }

  lemma RotationStarts(s: State, s': State)
    requires Inv(s) && Next(s, s') && |s'.wals| > |s.wals| && forall l :: 0 <= l < |s.pc| ==> s.pc[l] != WalAppend(0)
    ensures forall l :: 0 <= l < |s'.pc| ==> s'.pc[l] != WalAppend(0)
  {
    InvShape(s);
    hide Inv, Step, Shape;
    var w: nat, full: bool :| StepsTo(s, w, full, s');
    if CanStep(s, w) && s' == Step(s, w, full) {
      if s.pc[w].MemRotate? {
        RotateStep(s, w, full);
      } else if s.pc[w].WalAppend? {
        AppendStep(s, w, full);
      } else {
        OthersKeepFrozen(s, w, full);
      }
    }
  }

  lemma NotFirst(s: State, s': State)
    requires Inv(s) && Next(s, s') && |s.wals| > 1 && forall l :: 0 <= l < |s.pc| ==> s.pc[l] != WalAppend(0)
    ensures |s'.wals| > 1 && s'.wals[0] == s.wals[0] && forall l :: 0 <= l < |s'.pc| ==> s'.pc[l] != WalAppend(0)
  {
    InvShape(s);
    hide Inv, Step, Shape, SpuriousWake;
    var w: nat, full: bool :| StepsTo(s, w, full, s');
    if CanStep(s, w) && s' == Step(s, w, full) {
      hide *;
      NoneLoads(s, w, full);
      StepKeepsFirst(s, w, full);
    } else {
      WakeLoads(s, w);
    }
  }

  lemma WakeLoads(s: State, w: nat)
    requires w < |s.pc| && forall l :: 0 <= l < |s.pc| ==> s.pc[l] != WalAppend(0)
    ensures SpuriousWake(s, w).wals == s.wals
    ensures forall l :: 0 <= l < |SpuriousWake(s, w).pc| ==> SpuriousWake(s, w).pc[l] != WalAppend(0)
  {
    hide WakeWal, WakeMem;
  }

  lemma NoneLoads(s: State, w: nat, full: bool)
    requires Shape(s) && CanStep(s, w) && |s.wals| > 1 && forall l :: 0 <= l < |s.pc| ==> s.pc[l] != WalAppend(0)
    ensures forall l :: 0 <= l < |Step(s, w, full).pc| ==> Step(s, w, full).pc[l] != WalAppend(0)
  {
    hide Step, Shape;
    forall l | 0 <= l < |Step(s, w, full).pc| ensures Step(s, w, full).pc[l] != WalAppend(0) {
      StepLoads(s, w, full, l);
    }
  }

  lemma StepKeepsFirst(s: State, w: nat, full: bool)
    requires Shape(s) && CanStep(s, w) && |s.wals| > 1 && s.pc[w] != WalAppend(0)
    ensures |Step(s, w, full).wals| > 1 && Step(s, w, full).wals[0] == s.wals[0]
  {
    hide Step, BaseLsn, Batch;
    if s.pc[w].MemRotate? {
      RotateStep(s, w, full);
    } else if s.pc[w].WalAppend? {
      AppendStep(s, w, full);
    } else {
      OthersKeepFrozen(s, w, full);
    }
  }

  /** A WAL chosen anew is the newest. */
  lemma StepLoads(s: State, w: nat, full: bool, l: nat)
    requires Shape(s) && CanStep(s, w) && l < |Step(s, w, full).pc|
    ensures l < |s.pc|
    ensures Step(s, w, full).pc[l].WalAppend? ==>
              Step(s, w, full).pc[l] == s.pc[l] || Step(s, w, full).pc[l] == WalAppend(|s.wals| - 1)
  {
    hide BaseLsn, Batch, Notify, WakeWal, WakeMem;
    WakesNoWriter(s.pc, w);
    match s.pc[w]
    case Marking(k) => if k < |s.group[w]| && s.group[w][k] < |s.pc| { WakesNoWriter(s.pc, s.group[w][k]); }
    case Finishing(k) => if k < |s.group[w]| && s.group[w][k] < |s.pc| { WakesNoWriter(s.pc, s.group[w][k]); }
    case _ =>
  }

  lemma WakesNoWriter(pc: seq<Pc>, w: nat)
    requires w < |pc|
    ensures |Notify(pc, w)| == |WakeWal(pc)| == |WakeMem(pc)| == |pc|
    ensures forall l :: 0 <= l < |pc| ==>
              && (Notify(pc, w)[l].WalAppend? ==> Notify(pc, w)[l] == pc[l])
              && (WakeWal(pc)[l].WalAppend? ==> WakeWal(pc)[l] == pc[l])
              && (WakeMem(pc)[l].WalAppend? ==> WakeMem(pc)[l] == pc[l])
  {}

  /** A rotation in a quiet moment, then, makes the flush of its memtable and those before it safe for good. */
  lemma QuietRotationIsSafe(m: Manifest, run: seq<State>, n: nat, start: nat, j: nat, k: nat, i: nat)
    requires Opened(m) && IsRun(run, n, start) && Rotation(run, j, k) && k > 0 && j < i < |run| && QuietMoment(run[j])
    ensures |run[i].wals| > 0 && run[i].appended <= |run[i].log|
    ensures forall x :: 0 <= x < run[i].appended ==>
              InFlushed(run[i].mems, k, run[i].log[x]) || InNamed(m, run[i].wals, k, run[i].log[x])
  {
    hide IsRun, Inv, Flatten, InFlushed, InNamed;
    FirstWalStays(run, n, start, j, k, i);
    RunSplit(run, n, start, j);
    FlattenCons(run[j].wals);
    FlushLosesNothingIff(m, run, n, start, j, k, i);
  }

  // --- A run that gets there ---

  /** Everyone but w has returned or not called yet. */
  predicate AloneBut(pc: seq<Pc>, w: nat) {
    forall v :: 0 <= v < |pc| && v != w ==> pc[v].Start? || pc[v].Done?
  }

  lemma NoneWoken(pc: seq<Pc>, w: nat, p: Pc)
    requires w < |pc| && AloneBut(pc, w)
    ensures WakeWal(pc)[w := p] == pc[w := p] && WakeMem(pc)[w := p] == pc[w := p]
  {}

  lemma WritesAlone(a: State, n: nat, start: nat, w: nat, lsn: nat) returns (s: State)
    requires Reachable(a, n, start) && Shape(a) && w < |a.pc| && AloneBut(a.pc, w) && a.pc[w] == WalAppend(|a.wals| - 1)
    requires a.group[w] == [w] && CommittedLsn(a, w) == lsn && a.ticket[w] == a.sync.ticketToMem
    ensures Reachable(s, n, start)
    ensures var f := |a.wals| - 1;
            s == a.(sync := a.sync.(walBusy := false), owner := None, wals := a.wals[f := a.wals[f] + [Rec(w, lsn)]],
                    appended := a.appended + 1, pc := a.pc[w := MemInsert(0)])
  {
    hide Reachable, Append, WakeWal;
    WriteOne(a, w, lsn);
    var s1 := Reach(a, n, start, w, false);
    NoneWoken(s1.pc, w, MemCheck);
    var s2 := Reach(s1, n, start, w, false);
    assert s2.pc == a.pc[w := MemCheck];
    s := Reach(s2, n, start, w, false);
    assert s.pc == a.pc[w := MemInsert(0)];
  }

  lemma InsertsAlone(a: State, n: nat, start: nat, w: nat, lsn: nat, full: bool) returns (s: State)
    requires Reachable(a, n, start) && Shape(a) && w < |a.pc| && a.pc[w] == MemInsert(0)
    requires a.group[w] == [w] && CommittedLsn(a, w) == lsn
    ensures Reachable(s, n, start)
    ensures var f := |a.mems| - 1;
            var mems := a.mems[f := a.mems[f] + [Rec(w, lsn)]];
            s == a.(applied := a.applied + 1, pc := a.pc[w := MemRelease],
                    mems := if full then mems + [[]] else mems, wals := if full then a.wals + [[]] else a.wals)
  {
    hide Reachable, InsertNext;
    InsertOne(a, w, lsn, full);
    var s1 := Reach(a, n, start, w, full);
    s := InsertedAlone(s1, n, start, w, full);
    assert s.pc == a.pc[w := MemRelease];
  }

  lemma InsertedAlone(a: State, n: nat, start: nat, w: nat, full: bool) returns (s: State)
    requires Reachable(a, n, start) && Shape(a) && w < |a.pc| && a.pc[w] == MemInsert(1) && a.group[w] == [w]
    ensures Reachable(s, n, start)
    ensures s == a.(pc := a.pc[w := MemRelease], mems := if full then a.mems + [[]] else a.mems,
                    wals := if full then a.wals + [[]] else a.wals)
  {
    hide Reachable;
    s := Reach(a, n, start, w, full);
    if full {
      assert s.pc[w].MemRotate?;
      s := Reach(s, n, start, w, full);
    }
    assert s.pc == a.pc[w := MemRelease];
  }

  lemma FinishesAlone(a: State, n: nat, start: nat, w: nat, lsn: nat) returns (s: State)
    requires Reachable(a, n, start) && Shape(a) && w < |a.pc| && a.pc[w] == MemRelease && AloneBut(a.pc, w)
    requires a.group[w] == [w] && CommittedLsn(a, w) == lsn
    ensures Reachable(s, n, start)
    ensures s == a.(sync := a.sync.(ticketToMem := a.sync.ticketToMem + 1), slot := a.slot[w := ToldDone(lsn)],
                    pc := a.pc[w := Done(lsn)])
  {
    hide Reachable, WakeMem;
    NoneWoken(a.pc, w, Finishing(0));
    var s1 := Reach(a, n, start, w, false);
    assert s1.pc == a.pc[w := Finishing(0)];
    var s2 := Reach(s1, n, start, w, false);
    assert s2.pc == a.pc[w := Finishing(1)];
    s := Reach(s2, n, start, w, false);
    assert s.pc == a.pc[w := Done(lsn)];
  }

  /** Nobody is in the protocol: w has not called, nor has anyone after it. */
  predicate Calm(s: State, w: nat) {
    && Shape(s) && w <= |s.pc| && s.sync.queue == [] && !s.sync.walBusy && s.sync.ticketToMem == s.sync.nextTicket
    && AloneBut(s.pc, |s.pc|) && forall v :: w <= v < |s.pc| ==> s.pc[v].Start? && s.slot[v].Empty? && s.group[v] == []
  }

  /** A put from its call to its return, alone, rotating at the end if told so. */
  lemma PutAlone(s: State, n: nat, start: nat, w: nat, full: bool) returns (s': State)
    requires Reachable(s, n, start) && Calm(s, w) && w < |s.pc|
    ensures Reachable(s', n, start) && Calm(s', w + 1) && |s'.pc| == |s.pc| && s'.sync.nextLsn == s.sync.nextLsn + 1
    ensures var f, r := |s.wals| - 1, [Rec(w, s.sync.nextLsn)];
            && s'.wals == s.wals[f := s.wals[f] + r] + (if full then [[]] else [])
            && s'.mems == s.mems[f := s.mems[f] + r] + (if full then [[]] else [])
  {
    hide Reachable, AtWal;
    ReachWal(s, n, start, w);
    var lsn := s.sync.nextLsn;
    AtWalIs(s, w);
    var s1 := WritesAlone(AtWal(s, w), n, start, w, lsn);
    var s2 := InsertsAlone(s1, n, start, w, lsn, full);
    s' := FinishesAlone(s2, n, start, w, lsn);
    assert s'.pc == s.pc[w := Done(lsn)] && s'.slot == s.slot[w := ToldDone(lsn)] && s'.group == s.group[w := [w]];
    if !full {
      assert s'.wals + [] == s'.wals && s'.mems + [] == s'.mems;
    }
  }

  lemma AtWalIs(s: State, w: nat)
    requires Calm(s, w) && w < |s.pc|
    ensures var a := AtWal(s, w);
            && Shape(a) && |a.pc| == |s.pc| && |s.wals| > 0 && |s.group| == |s.slot| == |s.pc|
            && a.pc == s.pc[w := WalAppend(|s.wals| - 1)] && a.group == s.group[w := [w]]
            && a.slot == s.slot[w := ToldFollow] && a.ticket[w] == a.sync.ticketToMem
            && CommittedLsn(a, w) == s.sync.nextLsn && a.wals == s.wals && a.mems == s.mems
            && a.sync.queue == [] && a.sync.nextTicket == a.sync.ticketToMem + 1
            && a.sync.nextLsn == s.sync.nextLsn + 1
  {}

  /** Two quiet rotations and one more put, one after another: each memtable still holds what its own WAL took, but the
      second frozen one no longer holds what its file does. */
  lemma ThirdPutParts(start: nat, m: Manifest) returns (s: State)
    requires Opened(m)
    ensures Reachable(s, 3, start) && Settled(s) && QuietMoment(s) && !FilesMatch(m, s)
    ensures s.wals == s.mems == [[Rec(0, start)], [Rec(1, start + 1)], [Rec(2, start + 2)]]
  {
    hide Reachable, FileOf;
    var s0 := Init(3, start);
    ReachInit(3, start);
    var s1 := PutAlone(s0, 3, start, 0, true);
    assert [] + [Rec(0, start)] == [Rec(0, start)];
    assert s1.wals == s1.mems == [[Rec(0, start)], []];
    var s2 := PutAlone(s1, 3, start, 1, true);
    assert [] + [Rec(1, start + 1)] == [Rec(1, start + 1)];
    assert s2.wals == s2.mems == [[Rec(0, start)], [Rec(1, start + 1)], []];
    s := PutAlone(s2, 3, start, 2, false);
    assert [] + [Rec(2, start + 2)] == [Rec(2, start + 2)];
    assert s.wals == s.mems == [[Rec(0, start)], [Rec(1, start + 1)], [Rec(2, start + 2)]];
    SecondShares(m, s.wals);
    CalmIsQuiet(s, 3, start);
  }

  lemma SecondShares<T>(m: Manifest, wals: seq<seq<T>>)
    requires Opened(m) && |wals| == 3 && wals[2] != []
    ensures FileOf(m, wals, 1) != wals[1]
  {
    AloneIff(wals, SessionIds(m, 3), 1);
  }

  lemma CalmIsQuiet(s: State, n: nat, start: nat)
    requires Reachable(s, n, start) && Calm(s, |s.pc|) && s.wals == s.mems
    ensures Settled(s) && QuietMoment(s)
  {
    hide Next, Init, Flatten;
    var run :| IsRun(run, n, start) && run[|run| - 1] == s;
    RunSplit(run, n, start, |run| - 1);
  }
}
