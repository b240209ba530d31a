/** Garbage collection under the last-two rule, and what recovery finds in either of the two manifests. */
module Retention {
  import opened Codec
  import opened Entries
  import opened Manifests
  import opened Levels
  import opened Compaction
  import opened Compactor
  import opened Flushing

  /** What a manifest names. */
  datatype Names = Names(wals: seq<u32>, ssts: set<u32>)

  /** A collection: the names in memory when it began; then the directory as it listed it, with the number of
      manifests it found too old. */
  datatype Gc = NoGc | Snapped(live: Names) | Listed(live: Names, wals: set<u32>, ssts: set<u32>, top: seq<Names>,
                                                     past: nat)

  /** The manifests on disk, oldest first, the last being the one in memory; the WALs and tables on disk; a
      WAL created by a rotation that has not committed, and the compactor's tables that have not. */
  datatype State = State(kept: seq<Names>, wals: set<u32>, ssts: set<u32>, newWal: Option<u32>, newSsts: set<u32>,
                         gc: Gc)

  function Newest(s: State): Names
    requires s.kept != []
  {
    s.kept[|s.kept| - 1]
  }

  function Wals(n: Names): set<u32> { set w | w in n.wals }

  /** How many manifests precede the two newest. */
  function Older(s: State): nat { if |s.kept| <= 2 then 0 else |s.kept| - 2 }

  /** The two newest manifests, or the only one. */
  function LastTwo(s: State): seq<Names> { s.kept[Older(s)..] }

  predicate NamedWal(ns: seq<Names>, w: u32) { exists n :: n in ns && w in n.wals }

  predicate NamedSst(ns: seq<Names>, f: u32) { exists n :: n in ns && f in n.ssts }

  // --- Steps ---

  /** A rotation's mutator creates the WAL file before anything is committed. */
  function CreateWal(s: State, w: u32): State { s.(wals := s.wals + {w}, newWal := Some(w)) }

  function CommitRotation(s: State): State
    requires s.kept != [] && s.newWal.Some?
  {
    s.(kept := s.kept + [Names(Newest(s).wals + [s.newWal.value], Newest(s).ssts)], newWal := None)
  }

  /** A flush or compaction writes tables. */
  function CreateSsts(s: State, fs: set<u32>): State { s.(ssts := s.ssts + fs, newSsts := s.newSsts + fs) }

  /** Then commits a manifest naming nothing but what the current one names and what it wrote. */
  predicate MayCommit(s: State, n: Names)
    requires s.kept != []
  {
    Wals(n) <= Wals(Newest(s)) && n.ssts <= Newest(s).ssts + s.newSsts
  }

  function CommitTables(s: State, n: Names): State { s.(kept := s.kept + [n], newSsts := {}) }

  /** Under the lock: what the manifest in memory names. */
  function Snapshot(s: State): State
    requires s.kept != []
  {
    s.(gc := Snapped(Newest(s)))
  }

  /** Without it: the directory, and what the two newest manifests in it name. */
  function List(s: State): State
    requires s.gc.Snapped?
  {
    s.(gc := Listed(s.gc.live, s.wals, s.ssts, LastTwo(s), Older(s)))
  }

  function Keeps(g: Gc): seq<Names>
    requires g.Listed?
  {
    [g.live] + g.top
  }

  /** Deletes the older manifests and every listed WAL and table that nothing kept names. */
  function Delete(s: State): State
    requires s.gc.Listed? && s.gc.past <= |s.kept|
  {
    s.(kept := s.kept[s.gc.past..],
       wals := (set w | w in s.wals && (w in s.gc.wals ==> NamedWal(Keeps(s.gc), w))),
       ssts := (set f | f in s.ssts && (f in s.gc.ssts ==> NamedSst(Keeps(s.gc), f))),
       gc := NoGc)
  }

  /** Rotations come at any time; tables and collections are the compactor's, one thing after another. */
  ghost predicate Next(s: State, s': State) {
    && s.kept != []
    && (|| (s.newWal.None? && exists w :: s' == CreateWal(s, w))
        || (s.newWal.Some? && s' == CommitRotation(s))
        || (s.gc.NoGc? && exists fs :: s' == CreateSsts(s, fs))
        || (s.gc.NoGc? && exists n :: MayCommit(s, n) && s' == CommitTables(s, n))
        || (s.gc.NoGc? && s.newSsts == {} && s' == Snapshot(s))
        || (s.gc.Snapped? && s' == List(s))
        || (s.gc.Listed? && s.gc.past <= |s.kept| && s' == Delete(s)))
  }

  /** Every WAL and table named by either of the two newest manifests exists. */
  predicate Recoverable(s: State) {
    forall n :: n in LastTwo(s) ==> Present(s, n)
  }

  predicate Present(s: State, n: Names) { Wals(n) <= s.wals && n.ssts <= s.ssts }

  /** What a collection under way will not delete. */
  predicate Spared(s: State, n: Names) {
    s.gc.Listed? ==>
      && (forall w :: w in n.wals && w in s.gc.wals ==> NamedWal(Keeps(s.gc), w))
      && (forall f :: f in n.ssts && f in s.gc.ssts ==> NamedSst(Keeps(s.gc), f))
  }

  predicate SparedWal(g: Gc, w: u32) { g.Listed? && w in g.wals ==> NamedWal(Keeps(g), w) }

  predicate Inv(s: State) {
    && s.kept != [] && Recoverable(s) && s.newSsts <= s.ssts
    && (s.newWal.Some? ==> s.newWal.value in s.wals && SparedWal(s.gc, s.newWal.value))
    && (forall n :: n in LastTwo(s) ==> Spared(s, n))
    && (s.gc.Listed? ==> s.gc.past <= Older(s))
    && (!s.gc.NoGc? ==> s.newSsts == {})
  }

  /** No directory listing falls between a rotation's creation of its WAL and its commit, and no rotation takes
      the id of a listed WAL that nothing names. */
  predicate AtomicRotation(s: State, s': State) {
    && (s.newWal.Some? ==> s'.gc.Listed? && !s.gc.Listed? ==> SparedWal(s'.gc, s.newWal.value))
    && (s.newWal.None? && s'.newWal.Some? ==> SparedWal(s.gc, s'.newWal.value))
  }

  lemma LastTwoAfter(s: State, n: Names, s': State)
    requires s.kept != [] && s'.kept == s.kept + [n]
    ensures LastTwo(s') == [Newest(s), n] && Newest(s) in LastTwo(s) && Older(s) <= Older(s')
  {
    TakeLastTwo(s.kept, n);
    LastOf(s.kept);
  }

  lemma TakeLastTwo<T>(xs: seq<T>, x: T)
    requires xs != []
    ensures (xs + [x])[|xs| - 1..] == [xs[|xs| - 1], x]
  {}

  lemma LastOf<T>(xs: seq<T>)
    requires xs != []
    ensures xs[|xs| - 1] in xs && (|xs| > 2 ==> xs[|xs| - 1] in xs[|xs| - 2..])
  {
    if |xs| > 2 { assert xs[|xs| - 2..][1] == xs[|xs| - 1]; }
  }

  lemma RotationKeeps(s: State)
    requires Inv(s) && s.newWal.Some?
    ensures Inv(CommitRotation(s))
  {
    var n, s' := Names(Newest(s).wals + [s.newWal.value], Newest(s).ssts), CommitRotation(s);
    LastTwoAfter(s, n, s');
    assert Present(s, Newest(s)) && Spared(s, Newest(s));
    hide LastTwo, Older, NamedWal, NamedSst;
    forall w | w in Wals(n) ensures w in s.wals {
      assert w in Newest(s).wals ==> w in Wals(Newest(s));
    }
    assert Spared(s', n) && Spared(s', Newest(s)) && Present(s', n) && Present(s', Newest(s));
  }

  lemma TablesKeep(s: State, n: Names)
    requires Inv(s) && s.gc.NoGc? && MayCommit(s, n)
    ensures Inv(CommitTables(s, n))
  {
    LastTwoAfter(s, n, CommitTables(s, n));
    assert Present(s, Newest(s));
    hide LastTwo, Older, Wals;
  }

  lemma CreateKeeps(s: State, s': State)
    requires Inv(s) && s'.kept == s.kept && s'.gc == s.gc && s.wals <= s'.wals && s.ssts <= s'.ssts
    requires s'.newWal.Some? ==> s'.newWal.value in s'.wals && SparedWal(s'.gc, s'.newWal.value)
    requires s'.newSsts <= s'.ssts && (!s'.gc.NoGc? ==> s'.newSsts == {})
    ensures Inv(s')
  {
    hide NamedWal, NamedSst;
    forall n | n in LastTwo(s') ensures Present(s', n) && Spared(s', n) {
      assert n in LastTwo(s) && Present(s, n) && Spared(s, n);
    }
  }

  lemma ListKeeps(s: State)
    requires Inv(s) && s.gc.Snapped? && (s.newWal.Some? ==> SparedWal(List(s).gc, s.newWal.value))
    ensures Inv(List(s))
  {
    var s' := List(s);
    hide LastTwo, Older;
    forall n | n in LastTwo(s') ensures Spared(s', n) && Present(s', n) {
      assert n in LastTwo(s) && Present(s, n) && n in Keeps(s'.gc);
    }
  }

  lemma SnapshotKeeps(s: State)
    requires Inv(s) && s.newSsts == {}
    ensures Inv(Snapshot(s))
  {
    forall n | n in LastTwo(Snapshot(s)) ensures Present(Snapshot(s), n) {
      assert n in LastTwo(s) && Present(s, n);
    }
  }

  lemma DeleteKeeps(s: State)
    requires Inv(s) && s.gc.Listed?
    ensures Inv(Delete(s)) && LastTwo(Delete(s)) == LastTwo(s)
  {
    var s' := Delete(s);
    SuffixLastTwo(s.kept, s.gc.past, Older(s));
    assert LastTwo(s') == LastTwo(s);
    hide LastTwo, Older, NamedWal, NamedSst;
    forall n | n in LastTwo(s') ensures Present(s', n) {
      assert Present(s, n) && Spared(s, n);
      forall w | w in Wals(n) ensures w in s'.wals { assert w in n.wals && w in s.wals; }
    }
  }

  lemma SuffixLastTwo<T>(xs: seq<T>, i: nat, j: nat)
    requires i <= j <= |xs|
    ensures xs[i..][j - i..] == xs[j..]
  {}

  lemma NextKeeps(s: State, s': State)
    requires Inv(s) && Next(s, s') && AtomicRotation(s, s')
    ensures Inv(s')
  {
    assert s.kept != [] && (s.gc.Listed? ==> s.gc.past <= |s.kept|);
    hide Inv, Delete, List, Snapshot, MayCommit, CommitRotation, CommitTables, CreateWal, CreateSsts, SparedWal;
    if s.gc.Listed? && s' == Delete(s) {
      DeleteKeeps(s);
    } else if s.gc.Snapped? && s' == List(s) {
      ListStep(s);
    } else if s.gc.NoGc? && s.newSsts == {} && s' == Snapshot(s) {
      SnapshotKeeps(s);
    } else if s.newWal.Some? && s' == CommitRotation(s) {
      RotationKeeps(s);
    } else if s.gc.NoGc? && exists n :: MayCommit(s, n) && s' == CommitTables(s, n) {
      var n :| MayCommit(s, n) && s' == CommitTables(s, n);
      TablesKeep(s, n);
    } else if s.gc.NoGc? && exists fs :: s' == CreateSsts(s, fs) {
      var fs :| s' == CreateSsts(s, fs);
      SstsKeep(s, fs);
    } else {
      var w :| s' == CreateWal(s, w);
      WalKeeps(s, w);
    }
  }

  lemma ListStep(s: State)
    requires Inv(s) && s.gc.Snapped? && AtomicRotation(s, List(s))
    ensures Inv(List(s))
  {
    hide NamedWal, NamedSst, LastTwo, Older;
    ListKeeps(s);
  }

  lemma SstsKeep(s: State, fs: set<u32>)
    requires Inv(s) && s.gc.NoGc?
    ensures Inv(CreateSsts(s, fs))
  {
    CreateKeeps(s, CreateSsts(s, fs));
  }

  lemma WalKeeps(s: State, w: u32)
    requires Inv(s) && s.newWal.None? && AtomicRotation(s, CreateWal(s, w))
    ensures Inv(CreateWal(s, w))
  {
    CreateKeeps(s, CreateWal(s, w));
  }

  /** Last-two retention: over any run of rotations, flushes, compactions and collections, everything that
      either of the two newest manifests names exists, provided no listing falls inside a rotation. */
  lemma {:induction false} LastTwoAlwaysRecoverable(run: seq<State>, i: nat)
    requires i < |run| && Inv(run[0])
    requires forall j :: 0 <= j < i ==> Next(run[j], run[j + 1]) && AtomicRotation(run[j], run[j + 1])
    ensures Inv(run[i]) && Recoverable(run[i])
  {
    hide Recoverable, Next, AtomicRotation;
    if i > 0 {
      LastTwoAlwaysRecoverable(run, i - 1);
      NextKeeps(run[i - 1], run[i]);
    }
  }

  /** A collection inside a rotation leaves the database recoverable after the rotation's commit exactly when
      one of the two newest manifests already named the WAL's id. */
  lemma CollectInsideRotationIff(s: State)
    requires Inv(s) && s.gc.NoGc? && s.newSsts == {} && s.newWal.Some?
    ensures var s1 := List(Snapshot(s));
            s1.gc.past <= |s1.kept|
            && (Recoverable(CommitRotation(Delete(s1))) <==> NamedWal(LastTwo(s), s.newWal.value))
  {
    var w, s1 := s.newWal.value, List(Snapshot(s));
    var s2 := Delete(s1);
    SuffixLastTwo(s.kept, Older(s), Older(s));
    LastOf(s.kept);
    assert LastTwo(s2) == LastTwo(s1) == LastTwo(s) && Newest(s) in LastTwo(s);
    assert NamedWal(Keeps(s1.gc), w) <==> NamedWal(LastTwo(s), w);
    assert Newest(s2) == Newest(s);
    var s3 := CommitRotation(s2);
    LastTwoAfter(s2, Names(Newest(s2).wals + [w], Newest(s2).ssts), s3);
    if NamedWal(LastTwo(s), w) {
      SnapshotKeeps(s);
      ListKeeps(Snapshot(s));
      DeleteKeeps(s1);
      RotationKeeps(s2);
    } else {
      assert w in s1.gc.wals && w !in s2.wals;
      assert w in Wals(Newest(s3)) && Newest(s3) in LastTwo(s3);
    }
  }

  // --- What a collection deletes ---

  /** One collection: the snapshot at step c, the listing at step a, the deletion at step b. */
  ghost predicate Collects(run: seq<State>, c: nat, a: nat, b: nat) {
    && c < a < b && b + 1 < |run| && (forall j :: c <= j <= b ==> Next(run[j], run[j + 1]))
    && run[c].gc.NoGc? && (forall j :: c < j <= a ==> run[j].gc.Snapped?)
    && (forall j :: a < j <= b ==> run[j].gc.Listed?) && run[b + 1].gc.NoGc?
  }

  lemma Snaps(s: State, s': State)
    requires Next(s, s') && s.gc.NoGc? && s'.gc.Snapped?
    ensures s'.gc.live == Newest(s) && s'.kept == s.kept && s'.wals == s.wals && s'.ssts == s.ssts
  {}

  lemma Lists(s: State, s': State)
    requires Next(s, s') && s.gc.Snapped? && s'.gc.Listed?
    ensures s'.gc.live == s.gc.live && s'.gc.wals == s.wals && s'.gc.ssts == s.ssts
    ensures s'.gc.past + |s'.gc.top| == |s.kept|
    ensures s'.gc.top == s.kept[s'.gc.past..] && |s'.gc.top| == if |s.kept| < 2 then |s.kept| else 2
    ensures s'.kept == s.kept && s'.wals == s.wals && s'.ssts == s.ssts
  {}

  /** Until it deletes, only rotations do anything else, and they take nothing away and make no table. */
  lemma GoesOn(s: State, s': State)
    requires Next(s, s') && !s.gc.NoGc? && !s'.gc.NoGc? && (s'.gc.Snapped? <==> s.gc.Snapped?)
    ensures s'.gc == s.gc && s.kept <= s'.kept && s.wals <= s'.wals && s'.ssts == s.ssts
  {}

  lemma {:induction false} StaysSnapped(run: seq<State>, c: nat, a: nat, b: nat, j: nat)
    requires Collects(run, c, a, b) && c < j <= a && run[c].kept != []
    ensures run[j].gc.live == Newest(run[c]) && run[c].kept <= run[j].kept && run[j].ssts == run[c].ssts
  {
    hide Next;
    if j == c + 1 {
      assert Next(run[c], run[c + 1]);
      Snaps(run[c], run[j]);
    } else {
      StaysSnapped(run, c, a, b, j - 1);
      assert Next(run[j - 1], run[j - 1 + 1]);
      GoesOn(run[j - 1], run[j]);
    }
  }

  lemma {:induction false} StaysListed(run: seq<State>, c: nat, a: nat, b: nat, j: nat)
    requires Collects(run, c, a, b) && a < j <= b
    ensures run[j].gc == run[a + 1].gc && run[a + 1].kept <= run[j].kept && run[a + 1].wals <= run[j].wals
    ensures run[j].ssts == run[a + 1].ssts
  {
    hide Next;
    if j > a + 1 {
      StaysListed(run, c, a, b, j - 1);
      assert Next(run[j - 1], run[j - 1 + 1]);
      GoesOn(run[j - 1], run[j]);
    }
  }

  lemma Deletes(s: State, s': State)
    requires Next(s, s') && s.gc.Listed? && s'.gc.NoGc?
    ensures s.gc.past <= |s.kept| && s'.kept == s.kept[s.gc.past..]
    ensures forall w :: w in s'.wals <==>
                        w in s.wals && (w in s.gc.wals ==> w in s.gc.live.wals || NamedWal(s.gc.top, w))
    ensures forall f :: f in s'.ssts <==>
                        f in s.ssts && (f in s.gc.ssts ==> f in s.gc.live.ssts || NamedSst(s.gc.top, f))
  {
    var keeps := Keeps(s.gc);
    assert keeps == [s.gc.live] + s.gc.top;
    forall w ensures NamedWal(keeps, w) <==> w in s.gc.live.wals || NamedWal(s.gc.top, w) {
      assert keeps[0] == s.gc.live;
    }
    forall f ensures NamedSst(keeps, f) <==> f in s.gc.live.ssts || NamedSst(s.gc.top, f) {
      assert keeps[0] == s.gc.live;
    }
  }

  /** In every run, after a collection: of the WALs and tables that it listed exactly those are left that the manifest
      in memory at its snapshot names, or one of the two newest at its listing; whatever came since is left; and the
      manifests left are those two and the ones committed since. */
  lemma CollectionLeaves(run: seq<State>, c: nat, a: nat, b: nat)
    requires Collects(run, c, a, b)
    ensures run[c].kept != [] && run[a].kept != [] && |run[a].kept| <= |run[b].kept|
    ensures forall w :: w in run[a].wals ==>
              (w in run[b + 1].wals <==> w in Newest(run[c]).wals || NamedWal(LastTwo(run[a]), w))
    ensures forall w :: w !in run[a].wals ==> (w in run[b + 1].wals <==> w in run[b].wals)
    ensures forall f :: f in run[b + 1].ssts <==>
              f in run[a].ssts && (f in Newest(run[c]).ssts || NamedSst(LastTwo(run[a]), f))
    ensures run[b + 1].kept == LastTwo(run[a]) + run[b].kept[|run[a].kept|..]
  {
    assert Next(run[c], run[c + 1]) && Next(run[a], run[a + 1]) && Next(run[b], run[b + 1]);
    assert run[c].kept != [] && run[a].kept != [];
    hide Next, LastTwo;
    StaysSnapped(run, c, a, b, a);
    Lists(run[a], run[a + 1]);
    StaysListed(run, c, a, b, b);
    Deletes(run[b], run[b + 1]);
    TopIsLastTwo(run[a], run[a + 1].gc.past);
    CutFront(run[b].kept, run[a].kept, run[a + 1].gc.past);
  }

  lemma TopIsLastTwo(s: State, past: nat)
    requires past <= |s.kept| && |s.kept| - past == if |s.kept| < 2 then |s.kept| else 2
    ensures LastTwo(s) == s.kept[past..]
  {}

  lemma CutFront<T>(xs: seq<T>, front: seq<T>, past: nat)
    requires front <= xs && past <= |front|
    ensures xs[past..] == front[past..] + xs[|front|..]
  {}

  /** With no commit in between, the tables left are exactly those listed that one of the two newest manifests names,
      and only these two manifests are left. */
  lemma QuietCollectionLeaves(run: seq<State>, c: nat, a: nat, b: nat)
    requires Collects(run, c, a, b) && run[b].kept == run[c].kept
    ensures run[a].kept == run[c].kept && run[b + 1].kept == LastTwo(run[a])
    ensures forall f :: f in run[b + 1].ssts <==> f in run[a].ssts && NamedSst(LastTwo(run[a]), f)
    ensures forall w :: w in run[a].wals ==> (w in run[b + 1].wals <==> NamedWal(LastTwo(run[a]), w))
  {
    hide LastTwo;
    CollectionLeaves(run, c, a, b);
    StaysSnapped(run, c, a, b, a);
    assert Next(run[a], run[a + 1]);
    hide Collects, Next;
    assert run[a].kept == run[c].kept;
    assert run[b].kept[|run[a].kept|..] == [] && LastTwo(run[a]) + [] == LastTwo(run[a]);
    NewestNames(run[a]);
  }

  lemma NewestNames(s: State)
    requires s.kept != []
    ensures forall w :: w in Newest(s).wals ==> NamedWal(LastTwo(s), w)
    ensures forall f :: f in Newest(s).ssts ==> NamedSst(LastTwo(s), f)
  {
    LastOf(s.kept);
    assert Newest(s) in LastTwo(s);
  }

  // --- What recovery finds ---

  /** All the entries of these WALs. */
  function Logged(log: map<u32, seq<Entry>>, wals: seq<u32>): set<Entry> {
    if wals == [] then {}
    else Logged(log, wals[..|wals| - 1]) + Written(log, wals[|wals| - 1])
  }

  function Written(log: map<u32, seq<Entry>>, w: u32): set<Entry> {
    if w in log then (set e | e in log[w]) else {}
  }

  /** The entries a database recovers from these WALs and levels. */
  function Recovered(log: map<u32, seq<Entry>>, wals: seq<u32>, levels: DbLevels): set<Entry> {
    Logged(log, wals) + set e | e in Total(levels)
  }

  lemma {:induction false} LoggedAppend(log: map<u32, seq<Entry>>, a: seq<u32>, b: seq<u32>)
    ensures Logged(log, a + b) == Logged(log, a) + Logged(log, b)
  {
    if b == [] {
      assert a + b == a;
    } else {
      var n := |b| - 1;
      assert (a + b)[..|a + b| - 1] == a + b[..n];
      LoggedAppend(log, a, b[..n]);
    }
  }

  /** Every record of a WAL whose id the flush of the first k drops altogether is in a flushed table, in a table there
      was, or in a WAL still named. */
  ghost predicate Covered(log: map<u32, seq<Entry>>, wals: seq<u32>, levels: DbLevels, k: nat, out: Levels.Files)
    requires k <= |wals|
  {
    forall w, e :: w in wals[..k] && w !in wals[k..] && w in log && e in log[w] ==>
      e in Bag(out) || e in Total(levels) || e in Logged(log, wals[k..])
  }

  lemma {:induction false} LoggedIn(log: map<u32, seq<Entry>>, wals: seq<u32>, e: Entry)
    ensures e in Logged(log, wals) <==> exists w :: w in wals && w in log && e in log[w]
  {
    if wals != [] {
      var n := |wals| - 1;
      LoggedIn(log, wals[..n], e);
      assert wals == wals[..n] + [wals[n]];
    }
  }

  /** A flush commit that writes any tables and drops the first k WALs, whatever ids these share with others: recovering
      from the manifest before it and from the one after it gives the same entries exactly when the tables hold nothing
      that was not recovered before and the WALs whose ids are gone are covered. */
  lemma FlushKeepsRecoveryIff(log: map<u32, seq<Entry>>, wals: seq<u32>, levels: DbLevels, k: nat, out: Levels.Files)
    requires k <= |wals|
    ensures Recovered(log, wals[k..], WithL0(levels, out)) == Recovered(log, wals, levels)
            <==> Covered(log, wals, levels, k, out) && forall e :: e in Bag(out) ==> e in Recovered(log, wals, levels)
  {
    hide Logged, Total, Bag, WithL0;
    L0Total(levels, out);
    var after, before := Recovered(log, wals[k..], WithL0(levels, out)), Recovered(log, wals, levels);
    forall e
      ensures e in after <==> e in Logged(log, wals[k..]) || e in Total(levels) || e in Bag(out)
      ensures e in before <==> e in Logged(log, wals[..k]) || e in Logged(log, wals[k..]) || e in Total(levels)
    {
      assert wals == wals[..k] + wals[k..];
      LoggedAppend(log, wals[..k], wals[k..]);
    }
    forall e ensures e in Logged(log, wals[..k]) <==> exists w :: w in wals[..k] && w in log && e in log[w] {
      LoggedIn(log, wals[..k], e);
    }
    forall e, w | w in wals[k..] && w in log && e in log[w] ensures e in Logged(log, wals[k..]) {
      LoggedIn(log, wals[k..], e);
    }
    if Covered(log, wals, levels, k, out) && (forall e :: e in Bag(out) ==> e in before) {
      forall e ensures e in after <==> e in before {}
    }
  }

  /** So does a compaction commit. */
  lemma CompactionKeepsRecovery(log: map<u32, seq<Entry>>, wals: seq<u32>, levels: DbLevels, n: nat, levels': DbLevels)
    requires WellFormed(levels) && UniqueKeys(Total(levels)) && Compacted(levels, n, levels')
    ensures Recovered(log, wals, levels') == Recovered(log, wals, levels)
  {
    hide WellFormed, UniqueKeys, Total, Bag, Pick, Sorted, FreshIds, OutputOf, Install;
    var merged, out :| CompactionOf(levels, n, merged, out) && levels' == Install(levels, n, Pick(levels, n), out);
    CompactionConserves(levels, n, merged, out);
  }
}
