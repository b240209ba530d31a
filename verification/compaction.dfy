/** One compaction as a change of levels: which files it takes, what it leaves behind. */
module Compaction {
  import opened Codec
  import opened Entries
  import opened Manifests
  import opened Levels
  import Keys

  type DbLevels = seq<Files>

  /** The files a compaction of a level takes from it and from the level below. */
  datatype Plan = Plan(source: Files, target: Files) | NothingToDo

  function LevelAt(levels: DbLevels, n: nat): Files {
    if n < |levels| then levels[n] else []
  }

  /** All of L0, or the first file of a deeper level, and whatever overlaps it one level down. */
  function Pick(levels: DbLevels, n: nat): Plan {
    var files := LevelAt(levels, n);
    if files == [] then NothingToDo
    else
      var source := if n == 0 then files else files[..1];
      Plan(source, Overlapping(LevelAt(levels, n + 1), LeastMin(source), GreatestMax(source)))
  }

  /** Enough empty levels to make n exist. */
  function Grow(levels: DbLevels, n: nat): (r: DbLevels)
    ensures |r| == if |levels| > n then |levels| else n + 1
    ensures forall m :: LevelAt(r, m) == LevelAt(levels, m)
    decreases n + 1 - |levels|
  {
    if |levels| > n then levels else Grow(levels + [[]], n)
  }

  /** The commit's edit: drops files by id from a level and the one below, adds the new ones, sorts. */
  function Replace(levels: DbLevels, n: nat, source: set<u32>, target: set<u32>, out: Files): (r: DbLevels)
    ensures forall m :: m != n && m != n + 1 ==> LevelAt(r, m) == LevelAt(levels, m)
    ensures LevelAt(r, n) == Retain(LevelAt(levels, n), source)
    ensures LevelAt(r, n + 1) == SortByMin(Retain(LevelAt(levels, n + 1), target) + out)
    ensures |r| == if |levels| > n + 1 then |levels| else n + 2
  {
    var ls := Grow(levels, n + 1);
    assert ls[n] == LevelAt(levels, n) && ls[n + 1] == LevelAt(levels, n + 1);
    var r := ls[n := Retain(ls[n], source)][n + 1 := SortByMin(Retain(ls[n + 1], target) + out)];
    assert forall m :: m != n && m != n + 1 ==> LevelAt(r, m) == LevelAt(ls, m) == LevelAt(levels, m);
    r
  }

  /** The commit: the same for the manifest's levels and for those readers see. */
  function Install(levels: DbLevels, n: nat, plan: Plan, out: Files): (r: DbLevels)
    requires plan.Plan?
    ensures forall m :: m != n && m != n + 1 ==> LevelAt(r, m) == LevelAt(levels, m)
    ensures LevelAt(r, n) == Retain(LevelAt(levels, n), Ids(plan.source))
    ensures LevelAt(r, n + 1) == SortByMin(Retain(LevelAt(levels, n + 1), Ids(plan.target)) + out)
    ensures |r| == if |levels| > n + 1 then |levels| else n + 2
  {
    Replace(levels, n, Ids(plan.source), Ids(plan.target), out)
  }

  // --- What every compaction keeps ---

  predicate DistinctIds(files: Files) {
    forall i, j :: 0 <= i < j < |files| ==> files[i].meta.fileId != files[j].meta.fileId
  }

  /** Truthful metadata and distinct ids everywhere; sorted, disjoint files below L0. */
  ghost predicate WellFormed(levels: DbLevels) {
    forall n: nat :: LevelOk(LevelAt(levels, n), n)
  }

  predicate LevelOk(files: Files, n: nat) {
    AllExact(files) && DistinctIds(files) && (n > 0 ==> Ordered(files))
  }

  /** Every entry once, every internal key once. */
  ghost predicate UniqueKeys(m: multiset<Entry>) {
    && (forall a :: a in m ==> m[a] == 1)
    && (forall a, b :: a in m && b in m && a.key == b.key ==> a == b)
  }

  /** The entries of the first k levels, missing levels counted as empty. */
  function Part(levels: DbLevels, k: nat): multiset<Entry> {
    if k == 0 then multiset{} else Part(levels, k - 1) + Bag(LevelAt(levels, k - 1))
  }

  function Total(levels: DbLevels): multiset<Entry> { Part(levels, |levels|) }

  /** The files written for a merged sequence: it cut into non-empty pieces, with truthful metadata. */
  predicate OutputOf(out: Files, merged: seq<Entry>) {
    && Concat(out) == merged
    && (forall i :: 0 <= i < |out| ==>
          var es := out[i].entries;
          es != [] && out[i].meta.minKey == es[0].key && out[i].meta.maxKey == es[|es| - 1].key)
  }

  function Concat(files: Files): seq<Entry> {
    if files == [] then [] else Concat(files[..|files| - 1]) + files[|files| - 1].entries
  }

  lemma {:induction false} ConcatBag(files: Files)
    ensures multiset(Concat(files)) == Bag(files)
  {
    if files != [] {
      ConcatBag(files[..|files| - 1]);
    }
  }

  lemma StrictSplit(a: seq<Entry>, b: seq<Entry>)
    requires StrictlySorted(a + b)
    ensures StrictlySorted(a) && StrictlySorted(b)
    ensures a != [] && b != [] ==> Keys.Less(a[|a| - 1].key, b[0].key)
  {
    hide Keys.Less;
    var es := a + b;
    assert forall i :: 0 <= i < |a| ==> es[i] == a[i];
    assert forall i :: 0 <= i < |b| ==> es[|a| + i] == b[i];
  }

  /** Each output file is ordered after the previous one. */
  lemma {:induction false} OutputOrdered(out: Files, merged: seq<Entry>)
    requires OutputOf(out, merged) && StrictlySorted(merged)
    ensures AllExact(out) && Ordered(out)
    ensures out != [] ==> merged != [] && out[|out| - 1].meta.maxKey == merged[|merged| - 1].key
  {
    hide Keys.Less;
    if out != [] {
      var n := |out| - 1;
      var front, last := out[..n], out[n];
      assert out == front + [last];
      StrictSplit(Concat(front), last.entries);
      OutputOrdered(front, Concat(front));
      forall g | g in front ensures Below(g, last) {
        var i :| 0 <= i < n && front[i] == g;
        var before := front[n - 1];
        assert Below(before, last);
        if i < n - 1 {
          assert Below(front[i], front[n - 1]);
          BelowTransitive(g, before, last);
        }
      }
      OrderedSnoc(front, last);
    }
  }

  /** With unique internal keys, sorted means strictly sorted. */
  lemma UniqueIsStrict(es: seq<Entry>)
    requires Sorted(es) && UniqueKeys(multiset(es))
    ensures StrictlySorted(es)
  {
    hide Keys.Less;
    forall i, j | 0 <= i < j < |es| ensures Keys.Less(es[i].key, es[j].key) {
      Twice(es, i, j);
      assert es[i] in multiset(es) && es[j] in multiset(es);
      assert Keys.Leq(es[i].key, es[j].key);
    }
  }

  lemma Twice<T(!new)>(xs: seq<T>, i: nat, j: nat)
    requires i < j < |xs|
    ensures xs[i] == xs[j] ==> multiset(xs)[xs[i]] >= 2
  {
    assert xs == xs[..j] + xs[j..];
    assert xs[i] in multiset(xs[..j]) && xs[j] in multiset(xs[j..]);
  }

  lemma UniquePart(whole: multiset<Entry>, part: multiset<Entry>)
    requires UniqueKeys(whole) && part <= whole
    ensures UniqueKeys(part)
  {
    forall a | a in part ensures part[a] == 1 {
      assert a in whole && part[a] <= whole[a];
    }
  }

  /** The plan's files are exactly those the commit removes. */
  lemma PlanIsRemoved(levels: DbLevels, n: nat)
    requires WellFormed(levels) && Pick(levels, n).Plan?
    ensures var plan := Pick(levels, n);
            && Bag(LevelAt(levels, n)) == Bag(plan.source) + Bag(Retain(LevelAt(levels, n), Ids(plan.source)))
            && Bag(LevelAt(levels, n + 1)) == Bag(plan.target) + Bag(Retain(LevelAt(levels, n + 1), Ids(plan.target)))
  {
    hide Bag, Ids, LeastMin, GreatestMax, AllExact, Ordered;
    var plan, files := Pick(levels, n), LevelAt(levels, n);
    assert LevelOk(files, n) && LevelOk(LevelAt(levels, n + 1), n + 1);
    if n == 0 {
      FilterAll(files, (f: Sst) => f.meta.fileId !in Ids(plan.source));
      FilterAll(files, (f: Sst) => f.meta.fileId in Ids(plan.source));
      RemovedBag(files, plan.source);
    } else {
      FilterFirst(files);
      RemovedBag(files, plan.source);
    }
    var lo, hi := LeastMin(plan.source), GreatestMax(plan.source);
    var target := LevelAt(levels, n + 1);
    var overlaps := (f: Sst) => Keys.Leq(lo, f.meta.maxKey) && Keys.Leq(f.meta.minKey, hi);
    forall f | f in target ensures f.meta.fileId in Ids(plan.target) <==> overlaps(f) {
      IdOfMember(target, plan.target, f);
    }
    FilterAgree(target, overlaps, (f: Sst) => f.meta.fileId in Ids(plan.target));
    RemovedBag(target, plan.target);
  }

  lemma IdOfMember(files: Files, part: Files, f: Sst)
    requires DistinctIds(files) && f in files && forall g :: g in part ==> g in files
    ensures f.meta.fileId in Ids(part) <==> f in part
  {
    if f.meta.fileId in Ids(part) {
      var g :| g in part && g.meta.fileId == f.meta.fileId;
      var i :| 0 <= i < |files| && files[i] == f;
      var j :| 0 <= j < |files| && files[j] == g;
    }
  }

  lemma RemovedBag(files: Files, gone: Files)
    requires Filter(files, (f: Sst) => f.meta.fileId in Ids(gone)) == gone
    ensures Bag(files) == Bag(gone) + Bag(Retain(files, Ids(gone)))
  {
    hide Bag, Ids;
    BagFilter(files, (f: Sst) => f.meta.fileId in Ids(gone), (f: Sst) => f.meta.fileId !in Ids(gone));
  }

  lemma FilterFirst(files: Files)
    requires files != [] && DistinctIds(files)
    ensures Filter(files, (f: Sst) => f.meta.fileId in Ids(files[..1])) == files[..1]
    ensures Filter(files, (f: Sst) => f.meta.fileId !in Ids(files[..1])) == files[1..]
  {
    var p, q := (f: Sst) => f.meta.fileId in Ids(files[..1]), (f: Sst) => f.meta.fileId !in Ids(files[..1]);
    assert files == [files[0]] + files[1..] && files[..1] == [files[0]];
    forall f | f in files[1..] ensures f.meta.fileId !in Ids(files[..1]) {
      var i :| 0 <= i < |files[1..]| && files[1..][i] == f;
      assert files[i + 1] == f;
    }
    FilterAll(files[1..], p);
    FilterAll(files[1..], q);
    FilterCons(files[0], files[1..], p);
    FilterCons(files[0], files[1..], q);
  }

  /** A merged entry lies in the source's hull or in an overlapping target file. */
  lemma MergedEntry(levels: DbLevels, n: nat, e: Entry)
    requires WellFormed(levels) && Pick(levels, n).Plan?
    requires var plan := Pick(levels, n); e in Bag(plan.source) + Bag(plan.target)
    ensures var plan := Pick(levels, n);
            || Between(LeastMin(plan.source), e, GreatestMax(plan.source))
            || exists g :: g in plan.target && e in g.entries
  {
    hide Bag, Keys.Less, Keys.Leq, Exact, Ordered;
    var plan := Pick(levels, n);
    if e in Bag(plan.source) {
      InBag(plan.source, e);
      var f :| f in plan.source && e in f.entries;
      assert f in LevelAt(levels, n) && LevelOk(LevelAt(levels, n), n);
      ExactMember(LevelAt(levels, n), f);
      EntryBetween(f, e);
      Keys.Transitive(LeastMin(plan.source), f.meta.minKey, e.key);
      Keys.Transitive(e.key, f.meta.maxKey, GreatestMax(plan.source));
    } else {
      InBag(plan.target, e);
    }
  }

  lemma HullOrdered(files: Files)
    requires files != [] && AllExact(files)
    ensures Keys.Leq(LeastMin(files), GreatestMax(files))
  {
    hide Exact, Keys.Less, Keys.Leq;
    assert files[0] in files;
    MinLeqMax(files[0]);
    Keys.Transitive(LeastMin(files), files[0].meta.minKey, files[0].meta.maxKey);
    Keys.Transitive(LeastMin(files), files[0].meta.maxKey, GreatestMax(files));
  }

  /** The key is within the file's range, and within that of these files together. */
  predicate Meet(files: Files, f: Sst, k: Key) {
    && Keys.Leq(f.meta.minKey, k) && Keys.Leq(k, f.meta.maxKey)
    && (exists a :: a in files && Keys.Leq(a.meta.minKey, k)) && exists b :: b in files && Keys.Leq(k, b.meta.maxKey)
  }

  /** A compaction takes all of L0, or the first file of a deeper level, and of the level below exactly the files that
      share some key with the range of those. */
  lemma PickTakes(levels: DbLevels, n: nat, f: Sst)
    requires WellFormed(levels) && LevelAt(levels, n) != []
    ensures Pick(levels, n).Plan?
    ensures Pick(levels, n).source == if n == 0 then LevelAt(levels, 0) else [LevelAt(levels, n)[0]]
    ensures f in Pick(levels, n).target
            <==> f in LevelAt(levels, n + 1) && exists k :: Meet(Pick(levels, n).source, f, k)
  {
    hide LeastMin, GreatestMax, Meet, Exact, Ordered, Overlapping;
    var files, source, below := LevelAt(levels, n), Pick(levels, n).source, LevelAt(levels, n + 1);
    assert LevelOk(files, n) && LevelOk(below, n + 1);
    OverlappingMeets(source, below, f);
  }

  lemma OverlappingMeets(source: Files, below: Files, f: Sst)
    requires source != [] && AllExact(source) && AllExact(below)
    ensures f in Overlapping(below, LeastMin(source), GreatestMax(source))
            <==> f in below && exists k :: Meet(source, f, k)
  {
    hide LeastMin, GreatestMax, Keys.Less, Exact;
    var lo, hi := LeastMin(source), GreatestMax(source);
    if f in below {
      ExactMember(below, f);
      MinLeqMax(f);
      if f in Overlapping(below, lo, hi) {
        HullMeets(source, f, lo, hi);
      }
      if k :| Meet(source, f, k) {
        MeetsHull(source, f, lo, hi, k);
      }
    }
  }

  lemma MeetsHull(source: Files, f: Sst, lo: Key, hi: Key, k: Key)
    requires source != [] && lo == LeastMin(source) && hi == GreatestMax(source) && Meet(source, f, k)
    ensures Keys.Leq(lo, f.meta.maxKey) && Keys.Leq(f.meta.minKey, hi)
  {
    hide LeastMin, GreatestMax, Keys.Less;
    var a :| a in source && Keys.Leq(a.meta.minKey, k);
    var b :| b in source && Keys.Leq(k, b.meta.maxKey);
    Keys.Transitive(lo, a.meta.minKey, k);
    Keys.Transitive(lo, k, f.meta.maxKey);
    Keys.Transitive(k, b.meta.maxKey, hi);
    Keys.Transitive(f.meta.minKey, k, hi);
  }

  lemma HullMeets(source: Files, f: Sst, lo: Key, hi: Key)
    requires source != [] && lo == LeastMin(source) && hi == GreatestMax(source) && AllExact(source)
    requires Keys.Leq(lo, f.meta.maxKey) && Keys.Leq(f.meta.minKey, hi) && Keys.Leq(f.meta.minKey, f.meta.maxKey)
    ensures exists k :: Meet(source, f, k)
  {
    hide LeastMin, GreatestMax, Keys.Less, Exact;
    ExactMember(source, source[0]);
    MinLeqMax(source[0]);
    Keys.Transitive(lo, source[0].meta.minKey, source[0].meta.maxKey);
    Keys.Transitive(lo, source[0].meta.maxKey, hi);
    Keys.Trichotomy(lo, f.meta.minKey);
    var k := if Keys.Less(lo, f.meta.minKey) then f.meta.minKey else lo;
    assert Meet(source, f, k);
  }

  /** A target file the compaction leaves alone is apart from every file it writes. */
  lemma KeptIsApart(levels: DbLevels, n: nat, f: Sst, g: Sst)
    requires WellFormed(levels) && Pick(levels, n).Plan?
    requires f in LevelAt(levels, n + 1) && f !in Pick(levels, n).target
    requires Exact(g) && forall e :: e in g.entries ==> e in Bag(Pick(levels, n).source) + Bag(Pick(levels, n).target)
    ensures Apart(f, g)
  {
    hide Bag, Keys.Less, Keys.Leq, StrictlySorted, Overlapping;
    var plan, target := Pick(levels, n), LevelAt(levels, n + 1);
    var lo, hi := LeastMin(plan.source), GreatestMax(plan.source);
    assert LevelOk(LevelAt(levels, n), n) && LevelOk(target, n + 1);
    HullOrdered(plan.source);
    var first, last := g.entries[0], g.entries[|g.entries| - 1];
    assert first in g.entries && last in g.entries;
    MergedEntry(levels, n, first);
    MergedEntry(levels, n, last);
    UntouchedIsApart(target, lo, hi, f, first);
    UntouchedIsApart(target, lo, hi, f, last);
  }

  lemma MergedIsPart(levels: DbLevels, n: nat)
    requires WellFormed(levels) && Pick(levels, n).Plan?
    ensures Bag(Pick(levels, n).source) + Bag(Pick(levels, n).target) <= Total(levels)
  {
    hide Bag, Total;
    PlanIsRemoved(levels, n);
    TwoLevels(levels, n);
  }

  lemma TwoLevels(levels: DbLevels, n: nat)
    ensures Bag(LevelAt(levels, n)) + Bag(LevelAt(levels, n + 1)) <= Total(levels)
  {
    hide Bag;
    var k := if |levels| > n + 2 then |levels| else n + 2;
    PartGrows(levels, n + 2, k);
    TotalUpTo(levels, k);
    assert Part(levels, n + 2) == Part(levels, n + 1) + Bag(LevelAt(levels, n + 1));
  }

  lemma {:induction false} PartGrows(levels: DbLevels, j: nat, k: nat)
    requires j <= k
    ensures Part(levels, j) <= Part(levels, k)
  {
    hide Bag;
    if j < k {
      PartGrows(levels, j, k - 1);
    }
  }

  lemma {:induction false} TotalUpTo(levels: DbLevels, k: nat)
    requires k >= |levels|
    ensures Part(levels, k) == Total(levels)
  {
    if k > |levels| {
      TotalUpTo(levels, k - 1);
    }
  }

  /** What is merged, sorted, is strictly sorted; its files are ordered. */
  lemma FreshIsOrdered(levels: DbLevels, n: nat, merged: seq<Entry>, out: Files)
    requires WellFormed(levels) && UniqueKeys(Total(levels)) && Pick(levels, n).Plan?
    requires var plan := Pick(levels, n); Sorted(merged) && multiset(merged) == Bag(plan.source) + Bag(plan.target)
    requires OutputOf(out, merged)
    ensures AllExact(out) && Ordered(out)
    ensures forall g, e :: g in out && e in g.entries ==> e in Bag(Pick(levels, n).source) + Bag(Pick(levels, n).target)
  {
    hide WellFormed, Total, UniqueKeys, Sorted, Exact;
    MergedIsPart(levels, n);
    UniquePart(Total(levels), multiset(merged));
    UniqueIsStrict(merged);
    OutputOrdered(out, merged);
    ConcatBag(out);
    forall g, e | g in out && e in g.entries ensures e in Bag(Pick(levels, n).source) + Bag(Pick(levels, n).target) {
      InBag(out, e);
    }
  }

  /** The target level stays sorted and pairwise disjoint. */
  lemma TargetStaysOrdered(levels: DbLevels, n: nat, merged: seq<Entry>, out: Files)
    requires WellFormed(levels) && UniqueKeys(Total(levels)) && Pick(levels, n).Plan?
    requires var plan := Pick(levels, n); Sorted(merged) && multiset(merged) == Bag(plan.source) + Bag(plan.target)
    requires OutputOf(out, merged)
    ensures var level := LevelAt(Install(levels, n, Pick(levels, n), out), n + 1);
            AllExact(level) && Ordered(level)
  {
    hide Total, UniqueKeys, Sorted, Exact, OutputOf, Bag, Install, Below, Overlapping;
    var plan, target := Pick(levels, n), LevelAt(levels, n + 1);
    FreshIsOrdered(levels, n, merged, out);
    assert LevelOk(target, n + 1);
    var kept := Retain(target, Ids(plan.target));
    FilterKeepsOrder(target, (f: Sst) => f.meta.fileId !in Ids(plan.target));
    forall f, g | f in kept && g in out ensures Apart(f, g) {
      ExactMember(out, g);
      KeptIsApart(levels, n, f, g);
    }
    OrderedUnion(kept, out);
    SortOrders(kept + out);
  }

  lemma OrderedUnion(a: Files, b: Files)
    requires AllExact(a) && Ordered(a) && AllExact(b) && Ordered(b)
    requires forall f, g :: f in a && g in b ==> Apart(f, g)
    ensures AllExact(a + b) && PairwiseApart(a + b)
  {
    hide Exact, Below;
  }

  /** Nothing is lost, duplicated or altered. */
  lemma CompactionConserves(levels: DbLevels, n: nat, merged: seq<Entry>, out: Files)
    requires WellFormed(levels) && Pick(levels, n).Plan?
    requires var plan := Pick(levels, n); multiset(merged) == Bag(plan.source) + Bag(plan.target)
    requires OutputOf(out, merged)
    ensures Total(Install(levels, n, Pick(levels, n), out)) == Total(levels)
    ensures var plan, r := Pick(levels, n), Install(levels, n, Pick(levels, n), out);
            && Bag(LevelAt(levels, n)) == Bag(LevelAt(r, n)) + Bag(plan.source)
            && Bag(LevelAt(r, n + 1)) == Bag(LevelAt(levels, n + 1)) + Bag(plan.source)
  {
    hide Total, Bag, Install, WellFormed, Pick, Retain, SortByMin;
    var plan := Pick(levels, n);
    var r := Install(levels, n, plan, out);
    PlanIsRemoved(levels, n);
    var kept := Retain(LevelAt(levels, n + 1), Ids(plan.target));
    BagSort(kept + out);
    BagAppend(kept, out);
    ConcatBag(out);
    TotalMoves(levels, r, n, Bag(plan.source));
  }

  lemma TotalMoves(levels: DbLevels, r: DbLevels, n: nat, moved: multiset<Entry>)
    requires |levels| <= |r| && n + 1 < |r|
    requires forall m :: m != n && m != n + 1 ==> LevelAt(r, m) == LevelAt(levels, m)
    requires Bag(LevelAt(levels, n)) == Bag(LevelAt(r, n)) + moved
    requires Bag(LevelAt(r, n + 1)) == Bag(LevelAt(levels, n + 1)) + moved
    ensures Total(r) == Total(levels)
  {
    hide Bag, LevelAt;
    TotalUpTo(levels, |r|);
    SamePart(levels, r, n);
    SumMoves(levels, r, n, moved);
    SamePartFrom(levels, r, n + 2, |r|);
  }

  lemma SumMoves(levels: DbLevels, r: DbLevels, n: nat, moved: multiset<Entry>)
    requires Part(levels, n) == Part(r, n)
    requires Bag(LevelAt(levels, n)) == Bag(LevelAt(r, n)) + moved
    requires Bag(LevelAt(r, n + 1)) == Bag(LevelAt(levels, n + 1)) + moved
    ensures Part(levels, n + 2) == Part(r, n + 2)
  {
    hide Bag, LevelAt;
    assert Part(levels, n + 1) == Part(r, n + 1) + moved;
  }

  lemma {:induction false} SamePart(a: DbLevels, b: DbLevels, k: nat)
    requires forall m :: 0 <= m < k ==> LevelAt(a, m) == LevelAt(b, m)
    ensures Part(a, k) == Part(b, k)
  {
    hide LevelAt, Bag;
    if k > 0 {
      SamePart(a, b, k - 1);
    }
  }

  lemma {:induction false} SamePartFrom(a: DbLevels, b: DbLevels, j: nat, k: nat)
    requires j <= k && Part(a, j) == Part(b, j)
    requires forall m :: j <= m < k ==> LevelAt(a, m) == LevelAt(b, m)
    ensures Part(a, k) == Part(b, k)
  {
    hide LevelAt, Bag;
    if j < k {
      SamePartFrom(a, b, j, k - 1);
      assert Part(a, k) == Part(a, k - 1) + Bag(LevelAt(a, k - 1));
      assert Part(b, k) == Part(b, k - 1) + Bag(LevelAt(b, k - 1));
    }
  }

  // --- Ids ---

  predicate FreshIds(files: Files, out: Files) {
    DistinctIds(out) && forall f, g :: f in files && g in out ==> f.meta.fileId != g.meta.fileId
  }

  /** The files of the target level that a compaction leaves there. */
  function KeptBelow(levels: DbLevels, n: nat): Files
    requires Pick(levels, n).Plan?
  {
    Retain(LevelAt(levels, n + 1), Ids(Pick(levels, n).target))
  }

  lemma DistinctSnoc(files: Files, f: Sst)
    requires DistinctIds(files) && forall g :: g in files ==> g.meta.fileId != f.meta.fileId
    ensures DistinctIds(files + [f])
  {}

  lemma {:induction false} DistinctInsert(files: Files, f: Sst)
    requires DistinctIds(files) && forall g :: g in files ==> g.meta.fileId != f.meta.fileId
    ensures DistinctIds(InsertByMin(files, f))
  {
    if files != [] {
      var n := |files| - 1;
      var front, last := files[..n], files[n];
      assert files == front + [last];
      forall g | g in front ensures g.meta.fileId != last.meta.fileId {
        var i :| 0 <= i < n && files[i] == g;
      }
      hide Keys.Less, DistinctIds;
      if Keys.Less(f.meta.minKey, last.meta.minKey) {
        DistinctFront(files);
        DistinctInsert(front, f);
        var r := InsertByMin(front, f);
        forall g | g in r ensures g.meta.fileId != last.meta.fileId {
          SamePermutation(r, front + [f], g);
        }
        DistinctSnoc(r, last);
      } else {
        DistinctSnoc(files, f);
      }
    } else {
      assert DistinctIds([f]);
    }
  }

  lemma DistinctFront(files: Files)
    requires DistinctIds(files) && files != []
    ensures DistinctIds(files[..|files| - 1])
  {}

  lemma {:induction false} DistinctSort(files: Files)
    requires DistinctIds(files)
    ensures DistinctIds(SortByMin(files))
  {
    if files != [] {
      hide InsertByMin;
      var n := |files| - 1;
      DistinctSort(files[..n]);
      forall g | g in SortByMin(files[..n]) ensures g.meta.fileId != files[n].meta.fileId {
        SamePermutation(SortByMin(files[..n]), files[..n], g);
      }
      DistinctInsert(SortByMin(files[..n]), files[n]);
    }
  }

  lemma {:induction false} DistinctFilter(files: Files, p: Sst -> bool)
    requires DistinctIds(files)
    ensures DistinctIds(Filter(files, p))
  {
    if files != [] {
      assert files == [files[0]] + files[1..];
      DistinctFilter(files[1..], p);
      forall g | g in Filter(files[1..], p) ensures g.meta.fileId != files[0].meta.fileId {
        var i :| 0 <= i < |files[1..]| && files[1..][i] == g;
        assert files[i + 1] == g;
      }
    }
  }

  /** A compaction of any level leaves a well-formed database with the same entries: the target level
      sorted and disjoint, metadata exact, ids distinct, nothing lost. */
  lemma CompactionKeeps(levels: DbLevels, n: nat, merged: seq<Entry>, out: Files)
    requires WellFormed(levels) && UniqueKeys(Total(levels)) && Pick(levels, n).Plan?
    requires var plan := Pick(levels, n); Sorted(merged) && multiset(merged) == Bag(plan.source) + Bag(plan.target)
    requires OutputOf(out, merged) && FreshIds(KeptBelow(levels, n), out)
    ensures WellFormed(Install(levels, n, Pick(levels, n), out))
    ensures Total(Install(levels, n, Pick(levels, n), out)) == Total(levels)
  {
    hide Total, UniqueKeys, Sorted, OutputOf, Bag, Install, Pick, Ordered, AllExact, DistinctIds, LevelAt, Retain,
         SortByMin;
    var plan := Pick(levels, n);
    var r := Install(levels, n, plan, out);
    CompactionConserves(levels, n, merged, out);
    TargetStaysOrdered(levels, n, merged, out);
    assert LevelOk(LevelAt(levels, n), n) && LevelOk(LevelAt(levels, n + 1), n + 1);
    TargetStaysDistinct(LevelAt(levels, n + 1), Ids(plan.target), out);
    SourceStays(LevelAt(levels, n), Ids(plan.source), n);
    forall m: nat ensures LevelOk(LevelAt(r, m), m) {
      assert LevelOk(LevelAt(levels, m), m);
    }
  }

  lemma TargetStaysDistinct(target: Files, gone: set<u32>, out: Files)
    requires DistinctIds(target) && FreshIds(Retain(target, gone), out)
    ensures DistinctIds(SortByMin(Retain(target, gone) + out))
  {
    DistinctFilter(target, (f: Sst) => f.meta.fileId !in gone);
    DistinctSort(Retain(target, gone) + out);
  }

  lemma SourceStays(source: Files, gone: set<u32>, n: nat)
    requires LevelOk(source, n)
    ensures LevelOk(Retain(source, gone), n)
  {
    hide Exact;
    var kept := Retain(source, gone);
    assert forall i :: 0 <= i < |kept| ==> kept[i] in kept;
    DistinctFilter(source, (f: Sst) => f.meta.fileId !in gone);
    if n > 0 {
      FilterKeepsOrder(source, (f: Sst) => f.meta.fileId !in gone);
    }
  }

  // --- The manifest's view: metadata without contents ---

  function Metas(files: Files): (r: Manifests.Level)
    ensures |r| == |files| && forall i :: 0 <= i < |r| ==> r[i] == files[i].meta
  {
    seq(|files|, i requires 0 <= i < |files| => files[i].meta)
  }

  /** Files of which only the metadata is known. */
  function Bare(metas: Manifests.Level): (r: Files)
    ensures |r| == |metas| && forall i :: 0 <= i < |r| ==> r[i] == Sst(metas[i], [])
  {
    seq(|metas|, i requires 0 <= i < |metas| => Sst(metas[i], []))
  }

  function MetaLevels(levels: DbLevels): (r: seq<Manifests.Level>)
    ensures |r| == |levels| && forall i :: 0 <= i < |r| ==> r[i] == Metas(levels[i])
  {
    seq(|levels|, i requires 0 <= i < |levels| => Metas(levels[i]))
  }

  function BareLevels(levels: seq<Manifests.Level>): (r: DbLevels)
    ensures |r| == |levels| && forall i :: 0 <= i < |r| ==> r[i] == Bare(levels[i])
  {
    seq(|levels|, i requires 0 <= i < |levels| => Bare(levels[i]))
  }

  /** The edit of the manifest's levels, which knows metadata only. */
  function EditLevels(levels: seq<Manifests.Level>, n: nat, source: set<u32>, target: set<u32>,
                      out: Manifests.Level): seq<Manifests.Level>
  {
    MetaLevels(Replace(BareLevels(levels), n, source, target, Bare(out)))
  }

  function MetaLevelAt(levels: seq<Manifests.Level>, n: nat): Manifests.Level {
    if n < |levels| then levels[n] else []
  }

  lemma InMetas(files: Files, f: FileMeta)
    ensures f in Metas(files) <==> exists s :: s in files && s.meta == f
  {
    if f in Metas(files) {
      var i :| 0 <= i < |files| && Metas(files)[i] == f;
      assert files[i] in files;
    }
    if exists s :: s in files && s.meta == f {
      var s :| s in files && s.meta == f;
      var i :| 0 <= i < |files| && files[i] == s;
      assert Metas(files)[i] == f;
    }
  }

  lemma MetasAt(levels: DbLevels, n: nat)
    ensures MetaLevelAt(MetaLevels(levels), n) == Metas(LevelAt(levels, n))
  {}

  lemma BareAt(levels: seq<Manifests.Level>, n: nat)
    ensures LevelAt(BareLevels(levels), n) == Bare(MetaLevelAt(levels, n))
  {}

  lemma InBare(metas: Manifests.Level, f: FileMeta)
    ensures f in metas <==> exists s :: s in Bare(metas) && s.meta == f
  {
    InMetas(Bare(metas), f);
    assert Metas(Bare(metas)) == metas;
  }

  /** The edit takes the source's files out of level n and the target's out of the one below, which gains the new ones;
      it changes no other level. */
  lemma EditMeans(levels: seq<Manifests.Level>, n: nat, source: set<u32>, target: set<u32>, out: Manifests.Level)
    ensures var now := EditLevels(levels, n, source, target, out);
            && (forall f :: f in MetaLevelAt(now, n) <==> f in MetaLevelAt(levels, n) && f.fileId !in source)
            && (forall f :: f in MetaLevelAt(now, n + 1)
                            <==> f in out || (f in MetaLevelAt(levels, n + 1) && f.fileId !in target))
            && forall m: nat :: m != n && m != n + 1 ==> MetaLevelAt(now, m) == MetaLevelAt(levels, m)
  {
    hide LevelAt, Replace, SortByMin, Retain, MetaLevelAt;
    var bare, now := BareLevels(levels), Replace(BareLevels(levels), n, source, target, Bare(out));
    forall f
      ensures f in MetaLevelAt(MetaLevels(now), n) <==> f in MetaLevelAt(levels, n) && f.fileId !in source
      ensures f in MetaLevelAt(MetaLevels(now), n + 1)
              <==> f in out || (f in MetaLevelAt(levels, n + 1) && f.fileId !in target)
    {
      EditAt(levels, n, source, target, out, f);
    }
    forall m: nat | m != n && m != n + 1 ensures MetaLevelAt(MetaLevels(now), m) == MetaLevelAt(levels, m) {
      MetasAt(now, m);
      BareAt(levels, m);
      assert Metas(Bare(MetaLevelAt(levels, m))) == MetaLevelAt(levels, m);
    }
  }

  lemma EditAt(levels: seq<Manifests.Level>, n: nat, source: set<u32>, target: set<u32>, out: Manifests.Level,
               f: FileMeta)
    ensures var now := MetaLevels(Replace(BareLevels(levels), n, source, target, Bare(out)));
            && (f in MetaLevelAt(now, n) <==> f in MetaLevelAt(levels, n) && f.fileId !in source)
            && (f in MetaLevelAt(now, n + 1)
                <==> f in out || (f in MetaLevelAt(levels, n + 1) && f.fileId !in target))
  {
    hide LevelAt, Replace, SortByMin, MetaLevelAt;
    var bare, now := BareLevels(levels), Replace(BareLevels(levels), n, source, target, Bare(out));
    MetasAt(now, n);
    MetasAt(now, n + 1);
    BareAt(levels, n);
    BareAt(levels, n + 1);
    InMetas(LevelAt(now, n), f);
    InMetas(LevelAt(now, n + 1), f);
    InBare(MetaLevelAt(levels, n), f);
    InBare(MetaLevelAt(levels, n + 1), f);
    InBare(out, f);
    var all := Retain(LevelAt(bare, n + 1), target) + Bare(out);
    forall s ensures s in SortByMin(all) <==> s in all { SamePermutation(SortByMin(all), all, s); }
  }

  predicate SameMetas(a: Files, b: Files) {
    |a| == |b| && forall i :: 0 <= i < |a| ==> a[i].meta == b[i].meta
  }

  lemma {:induction false} SameRetain(a: Files, b: Files, gone: set<u32>)
    requires SameMetas(a, b)
    ensures SameMetas(Retain(a, gone), Retain(b, gone))
  {
    if a != [] {
      SameRetain(a[1..], b[1..], gone);
      var p := (f: Sst) => f.meta.fileId !in gone;
      assert a == [a[0]] + a[1..] && b == [b[0]] + b[1..];
      FilterCons(a[0], a[1..], p);
      FilterCons(b[0], b[1..], p);
    }
  }

  lemma SameSnoc(a: Files, b: Files, f: Sst, g: Sst)
    requires SameMetas(a, b) && f.meta == g.meta
    ensures SameMetas(a + [f], b + [g])
  {}

  lemma {:induction false} SameInsert(a: Files, b: Files, f: Sst, g: Sst)
    requires SameMetas(a, b) && f.meta == g.meta
    ensures SameMetas(InsertByMin(a, f), InsertByMin(b, g))
  {
    if a != [] {
      var n := |a| - 1;
      var last, other := a[n], b[n];
      assert last.meta == other.meta;
      SameInsert(a[..n], b[..n], f, g);
      SameSnoc(InsertByMin(a[..n], f), InsertByMin(b[..n], g), last, other);
      SameSnoc(a, b, f, g);
      hide Keys.Less, SameMetas;
    }
  }

  lemma {:induction false} SameSort(a: Files, b: Files)
    requires SameMetas(a, b)
    ensures SameMetas(SortByMin(a), SortByMin(b))
  {
    if a != [] {
      var n := |a| - 1;
      hide InsertByMin;
      SameSort(a[..n], b[..n]);
      SameInsert(SortByMin(a[..n]), SortByMin(b[..n]), a[n], b[n]);
    }
  }

  /** The manifest's edit is the compaction of the files it names. */
  lemma EditIsReplace(levels: DbLevels, n: nat, source: set<u32>, target: set<u32>, out: Files)
    ensures MetaLevels(Replace(levels, n, source, target, out)) ==
              EditLevels(MetaLevels(levels), n, source, target, Metas(out))
  {
    var bare := BareLevels(MetaLevels(levels));
    hide Replace, SameMetas;
    forall m: nat ensures SameMetas(LevelAt(levels, m), LevelAt(bare, m)) {
      SameBare(levels, m);
    }
    hide LevelAt, BareLevels;
    SameReplace(levels, bare, n, source, target, out, Bare(Metas(out))) by { SameOut(out); }
    SameLevels(Replace(levels, n, source, target, out), Replace(bare, n, source, target, Bare(Metas(out))));
  }

  lemma SameBare(levels: DbLevels, m: nat)
    ensures SameMetas(LevelAt(levels, m), LevelAt(BareLevels(MetaLevels(levels)), m))
  {}

  lemma SameOut(out: Files)
    ensures SameMetas(out, Bare(Metas(out)))
  {}

  lemma SameAppend(a: Files, b: Files, c: Files, d: Files)
    requires SameMetas(a, b) && SameMetas(c, d)
    ensures SameMetas(a + c, b + d)
  {}

  lemma SameReplace(a: DbLevels, b: DbLevels, n: nat, source: set<u32>, target: set<u32>, out: Files, other: Files)
    requires |a| == |b| && SameMetas(out, other) && forall m: nat :: SameMetas(LevelAt(a, m), LevelAt(b, m))
    ensures var r, s := Replace(a, n, source, target, out), Replace(b, n, source, target, other);
            |r| == |s| && forall m: nat :: SameMetas(LevelAt(r, m), LevelAt(s, m))
  {
    var r, s := Replace(a, n, source, target, out), Replace(b, n, source, target, other);
    hide Replace, SameMetas, LevelAt, Retain, SortByMin;
    SameRetain(LevelAt(a, n), LevelAt(b, n), source);
    SameRetain(LevelAt(a, n + 1), LevelAt(b, n + 1), target);
    SameAppend(Retain(LevelAt(a, n + 1), target), Retain(LevelAt(b, n + 1), target), out, other);
    SameSort(Retain(LevelAt(a, n + 1), target) + out, Retain(LevelAt(b, n + 1), target) + other);
    forall m: nat ensures SameMetas(LevelAt(r, m), LevelAt(s, m)) {}
  }

  lemma SameLevels(a: DbLevels, b: DbLevels)
    requires |a| == |b| && forall m: nat :: SameMetas(LevelAt(a, m), LevelAt(b, m))
    ensures MetaLevels(a) == MetaLevels(b)
  {
    forall m | 0 <= m < |a| ensures Metas(a[m]) == Metas(b[m]) {
      assert SameMetas(LevelAt(a, m), LevelAt(b, m));
    }
  }
}
