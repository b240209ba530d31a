/** Levels of SSTables and what a compaction does to them: selection by overlap, retention, sorting. */
module Levels {
  import opened Codec
  import opened Entries
  import opened Manifests
  import Keys

  type Key = Keys.Key

  /** A file of the database: its manifest entry and the entries it holds. */
  datatype Sst = Sst(meta: FileMeta, entries: seq<Entry>)

  type Files = seq<Sst>

  /** The metadata tells the truth about a non-empty file. */
  predicate Exact(f: Sst) {
    && f.entries != [] && StrictlySorted(f.entries)
    && f.meta.minKey == f.entries[0].key && f.meta.maxKey == f.entries[|f.entries| - 1].key
  }

  predicate AllExact(files: Files) {
    forall i :: 0 <= i < |files| ==> Exact(files[i])
  }

  predicate Below(f: Sst, g: Sst) {
    Keys.Less(f.meta.maxKey, g.meta.minKey)
  }

  /** Sorted and pairwise disjoint in key order. */
  predicate Ordered(files: Files) {
    forall i, j :: 0 <= i < j < |files| ==> Below(files[i], files[j])
  }

  predicate Apart(f: Sst, g: Sst) {
    Below(f, g) || Below(g, f)
  }

  // --- In-place list operations ---

  function Filter(files: Files, p: Sst -> bool): (r: Files)
    ensures forall f :: f in r <==> f in files && p(f)
  {
    if files == [] then []
    else
      assert files == [files[0]] + files[1..];
      (if p(files[0]) then [files[0]] else []) + Filter(files[1..], p)
  }

  function Ids(files: Files): (r: set<u32>)
    ensures forall f :: f in files ==> f.meta.fileId in r
    ensures forall id :: id in r ==> exists f :: f in files && f.meta.fileId == id
  {
    set f | f in files :: f.meta.fileId
  }

  /** `retain`: drops the files with these ids. */
  function Retain(files: Files, gone: set<u32>): Files {
    Filter(files, (f: Sst) => f.meta.fileId !in gone)
  }

  function Overlapping(files: Files, lo: Key, hi: Key): Files {
    Filter(files, (f: Sst) => Keys.Leq(lo, f.meta.maxKey) && Keys.Leq(f.meta.minKey, hi))
  }

  function LeastMin(files: Files): (k: Key)
    requires files != []
    ensures forall f :: f in files ==> Keys.Leq(k, f.meta.minKey)
    ensures exists f :: f in files && k == f.meta.minKey
  {
    var n := |files| - 1;
    assert files == files[..n] + [files[n]];
    if n == 0 then files[0].meta.minKey
    else
      var k := LeastMin(files[..n]);
      Keys.TotalOrder();
      if Keys.Less(files[n].meta.minKey, k) then files[n].meta.minKey else k
  }

  function GreatestMax(files: Files): (k: Key)
    requires files != []
    ensures forall f :: f in files ==> Keys.Leq(f.meta.maxKey, k)
    ensures exists f :: f in files && k == f.meta.maxKey
  {
    var n := |files| - 1;
    assert files == files[..n] + [files[n]];
    if n == 0 then files[0].meta.maxKey
    else
      var k := GreatestMax(files[..n]);
      Keys.TotalOrder();
      if Keys.Less(k, files[n].meta.maxKey) then files[n].meta.maxKey else k
  }

  /** After the last file whose minimum is not greater. */
  function InsertByMin(files: Files, f: Sst): (r: Files)
    ensures multiset(r) == multiset(files) + multiset{f}
  {
    if files == [] then [f]
    else
      var n := |files| - 1;
      assert files == files[..n] + [files[n]];
      if Keys.Less(f.meta.minKey, files[n].meta.minKey) then InsertByMin(files[..n], f) + [files[n]] else files + [f]
  }

  /** `sort_by` minimum key, stable. */
  function SortByMin(files: Files): (r: Files)
    ensures multiset(r) == multiset(files)
  {
    if files == [] then []
    else
      var n := |files| - 1;
      assert files == files[..n] + [files[n]];
      InsertByMin(SortByMin(files[..n]), files[n])
  }

  lemma SamePermutation(a: Files, b: Files, f: Sst)
    requires multiset(a) == multiset(b)
    ensures f in a <==> f in b
  {
    assert f in a <==> f in multiset(a);
    assert f in b <==> f in multiset(b);
  }

  lemma OrderedSnoc(files: Files, f: Sst)
    requires AllExact(files) && Exact(f) && Ordered(files)
    requires forall g :: g in files ==> Below(g, f)
    ensures AllExact(files + [f]) && Ordered(files + [f])
  {
    hide Exact, Below;
  }

  lemma OrderedCons(f: Sst, files: Files)
    requires AllExact(files) && Exact(f) && Ordered(files)
    requires forall g :: g in files ==> Below(f, g)
    ensures AllExact([f] + files) && Ordered([f] + files)
  {
    hide Exact, Below;
  }

  lemma {:induction false} InsertKeepsOrder(files: Files, f: Sst)
    requires AllExact(files) && Exact(f) && Ordered(files)
    requires forall g :: g in files ==> Apart(f, g)
    ensures AllExact(InsertByMin(files, f)) && Ordered(InsertByMin(files, f))
  {
    hide Exact, Below, Apart;
    if files != [] {
      var n := |files| - 1;
      var front, last := files[..n], files[n];
      assert files == front + [last];
      if Keys.Less(f.meta.minKey, last.meta.minKey) {
        hide Keys.Less;
        InsertKeepsOrder(front, f);
        BelowOfLess(f, last);
        var r := InsertByMin(front, f);
        forall g | g in r ensures Below(g, last) {
          SamePermutation(r, front + [f], g);
          if g in front {
            var i :| 0 <= i < n && files[i] == g;
            assert Below(files[i], files[n]);
          }
        }
        OrderedSnoc(r, last);
      } else {
        hide Keys.Less;
        BelowOfNotLess(f, last);
        forall g | g in files ensures Below(g, f) {
          var i :| 0 <= i < |files| && files[i] == g;
          if i < n {
            assert Below(files[i], files[n]);
            BelowTransitive(files[i], last, f);
          }
        }
        OrderedSnoc(files, f);
      }
    }
  }

  lemma MinLeqMax(f: Sst)
    requires Exact(f)
    ensures Keys.Leq(f.meta.minKey, f.meta.maxKey)
  {
    if |f.entries| > 1 {
      assert Keys.Less(f.entries[0].key, f.entries[|f.entries| - 1].key);
    }
  }

  lemma BelowOfLess(f: Sst, g: Sst)
    requires Exact(f) && Exact(g) && Apart(f, g) && Keys.Less(f.meta.minKey, g.meta.minKey)
    ensures Below(f, g)
  {
    hide Keys.Less, Keys.Leq;
    MinLeqMax(g);
    if Below(g, f) {
      Keys.Transitive(g.meta.minKey, g.meta.maxKey, f.meta.minKey);
      Keys.Trichotomy(g.meta.minKey, f.meta.minKey);
    }
  }

  lemma BelowOfNotLess(f: Sst, g: Sst)
    requires Exact(f) && Exact(g) && Apart(f, g) && !Keys.Less(f.meta.minKey, g.meta.minKey)
    ensures Below(g, f)
  {
    hide Keys.Less;
    MinLeqMax(f);
    if Below(f, g) {
      Keys.Transitive(f.meta.minKey, f.meta.maxKey, g.meta.minKey);
    }
  }

  lemma BelowTransitive(f: Sst, g: Sst, h: Sst)
    requires Below(f, g) && Below(g, h) && Exact(g)
    ensures Below(f, h)
  {
    hide Keys.Less;
    MinLeqMax(g);
    Keys.Transitive(f.meta.maxKey, g.meta.minKey, g.meta.maxKey);
    Keys.Transitive(f.meta.maxKey, g.meta.maxKey, h.meta.minKey);
  }

  predicate PairwiseApart(files: Files) {
    forall i, j :: 0 <= i < j < |files| ==> Apart(files[i], files[j])
  }

  /** Sorting pairwise disjoint files by minimum key makes an ordered level. */
  lemma {:induction false} SortOrders(files: Files)
    requires AllExact(files) && PairwiseApart(files)
    ensures AllExact(SortByMin(files)) && Ordered(SortByMin(files))
  {
    hide Exact, Below, InsertByMin;
    if files != [] {
      var n := |files| - 1;
      SortOrders(files[..n]);
      var sorted := SortByMin(files[..n]);
      forall g | g in sorted ensures Apart(files[n], g) {
        SamePermutation(sorted, files[..n], g);
        var i :| 0 <= i < n && files[i] == g;
        assert Apart(files[i], files[n]);
      }
      InsertKeepsOrder(sorted, files[n]);
    }
  }

  // --- What a file list holds ---

  /** The entries of the files, with multiplicity. */
  function Bag(files: Files): multiset<Entry> {
    if files == [] then multiset{} else Bag(files[..|files| - 1]) + multiset(files[|files| - 1].entries)
  }

  lemma {:induction false} BagAppend(a: Files, b: Files)
    ensures Bag(a + b) == Bag(a) + Bag(b)
  {
    if b == [] {
      assert a + b == a;
    } else {
      BagAppend(a, b[..|b| - 1]);
      assert (a + b)[..|a + b| - 1] == a + b[..|b| - 1];
    }
  }

  lemma BagOne(f: Sst)
    ensures Bag([f]) == multiset(f.entries)
  {
    assert [f][..0] == [];
  }

  lemma {:induction false} BagInsert(files: Files, f: Sst)
    ensures Bag(InsertByMin(files, f)) == Bag(files) + multiset(f.entries)
  {
    if files == [] {
      BagOne(f);
    } else {
      var n := |files| - 1;
      BagInsert(files[..n], f);
      var r := InsertByMin(files[..n], f);
      assert (r + [files[n]])[..|r|] == r;
      assert (files + [f])[..|files|] == files;
    }
  }

  lemma {:induction false} BagSort(files: Files)
    ensures Bag(SortByMin(files)) == Bag(files)
  {
    if files != [] {
      var n := |files| - 1;
      BagSort(files[..n]);
      BagInsert(SortByMin(files[..n]), files[n]);
    }
  }

  lemma BagCons(f: Sst, files: Files)
    ensures Bag([f] + files) == multiset(f.entries) + Bag(files)
  {
    BagAppend([f], files);
    BagOne(f);
  }

  lemma FilterCons(f: Sst, files: Files, p: Sst -> bool)
    ensures Filter([f] + files, p) == if p(f) then [f] + Filter(files, p) else Filter(files, p)
  {
    assert ([f] + files)[1..] == files;
  }

  lemma {:induction false} BagFilter(files: Files, p: Sst -> bool, q: Sst -> bool)
    requires forall f :: f in files ==> (p(f) <==> !q(f))
    ensures Bag(files) == Bag(Filter(files, p)) + Bag(Filter(files, q))
  {
    if files != [] {
      hide Bag, Filter;
      var head, tail := files[0], files[1..];
      assert files == [head] + tail;
      BagFilter(tail, p, q);
      FilterCons(head, tail, p);
      FilterCons(head, tail, q);
      BagCons(head, tail);
      BagCons(head, Filter(tail, p));
      BagCons(head, Filter(tail, q));
    }
  }

  lemma {:induction false} InBag(files: Files, e: Entry)
    ensures e in Bag(files) <==> exists f :: f in files && e in f.entries
  {
    if files != [] {
      var n := |files| - 1;
      assert files == files[..n] + [files[n]];
      InBag(files[..n], e);
      assert e in multiset(files[n].entries) <==> e in files[n].entries;
    }
  }

  lemma {:induction false} FilterKeepsOrder(files: Files, p: Sst -> bool)
    requires Ordered(files) && AllExact(files)
    ensures Ordered(Filter(files, p)) && AllExact(Filter(files, p))
  {
    hide Exact, Below;
    if files != [] {
      var head, tail := files[0], files[1..];
      FilterKeepsOrder(tail, p);
      forall g | g in Filter(tail, p) ensures Below(head, g) {
        var j :| 0 <= j < |tail| && tail[j] == g;
        assert Below(files[0], files[j + 1]);
      }
      OrderedCons(head, Filter(tail, p));
    }
  }

  lemma {:induction false} FilterAgree(files: Files, p: Sst -> bool, q: Sst -> bool)
    requires forall f :: f in files ==> (p(f) <==> q(f))
    ensures Filter(files, p) == Filter(files, q)
  {
    if files != [] {
      assert files == [files[0]] + files[1..];
      FilterAgree(files[1..], p, q);
    }
  }

  lemma {:induction false} FilterAll(files: Files, p: Sst -> bool)
    ensures (forall f :: f in files ==> p(f)) ==> Filter(files, p) == files
    ensures (forall f :: f in files ==> !p(f)) ==> Filter(files, p) == []
  {
    if files != [] {
      assert files == [files[0]] + files[1..];
      FilterAll(files[1..], p);
    }
  }

  // --- Overlap and the merged hull ---

  predicate Between(lo: Key, e: Entry, hi: Key) {
    Keys.Leq(lo, e.key) && Keys.Leq(e.key, hi)
  }

  lemma EntryBetween(f: Sst, e: Entry)
    requires Exact(f) && e in f.entries
    ensures Between(f.meta.minKey, e, f.meta.maxKey)
  {
    hide Keys.Less;
    var i :| 0 <= i < |f.entries| && f.entries[i] == e;
    if i > 0 { assert Keys.Less(f.entries[0].key, f.entries[i].key); }
    if i < |f.entries| - 1 { assert Keys.Less(f.entries[i].key, f.entries[|f.entries| - 1].key); }
  }

  /** No untouched target file lies inside the merged range: it is wholly below, or wholly above,
      everything the compaction merges. */
  lemma UntouchedIsApart(target: Files, lo: Key, hi: Key, f: Sst, e: Entry)
    requires Ordered(target) && AllExact(target) && f in target && f !in Overlapping(target, lo, hi)
    requires Keys.Leq(lo, hi)
    requires Between(lo, e, hi) || exists g :: g in Overlapping(target, lo, hi) && e in g.entries
    ensures Keys.Less(f.meta.maxKey, lo) || Keys.Less(hi, f.meta.minKey)
    ensures Keys.Less(f.meta.maxKey, lo) ==> Keys.Less(f.meta.maxKey, e.key)
    ensures Keys.Less(hi, f.meta.minKey) ==> Keys.Less(e.key, f.meta.minKey)
  {
    hide Exact, Keys.Less, Ordered, StrictlySorted;
    Keys.Trichotomy(lo, f.meta.maxKey);
    Keys.Trichotomy(f.meta.minKey, hi);
    if Between(lo, e, hi) {
      if Keys.Less(f.meta.maxKey, lo) { Keys.Transitive(f.meta.maxKey, lo, e.key); }
      if Keys.Less(hi, f.meta.minKey) { Keys.Transitive(e.key, hi, f.meta.minKey); }
    } else {
      var g :| g in Overlapping(target, lo, hi) && e in g.entries;
      ExactMember(target, f);
      ExactMember(target, g);
      EntryBetween(g, e);
      OrderedApart(target, f, g);
      SideOfOverlap(f, g, lo, hi);
      if Keys.Less(f.meta.maxKey, lo) { Keys.Transitive(f.meta.maxKey, g.meta.minKey, e.key); }
      if Keys.Less(hi, f.meta.minKey) { Keys.Transitive(e.key, g.meta.maxKey, f.meta.minKey); }
    }
  }

  lemma ExactMember(files: Files, f: Sst)
    requires AllExact(files) && f in files
    ensures Exact(f)
  {}

  lemma OrderedApart(files: Files, f: Sst, g: Sst)
    requires Ordered(files) && f in files && g in files && f != g
    ensures Apart(f, g)
  {
    hide Below;
    var i :| 0 <= i < |files| && files[i] == f;
    var j :| 0 <= j < |files| && files[j] == g;
    if i < j { assert Below(files[i], files[j]); } else { assert Below(files[j], files[i]); }
  }

  /** An overlapping file is on the same side of f as the range is. */
  lemma SideOfOverlap(f: Sst, g: Sst, lo: Key, hi: Key)
    requires Exact(f) && Exact(g) && Apart(f, g) && Keys.Leq(lo, g.meta.maxKey) && Keys.Leq(g.meta.minKey, hi)
    ensures Keys.Less(f.meta.maxKey, lo) ==> Below(f, g)
    ensures Keys.Less(hi, f.meta.minKey) ==> Below(g, f)
  {
    hide Exact, Keys.Less, Keys.Leq;
    MinLeqMax(f);
    if Keys.Less(f.meta.maxKey, lo) && Below(g, f) {
      Keys.Transitive(g.meta.maxKey, f.meta.minKey, f.meta.maxKey);
      Keys.Transitive(g.meta.maxKey, f.meta.maxKey, lo);
      Keys.Transitive(lo, g.meta.maxKey, lo);
      Keys.Trichotomy(lo, lo);
    }
    if Keys.Less(hi, f.meta.minKey) && Below(f, g) {
      Keys.Transitive(f.meta.minKey, f.meta.maxKey, g.meta.minKey);
      Keys.Transitive(hi, f.meta.minKey, g.meta.minKey);
      Keys.Transitive(hi, g.meta.minKey, hi);
      Keys.Trichotomy(hi, hi);
    }
  }
}
