/** Which operations keep every upper layer newer than every lower one. */
module LayerOrder {
  import opened Codec
  import opened Entries
  import M = Memtables
  import opened Levels
  import opened Compaction
  import opened Compactor
  import opened Flushing
  import opened ReadPath
  import Keys

  // --- Writes and rotation ---

  /** A write newer than everything keeps the order. */
  lemma PutKeepsOrder(db: Db, e: Entry, k: Bytes)
    requires StrictlySorted(db.active) && OrderedFor(Layers(db), k)
    requires forall i, x :: 0 <= i < |Layers(db)| && x in Layers(db)[i].entries ==> x.key.lsn < e.key.lsn
    ensures OrderedFor(Layers(db.(active := M.Insert(db.active, e))), k)
  {
    hide M.Insert, LevelLayers, FrozenLayers, StrictlySorted;
    var was, now := Layers(db), Layers(db.(active := M.Insert(db.active, e)));
    assert |was| == |now| && forall i :: 0 < i < |was| ==> now[i] == was[i];
    assert forall x :: x in now[0].entries ==> x == e || x in was[0].entries;
    hide Layers;
    TopGrows(was, now, e, k);
  }

  /** The top layer gains an entry newer than every other. */
  lemma TopGrows(was: seq<Layer>, now: seq<Layer>, e: Entry, k: Bytes)
    requires OrderedFor(was, k) && |was| == |now| > 0
    requires forall i :: 0 < i < |was| ==> now[i] == was[i]
    requires forall x :: x in now[0].entries ==> x == e || x in was[0].entries
    requires forall i, x :: 0 <= i < |was| && x in was[i].entries ==> x.key.lsn < e.key.lsn
    ensures OrderedFor(now, k)
  {
    forall i, j, x, y | 0 <= i < j < |now| && x in now[i].entries && y in now[j].entries
        && x.key.bytes == k == y.key.bytes
      ensures x.key.lsn > y.key.lsn
    {
      assert now[j] == was[j] && y in was[j].entries;
      if i > 0 {
        assert now[i] == was[i];
      } else if x != e {
        assert x in was[i].entries;
      }
    }
  }

  /** A rotation puts an empty layer on top. */
  lemma RotateKeepsOrder(db: Db, k: Bytes)
    requires OrderedFor(Layers(db), k)
    ensures var db' := db.(active := [], frozen := db.frozen + [db.active]);
            Layers(db') == [Mem([])] + Layers(db) && OrderedFor(Layers(db'), k)
  {
    hide LevelLayers;
    var db' := db.(active := [], frozen := db.frozen + [db.active]);
    assert FrozenLayers(db'.frozen) == [Mem(db.active)] + FrozenLayers(db.frozen);
    assert Layers(db') == [Mem([])] + Layers(db);
    ShiftOrder(Layers(db), k);
  }

  lemma ShiftOrder(layers: seq<Layer>, k: Bytes)
    requires OrderedFor(layers, k)
    ensures OrderedFor([Mem([])] + layers, k)
  {
    var shifted := [Mem([])] + layers;
    forall i, j, x, y | 0 <= i < j < |shifted| && x in shifted[i].entries && y in shifted[j].entries
        && x.key.bytes == k == y.key.bytes
      ensures x.key.lsn > y.key.lsn
    {
      assert shifted[i] == layers[i - 1] && shifted[j] == layers[j - 1];
    }
  }

  // --- Flush ---

  /** The version after a flush of the n oldest frozen memtables. */
  function Flushed(db: Db, n: nat, out: Levels.Files): Db
    requires n <= |db.frozen|
  {
    db.(frozen := db.frozen[n..], levels := WithL0(db.levels, out))
  }

  /** Where an entry of layer q was before the flush: layers above L0 and below it only move, and L0 takes in
      the lowest n memtables. */
  lemma LayerBeforeFlush(db: Db, n: nat, out: Levels.Files, q: nat, y: Entry) returns (o: nat)
    requires n <= |db.frozen| && |out| == n && forall i :: 0 <= i < n ==> out[i].entries == db.frozen[i]
    requires q < |Layers(Flushed(db, n, out))| && y in Layers(Flushed(db, n, out))[q].entries
    ensures o < |Layers(db)| && y in Layers(db)[o].entries
    ensures var l0 := 1 + |db.frozen| - n;
            (q < l0 ==> o == q) && (q == l0 ==> l0 <= o <= l0 + n) && (q > l0 ==> o == q + n)
  {
    hide Concat;
    var l0 := 1 + |db.frozen| - n;
    var db' := Flushed(db, n, out);
    if q < l0 {
      o := q;
    } else if q > l0 {
      o := q + n;
      assert db'.levels[q - l0] == db.levels[q - l0];
    } else {
      assert Layers(db')[q] == Disk(Concat(db'.levels[0]));
      o := L0Before(db, n, out, y);
    }
  }

  lemma L0Before(db: Db, n: nat, out: Levels.Files, y: Entry) returns (o: nat)
    requires n <= |db.frozen| && |out| == n && forall i :: 0 <= i < n ==> out[i].entries == db.frozen[i]
    requires y in Concat(WithL0(db.levels, out)[0])
    ensures o < |Layers(db)| && y in Layers(db)[o].entries
    ensures 1 + |db.frozen| - n <= o <= 1 + |db.frozen|
  {
    hide Concat;
    ConcatAppend(LevelAt(db.levels, 0), out);
    ConcatNone();
    WithL0Levels(db.levels, out);
    if y in Concat(out) {
      var i := HolderOf(out, y);
      o := |db.frozen| - i;
      assert Layers(db)[o] == Mem(db.frozen[i]);
    } else {
      o := 1 + |db.frozen|;
      assert db.levels != [] && Layers(db)[o] == Disk(Concat(db.levels[0]));
    }
  }

  lemma FlushKeepsOrder(db: Db, n: nat, out: Levels.Files, k: Bytes)
    requires n <= |db.frozen| && |out| == n && forall i :: 0 <= i < n ==> out[i].entries == db.frozen[i]
    requires OrderedFor(Layers(db), k)
    ensures OrderedFor(Layers(Flushed(db, n, out)), k)
  {
    hide Layers, Flushed;
    var layers := Layers(Flushed(db, n, out));
    forall i, j, x, y | 0 <= i < j < |layers| && x in layers[i].entries && y in layers[j].entries
        && x.key.bytes == k == y.key.bytes
      ensures x.key.lsn > y.key.lsn
    {
      var a := LayerBeforeFlush(db, n, out, i, x);
      var b := LayerBeforeFlush(db, n, out, j, y);
      assert a < b;
    }
  }

  // --- Compaction ---

  /** Every version of k in a higher level is newer than every one in a deeper level. */
  ghost predicate LevelsOrdered(levels: DbLevels, k: Bytes) {
    forall m: nat, p: nat, x, y ::
      m < p && x in Bag(LevelAt(levels, m)) && y in Bag(LevelAt(levels, p)) && x.key.bytes == k == y.key.bytes ==>
        x.key.lsn > y.key.lsn
  }

  ghost predicate HasKey(m: multiset<Entry>, k: Bytes) { exists e :: e in m && e.key.bytes == k }

  /** Only what the plan takes changes level, one level down. */
  ghost predicate Moved(levels: DbLevels, n: nat, levels': DbLevels, kept: multiset<Entry>, moved: multiset<Entry>) {
    && Bag(LevelAt(levels, n)) == kept + moved && Bag(LevelAt(levels', n)) == kept
    && Bag(LevelAt(levels', n + 1)) == Bag(LevelAt(levels, n + 1)) + moved
    && forall m: nat :: m != n && m != n + 1 ==> LevelAt(levels', m) == LevelAt(levels, m)
  }

  lemma CompactionMoves(levels: DbLevels, n: nat, levels': DbLevels)
    requires WellFormed(levels) && Compacted(levels, n, levels')
    ensures Pick(levels, n).Plan? && Moved(levels, n, levels', Bag(LevelAt(levels', n)), Bag(Pick(levels, n).source))
  {
    hide WellFormed, Bag, Pick, Sorted, FreshIds, OutputOf, LevelAt;
    var merged, out :| CompactionOf(levels, n, merged, out) && levels' == Install(levels, n, Pick(levels, n), out);
    CompactionConserves(levels, n, merged, out);
    hide Install;
  }

  /** The level an entry was on. */
  lemma LevelBefore(levels: DbLevels, n: nat, levels': DbLevels, kept: multiset<Entry>, moved: multiset<Entry>, m: nat,
                    y: Entry)
    requires Moved(levels, n, levels', kept, moved) && y in Bag(LevelAt(levels', m))
    ensures m == n ==> y in kept && y in Bag(LevelAt(levels, n))
    ensures m == n + 1 ==> y in Bag(LevelAt(levels, n + 1)) || (y in moved && y in Bag(LevelAt(levels, n)))
    ensures m != n && m != n + 1 ==> y in Bag(LevelAt(levels, m))
  {
    hide Bag, LevelAt;
  }

  /** If k is not split between what stays and what moves, the order survives. */
  lemma UnsplitKeepsOrder(levels: DbLevels, n: nat, levels': DbLevels, kept: multiset<Entry>, moved: multiset<Entry>,
                          k: Bytes)
    requires LevelsOrdered(levels, k) && Moved(levels, n, levels', kept, moved)
    requires !(HasKey(kept, k) && HasKey(moved, k))
    ensures LevelsOrdered(levels', k)
  {
    hide Bag, LevelAt, Moved;
    forall m: nat, p: nat, x, y |
      m < p && x in Bag(LevelAt(levels', m)) && y in Bag(LevelAt(levels', p)) && x.key.bytes == k == y.key.bytes
      ensures x.key.lsn > y.key.lsn
    {
      LevelBefore(levels, n, levels', kept, moved, m, x);
      LevelBefore(levels, n, levels', kept, moved, p, y);
    }
  }

  /** If it is, the newer versions have gone below the older ones. */
  lemma SplitBreaksOrder(levels: DbLevels, n: nat, levels': DbLevels, kept: multiset<Entry>, moved: multiset<Entry>,
                         k: Bytes)
    requires Moved(levels, n, levels', kept, moved)
    requires exists x, y :: x in kept && y in moved && x.key.bytes == k == y.key.bytes && x.key.lsn <= y.key.lsn
    ensures !LevelsOrdered(levels', k)
  {
    var x, y :| x in kept && y in moved && x.key.bytes == k == y.key.bytes && x.key.lsn <= y.key.lsn;
    hide Bag, LevelAt;
    assert x in Bag(LevelAt(levels', n)) && y in Bag(LevelAt(levels', n + 1));
  }

  /** In an ordered level, the first file's version of a key is newer than any later file's. */
  lemma FirstFileIsNewer(files: Levels.Files, x: Entry, y: Entry)
    requires AllExact(files) && Ordered(files) && files != []
    requires y in files[0].entries && x in Bag(files[1..]) && x.key.bytes == y.key.bytes
    ensures x.key.lsn < y.key.lsn
  {
    hide Exact;
    InBag(files[1..], x);
    var f :| f in files[1..] && x in f.entries;
    var i :| 0 <= i < |files[1..]| && files[1..][i] == f;
    assert files[i + 1] == f && Levels.Below(files[0], files[i + 1]);
    EntryBetween(f, x);
    EntryBetween(files[0], y);
    LessBetween(y.key, files[0].meta.maxKey, f.meta.minKey, x.key);
  }

  lemma LessBetween(a: Keys.Key, b: Keys.Key, c: Keys.Key, d: Keys.Key)
    requires Keys.Leq(a, b) && Keys.Less(b, c) && Keys.Leq(c, d) && a.bytes == d.bytes
    ensures d.lsn < a.lsn
  {
    Keys.Transitive(a, b, c);
    Keys.Transitive(a, c, d);
    Keys.BytesTrichotomy(a.bytes, d.bytes);
  }

  lemma KeptIsRest(levels: DbLevels, n: nat, levels': DbLevels)
    requires WellFormed(levels) && Compacted(levels, n, levels')
    ensures var files := LevelAt(levels, n);
            && files != [] && Pick(levels, n).Plan?
            && (n == 0 ==> Bag(Pick(levels, n).source) == Bag(files) && Bag(LevelAt(levels', n)) == multiset{})
            && (n > 0 ==> Bag(Pick(levels, n).source) == multiset(files[0].entries))
            && (n > 0 ==> Bag(LevelAt(levels', n)) == Bag(files[1..]))
  {
    hide Bag, Pick, Compacted, WellFormed, LevelAt;
    HasPlan(levels, n, levels');
    var source := Pick(levels, n).source;
    PlanSource(levels, n);
    CompactionMoves(levels, n, levels');
    var files, kept := LevelAt(levels, n), Bag(LevelAt(levels', n));
    if n == 0 {
      NothingBelow();
      Rest(Bag(files), source, kept, []);
    } else {
      BagOne(files[0]);
      BagCons(files[0], files[1..]);
      assert files == [files[0]] + files[1..];
      Rest(Bag(files), source, kept, files[1..]);
    }
  }

  lemma HasPlan(levels: DbLevels, n: nat, levels': DbLevels)
    requires Compacted(levels, n, levels')
    ensures Pick(levels, n).Plan?
  {
    hide Pick;
  }

  lemma PlanSource(levels: DbLevels, n: nat)
    requires Pick(levels, n).Plan?
    ensures var files := LevelAt(levels, n);
            files != [] && Pick(levels, n).source == if n == 0 then files else [files[0]]
  {
    hide LeastMin, GreatestMax, Overlapping;
  }

  lemma Rest(all: multiset<Entry>, source: Levels.Files, kept: multiset<Entry>, rest: Levels.Files)
    requires all == kept + Bag(source) && all == Bag(source) + Bag(rest)
    ensures kept == Bag(rest) && (rest == [] ==> kept == multiset{})
  {
    NothingBelow();
    hide Bag;
    assert kept == all - Bag(source) == Bag(rest);
  }

  /** A compaction of L0 keeps the level order for every key. One of a deeper level keeps it exactly for the
      keys whose versions the level does not split between its first file and its other files. */
  lemma CompactionKeepsOrderIff(levels: DbLevels, n: nat, levels': DbLevels, k: Bytes)
    requires WellFormed(levels) && Compacted(levels, n, levels') && LevelsOrdered(levels, k)
    ensures LevelsOrdered(levels', k) <==>
            (n == 0 || !(HoldsKey(LevelAt(levels, n)[0].entries, k) && HasKey(Bag(LevelAt(levels, n)[1..]), k)))
  {
    var files, kept, moved := LevelAt(levels, n), Bag(LevelAt(levels', n)), Bag(Pick(levels, n).source);
    hide Bag, Pick, Compacted, Install, Ordered, AllExact, LevelsOrdered;
    CompactionMoves(levels, n, levels');
    KeptIsRest(levels, n, levels');
    assert LevelOk(files, n);
    hide WellFormed, LevelAt, Moved;
    if n == 0 {
      UnsplitKeepsOrder(levels, n, levels', kept, moved, k);
    } else {
      HeldBy(files[0].entries, k);
      if HasKey(kept, k) && HasKey(moved, k) {
        var x :| x in kept && x.key.bytes == k;
        var y :| y in moved && y.key.bytes == k;
        FirstFileIsNewer(files, x, y);
        SplitBreaksOrder(levels, n, levels', kept, moved, k);
      } else {
        UnsplitKeepsOrder(levels, n, levels', kept, moved, k);
      }
    }
  }

  lemma HeldBy(es: seq<Entry>, k: Bytes)
    ensures HoldsKey(es, k) <==> HasKey(multiset(es), k)
  {
    if HoldsKey(es, k) {
      var e :| e in es && e.key.bytes == k;
      assert e in multiset(es);
    }
  }

  /** The level order is the order of the levels as layers. */
  lemma LevelsAreLayers(levels: DbLevels, k: Bytes)
    ensures LevelsOrdered(levels, k) <==> OrderedFor(LevelLayers(levels), k)
  {
    hide Bag, Concat;
    var layers := LevelLayers(levels);
    forall m: nat, e | m < |levels| ensures e in layers[m].entries <==> e in Bag(LevelAt(levels, m)) {
      ConcatBag(levels[m]);
      assert e in Concat(levels[m]) <==> e in multiset(Concat(levels[m]));
    }
    NothingBelow();
    if OrderedFor(layers, k) {
      forall m: nat, p: nat, x, y |
        m < p && x in Bag(LevelAt(levels, m)) && y in Bag(LevelAt(levels, p)) && x.key.bytes == k == y.key.bytes
        ensures x.key.lsn > y.key.lsn
      {
        assert p < |levels|;
        assert x in layers[m].entries && y in layers[p].entries;
      }
    }
  }

  // --- Memtables above levels ---

  function MemLayers(db: Db): seq<Layer> { [Mem(db.active)] + FrozenLayers(db.frozen) }

  /** Every version of k in the layers is newer than every one in m. */
  ghost predicate AllNewer(layers: seq<Layer>, m: multiset<Entry>, k: Bytes) {
    forall i, x, y :: 0 <= i < |layers| && x in layers[i].entries && y in m && x.key.bytes == k == y.key.bytes ==>
      x.key.lsn > y.key.lsn
  }

  lemma OrderedSplit(a: seq<Layer>, b: seq<Layer>, m: multiset<Entry>, k: Bytes)
    requires forall e :: e in m <==> exists i :: 0 <= i < |b| && e in b[i].entries
    ensures OrderedFor(a + b, k) <==> OrderedFor(a, k) && OrderedFor(b, k) && AllNewer(a, m, k)
  {
    var c := a + b;
    assert forall i :: 0 <= i < |b| ==> c[|a| + i] == b[i];
    if OrderedFor(c, k) {
      OrderedHalves(a, b, m, k);
    }
    if OrderedFor(a, k) && OrderedFor(b, k) && AllNewer(a, m, k) {
      forall i, j, x, y | 0 <= i < j < |c| && x in c[i].entries && y in c[j].entries && x.key.bytes == k == y.key.bytes
        ensures x.key.lsn > y.key.lsn
      {
        if j < |a| {
          assert x in a[i].entries && y in a[j].entries;
        } else if i < |a| {
          assert y in b[j - |a|].entries && y in m;
        } else {
          assert x in b[i - |a|].entries && y in b[j - |a|].entries;
        }
      }
    }
  }

  lemma OrderedHalves(a: seq<Layer>, b: seq<Layer>, m: multiset<Entry>, k: Bytes)
    requires OrderedFor(a + b, k)
    requires forall e :: e in m <==> exists i :: 0 <= i < |b| && e in b[i].entries
    ensures OrderedFor(a, k) && OrderedFor(b, k) && AllNewer(a, m, k)
  {
    var c := a + b;
    assert forall i :: 0 <= i < |b| ==> c[|a| + i] == b[i];
    assert forall i :: 0 <= i < |a| ==> c[i] == a[i];
    forall i, j, x, y | 0 <= i < j < |a| && x in a[i].entries && y in a[j].entries && x.key.bytes == k == y.key.bytes
      ensures x.key.lsn > y.key.lsn
    {
      assert x in c[i].entries && y in c[j].entries;
    }
    forall i, x, y | 0 <= i < |a| && x in a[i].entries && y in m && x.key.bytes == k == y.key.bytes
      ensures x.key.lsn > y.key.lsn
    {
      var j :| 0 <= j < |b| && y in b[j].entries;
      assert y in c[|a| + j].entries && x in c[i].entries;
    }
    forall i, j, x, y | 0 <= i < j < |b| && x in b[i].entries && y in b[j].entries && x.key.bytes == k == y.key.bytes
      ensures x.key.lsn > y.key.lsn
    {
      assert x in c[|a| + i].entries && y in c[|a| + j].entries;
    }
  }

  lemma {:induction false} InPart(levels: DbLevels, n: nat, e: Entry)
    requires n <= |levels|
    ensures e in Part(levels, n) <==> exists i :: 0 <= i < n && e in LevelLayers(levels)[i].entries
  {
    hide Bag, Concat;
    if n > 0 {
      InPart(levels, n - 1, e);
      ConcatBag(levels[n - 1]);
      assert e in Concat(levels[n - 1]) <==> e in multiset(Concat(levels[n - 1]));
      assert LevelLayers(levels)[n - 1].entries == Concat(levels[n - 1]);
    }
  }

  /** The memtables are in order, the levels are, and everything in memory is newer than everything on disk. */
  lemma DbOrder(db: Db, k: Bytes)
    ensures OrderedFor(Layers(db), k) <==>
              OrderedFor(MemLayers(db), k) && LevelsOrdered(db.levels, k)
                  && AllNewer(MemLayers(db), Total(db.levels), k)
  {
    forall e
      ensures e in Total(db.levels) <==> exists i :: 0 <= i < |db.levels| && e in LevelLayers(db.levels)[i].entries
    {
      InPart(db.levels, |db.levels|, e);
    }
    hide FrozenLayers, LevelLayers, LevelsOrdered, OrderedFor, Total, AllNewer;
    LevelsAreLayers(db.levels, k);
    assert Layers(db) == MemLayers(db) + LevelLayers(db.levels);
    OrderedSplit(MemLayers(db), LevelLayers(db.levels), Total(db.levels), k);
  }

  /** The level's first file and its other files both hold k. */
  ghost predicate SplitsKey(levels: DbLevels, n: nat, k: Bytes) {
    var files := LevelAt(levels, n);
    n > 0 && files != [] && HoldsKey(files[0].entries, k) && HasKey(Bag(files[1..]), k)
  }

  /** A compaction keeps the order of all the layers `get` asks, memtables included, exactly when it compacts L0
      or its level does not split the key. */
  lemma CompactionKeepsDbOrderIff(db: Db, n: nat, merged: seq<Entry>, out: Levels.Files, k: Bytes)
    requires WellFormed(db.levels) && CompactionOf(db.levels, n, merged, out) && OrderedFor(Layers(db), k)
    ensures var levels' := Install(db.levels, n, Pick(db.levels, n), out);
            OrderedFor(Layers(db.(levels := levels')), k) <==> !SplitsKey(db.levels, n, k)
  {
    hide WellFormed, Pick, Install, OrderedFor, Layers, LevelsOrdered, AllNewer, OutputOf, Sorted, FreshIds, Bag,
         LevelAt, Total;
    var levels' := Install(db.levels, n, Pick(db.levels, n), out);
    assert Compacted(db.levels, n, levels');
    DbOrder(db, k);
    CompactionKeepsOrderIff(db.levels, n, levels', k);
    CompactionConserves(db.levels, n, merged, out);
    KeptIsRest(db.levels, n, levels');
    DbOrder(db.(levels := levels'), k);
    assert MemLayers(db.(levels := levels')) == MemLayers(db);
  }

  lemma NothingBelow()
    ensures Bag([]) == multiset{}
  {}
}
