/** `Db::get`: the layers it looks through, when the first answer is the newest version, and which
    operations keep it so. */
module ReadPath {
  import opened Codec
  import opened Entries
  import opened Memtables
  import opened Levels
  import opened Compaction
  import opened Compactor
  import opened Flushing
  import opened SstableFormat
  import opened SstableReaders
  import opened Tables
  import Keys
  import Values

  /** A memtable, whose tombstones answer nothing, or a level of tables, whose tombstones are answers. */
  datatype Layer = Mem(entries: seq<Entry>) | Disk(entries: seq<Entry>)

  /** One version of the database as readers load it; frozen memtables oldest first. */
  datatype Db = Db(active: seq<Entry>, frozen: seq<seq<Entry>>, levels: DbLevels)

  function Stored(e: Option<Entry>): Option<Values.Value> {
    if e.Some? then Some(e.value.value) else None
  }

  function Answer(l: Layer, k: Bytes): Option<Values.Value> {
    if l.Mem? then Visible(FirstFor(l.entries, k)) else Stored(FirstFor(l.entries, k))
  }

  /** The first layer to answer decides. */
  function Scan(layers: seq<Layer>, k: Bytes): Option<Values.Value> {
    if layers == [] then None
    else if Answer(layers[0], k).Some? then Answer(layers[0], k)
    else Scan(layers[1..], k)
  }

  function FrozenLayers(frozen: seq<seq<Entry>>): (r: seq<Layer>)
    ensures |r| == |frozen| && forall i :: 0 <= i < |r| ==> r[i] == Mem(frozen[|frozen| - 1 - i])
  {
    seq(|frozen|, i requires 0 <= i < |frozen| => Mem(frozen[|frozen| - 1 - i]))
  }

  function LevelLayers(levels: DbLevels): (r: seq<Layer>)
    ensures |r| == |levels| && forall i :: 0 <= i < |r| ==> r[i] == Disk(Concat(levels[i]))
  {
    seq(|levels|, i requires 0 <= i < |levels| => Disk(Concat(levels[i])))
  }

  /** Mutable memtable, frozen ones newest first, then the levels. */
  function Layers(db: Db): seq<Layer> {
    [Mem(db.active)] + FrozenLayers(db.frozen) + LevelLayers(db.levels)
  }

  lemma {:induction false} ScanAppend(a: seq<Layer>, b: seq<Layer>, k: Bytes)
    ensures Scan(a + b, k) == if Scan(a, k).Some? then Scan(a, k) else Scan(b, k)
  {
    hide Answer;
    if a == [] {
      assert a + b == b;
    } else {
      assert (a + b)[1..] == a[1..] + b;
      ScanAppend(a[1..], b, k);
    }
  }

  lemma ConcatSnoc(files: Levels.Files, f: Sst)
    ensures Concat(files + [f]) == Concat(files) + f.entries
  {
    assert (files + [f])[..|files|] == files;
  }

  lemma ConcatNone()
    ensures Concat([]) == []
  {}

  lemma {:induction false} ConcatAppend(a: Levels.Files, b: Levels.Files)
    ensures Concat(a + b) == Concat(a) + Concat(b)
  {
    if b == [] {
      assert a + b == a;
    } else {
      var n := |b| - 1;
      ConcatAppend(a, b[..n]);
      assert (a + b)[..|a + b| - 1] == a + b[..n];
    }
  }

  /** The mutable memtable, then the frozen ones from the newest back. */
  method GetFromMemtables(db: Db, k: Bytes) returns (r: Option<Values.Value>)
    ensures r == Scan([Mem(db.active)] + FrozenLayers(db.frozen), k)
  {
    hide FirstFor, Visible;
    var layers, n := FrozenLayers(db.frozen), |db.frozen|;
    assert ([Mem(db.active)] + layers)[1..] == layers;
    r := Visible(FirstFor(db.active, k));
    if r.Some? { return; }
    var i := n;
    while i > 0
      invariant 0 <= i <= n && Scan(layers, k) == Scan(layers[n - i..], k)
    {
      i := i - 1;
      assert layers[n - i - 1..][0] == Mem(db.frozen[i]) && layers[n - i - 1..][1..] == layers[n - i..];
      r := Visible(FirstFor(db.frozen[i], k));
      if r.Some? { return; }
    }
    r := None;
  }

  predicate Searchable(ts: seq<Table>, k: Bytes) {
    forall i :: 0 <= i < |ts| ==> ts[i].bloom.Sized() && Partitioned(ts[i].index, k)
  }

  /** The first table to find the key, or to fail, decides. */
  function FirstAnswer(env: Env, ts: seq<Table>, k: Bytes): Lookup
    requires Searchable(ts, k)
  {
    if ts == [] then Miss
    else
      var r := SearchResult(env.crc, env.sip, ts[0], k);
      if r.Miss? then FirstAnswer(env, ts[1..], k) else r
  }

  function FirstLevel(env: Env, tables: seq<seq<Table>>, k: Bytes): Lookup
    requires forall n :: 0 <= n < |tables| ==> Searchable(tables[n], k)
  {
    if tables == [] then Miss
    else
      var r := FirstAnswer(env, tables[0], k);
      if r.Miss? then FirstLevel(env, tables[1..], k) else r
  }

  /** The tables of one level, in list order. */
  method GetFromLevel(env: Env, ts: seq<Table>, k: Bytes) returns (r: Lookup)
    requires Searchable(ts, k)
    ensures r == FirstAnswer(env, ts, k)
  {
    hide SearchResult;
    for i := 0 to |ts|
      invariant FirstAnswer(env, ts, k) == FirstAnswer(env, ts[i..], k)
    {
      assert ts[i..][0] == ts[i] && ts[i..][1..] == ts[i + 1..];
      r := Search(env.crc, env.sip, ts[i], k);
      if !r.Miss? { return; }
    }
    r := Miss;
  }

  predicate AllSearchable(tables: seq<seq<Table>>, k: Bytes) {
    forall n :: 0 <= n < |tables| ==> Searchable(tables[n], k)
  }

  /** None of the first i tables finds the key, or fails. */
  predicate Misses(env: Env, ts: seq<Table>, k: Bytes, i: nat)
    requires Searchable(ts, k)
  {
    forall j :: 0 <= j < i && j < |ts| ==> SearchResult(env.crc, env.sip, ts[j], k).Miss?
  }

  /** Table i of level n is the first, level by level, that is not a miss. */
  predicate FirstNoMiss(env: Env, tables: seq<seq<Table>>, k: Bytes, n: nat, i: nat)
    requires AllSearchable(tables, k)
  {
    && n < |tables| && i < |tables[n]| && Misses(env, tables[n], k, i)
    && !SearchResult(env.crc, env.sip, tables[n][i], k).Miss?
    && forall l :: 0 <= l < n ==> Misses(env, tables[l], k, |tables[l]|)
  }

  lemma {:induction false} AllMiss(env: Env, ts: seq<Table>, k: Bytes)
    requires Searchable(ts, k) && Misses(env, ts, k, |ts|)
    ensures FirstAnswer(env, ts, k).Miss?
  {
    hide SearchResult;
    if ts != [] { AllMiss(env, ts[1..], k); }
  }

  lemma {:induction false} FirstOfLevel(env: Env, ts: seq<Table>, k: Bytes, i: nat)
    requires Searchable(ts, k) && i < |ts| && Misses(env, ts, k, i)
    requires !SearchResult(env.crc, env.sip, ts[i], k).Miss?
    ensures FirstAnswer(env, ts, k) == SearchResult(env.crc, env.sip, ts[i], k)
  {
    hide SearchResult;
    if i > 0 { FirstOfLevel(env, ts[1..], k, i - 1); }
  }

  /** With silent memtables `get` answers what the first table that is not a miss answers: its value, or that it cannot
      be read, whatever older tables hold. */
  lemma {:induction false} FirstTableDecides(env: Env, tables: seq<seq<Table>>, k: Bytes, n: nat, i: nat)
    requires AllSearchable(tables, k) && FirstNoMiss(env, tables, k, n, i)
    ensures FirstLevel(env, tables, k) == SearchResult(env.crc, env.sip, tables[n][i], k)
  {
    hide SearchResult, FirstAnswer, Searchable, Misses;
    if n == 0 {
      FirstOfLevel(env, tables[0], k, i);
    } else {
      AllMiss(env, tables[0], k);
      FirstTableDecides(env, tables[1..], k, n - 1, i);
    }
  }

  /** And a miss if there is none. */
  lemma {:induction false} NoTableAnswers(env: Env, tables: seq<seq<Table>>, k: Bytes)
    requires AllSearchable(tables, k) && forall l :: 0 <= l < |tables| ==> Misses(env, tables[l], k, |tables[l]|)
    ensures FirstLevel(env, tables, k).Miss?
  {
    hide SearchResult, FirstAnswer, Searchable, Misses;
    if tables != [] {
      AllMiss(env, tables[0], k);
      NoTableAnswers(env, tables[1..], k);
    }
  }

  /** Memtables first, then the opened tables level by level; a table that cannot be read is an error. */
  method Get(env: Env, db: Db, tables: seq<seq<Table>>, k: Bytes) returns (r: Lookup)
    requires forall n :: 0 <= n < |tables| ==> Searchable(tables[n], k)
    ensures var m := Scan([Mem(db.active)] + FrozenLayers(db.frozen), k);
            && (r == if m.Some? then Hit(m.value) else FirstLevel(env, tables, k))
            && (forall n: nat, i: nat :: m.None? && FirstNoMiss(env, tables, k, n, i) ==>
                  r == SearchResult(env.crc, env.sip, tables[n][i], k))
            && (m.None? && (forall n :: 0 <= n < |tables| ==> Misses(env, tables[n], k, |tables[n]|)) ==> r.Miss?)
  {
    hide FirstAnswer, Misses, SearchResult;
    forall n: nat, i: nat | FirstNoMiss(env, tables, k, n, i)
      ensures FirstLevel(env, tables, k) == SearchResult(env.crc, env.sip, tables[n][i], k)
    {
      FirstTableDecides(env, tables, k, n, i);
    }
    if forall n :: 0 <= n < |tables| ==> Misses(env, tables[n], k, |tables[n]|) { NoTableAnswers(env, tables, k); }
    var m := GetFromMemtables(db, k);
    if m.Some? { return Hit(m.value); }
    for n := 0 to |tables|
      invariant FirstLevel(env, tables, k) == FirstLevel(env, tables[n..], k)
    {
      assert tables[n..][0] == tables[n] && tables[n..][1..] == tables[n + 1..];
      r := GetFromLevel(env, tables[n], k);
      if !r.Miss? { return; }
    }
    r := Miss;
  }

  /** The tables of a level answer for its files. */
  predicate Reads(env: Env, ts: seq<Table>, files: Levels.Files, k: Bytes) {
    && |ts| == |files| && Searchable(ts, k)
    && forall i :: 0 <= i < |ts| ==> SearchResult(env.crc, env.sip, ts[i], k) == Found(FirstFor(files[i].entries, k))
  }

  lemma {:induction false} LevelReads(env: Env, ts: seq<Table>, files: Levels.Files, k: Bytes)
    requires Reads(env, ts, files, k)
    ensures FirstAnswer(env, ts, k) == Found(FirstFor(Concat(files), k))
  {
    hide SearchResult, FirstFor, Concat;
    ConcatNone();
    if ts == [] {
      NoneInNothing(k);
    } else {
      LevelReads(env, ts[1..], files[1..], k);
      assert files == [files[0]] + files[1..];
      ConcatAppend([files[0]], files[1..]);
      ConcatSnoc([], files[0]);
      assert [] + [files[0]] == [files[0]] && [] + files[0].entries == files[0].entries;
      FirstForAppend(files[0].entries, Concat(files[1..]), k);
    }
  }

  lemma {:induction false} LevelsRead(env: Env, tables: seq<seq<Table>>, levels: DbLevels, k: Bytes)
    requires forall n :: 0 <= n < |tables| ==> Searchable(tables[n], k)
    requires |tables| == |levels| && forall n :: 0 <= n < |tables| ==> Reads(env, tables[n], levels[n], k)
    ensures var r := Scan(LevelLayers(levels), k);
            FirstLevel(env, tables, k) == if r.Some? then Hit(r.value) else Miss
  {
    hide FirstAnswer, FirstFor, Concat, Reads;
    if levels != [] {
      LevelReads(env, tables[0], levels[0], k);
      LevelsRead(env, tables[1..], levels[1..], k);
      assert LevelLayers(levels)[0] == Disk(Concat(levels[0]));
      assert LevelLayers(levels)[1..] == LevelLayers(levels[1..]);
    } else {
      assert LevelLayers(levels) == [];
    }
  }

  /** What `get` answers when every table reads as its file's entries: the scan of the layers. */
  lemma GetScansLayers(env: Env, db: Db, tables: seq<seq<Table>>, k: Bytes)
    requires forall n :: 0 <= n < |tables| ==> Searchable(tables[n], k)
    requires |tables| == |db.levels| && forall n :: 0 <= n < |tables| ==> Reads(env, tables[n], db.levels[n], k)
    ensures var m, r := Scan([Mem(db.active)] + FrozenLayers(db.frozen), k), Scan(Layers(db), k);
            (if m.Some? then Hit(m.value) else FirstLevel(env, tables, k)) == if r.Some? then Hit(r.value) else Miss
  {
    hide Scan, FirstLevel, LevelLayers, FrozenLayers, Reads;
    LevelsRead(env, tables, db.levels, k);
    ScanAppend([Mem(db.active)] + FrozenLayers(db.frozen), LevelLayers(db.levels), k);
  }

  /** Tables opened from files that hold the levels' entries do. */
  lemma BackedReads(env: Env, disk: map<u32, Bytes>, files: Levels.Files, ts: seq<Table>, k: Bytes)
    requires |ts| == |files| && AllExact(files)
    requires forall i :: 0 <= i < |files| ==>
               && files[i].meta.fileId in disk && Holds(env, disk[files[i].meta.fileId], files[i].entries)
               && Open(env.crc, disk[files[i].meta.fileId]) == Opened(ts[i])
    ensures Reads(env, ts, files, k)
  {
    hide Holds, Open, SearchResult, FirstFor, Exact, Partitioned;
    forall i | 0 <= i < |ts|
      ensures ts[i].bloom.Sized() && Partitioned(ts[i].index, k)
      ensures SearchResult(env.crc, env.sip, ts[i], k) == Found(FirstFor(files[i].entries, k))
    {
      SortedFile(files[i]);
      var t := HoldsMeans(env, disk[files[i].meta.fileId], files[i].entries, k);
    }
  }

  // --- When the answer is the newest version ---

  predicate HoldsKey(es: seq<Entry>, k: Bytes) { exists e :: e in es && e.key.bytes == k }

  /** Every version of k in an upper layer is newer than every one in a lower layer. */
  ghost predicate OrderedFor(layers: seq<Layer>, k: Bytes) {
    forall i, j, x, y ::
      0 <= i < j < |layers| && x in layers[i].entries && y in layers[j].entries && x.key.bytes == k == y.key.bytes ==>
        x.key.lsn > y.key.lsn
  }

  /** The first entry a layer shows for k is the newest it has. */
  ghost predicate ShowsNewest(l: Layer, k: Bytes) {
    FirstFor(l.entries, k).Some? ==>
      forall x :: x in l.entries && x.key.bytes == k ==> x.key.lsn <= FirstFor(l.entries, k).value.key.lsn
  }

  /** e is the newest version of k anywhere. */
  ghost predicate IsNewest(layers: seq<Layer>, k: Bytes, e: Entry) {
    && e.key.bytes == k && (exists i :: 0 <= i < |layers| && e in layers[i].entries)
    && forall i, x :: 0 <= i < |layers| && x in layers[i].entries && x.key.bytes == k ==> x.key.lsn <= e.key.lsn
  }

  /** The topmost layer holding k. */
  function FirstHolder(layers: seq<Layer>, k: Bytes): (n: nat)
    ensures n <= |layers|
    ensures forall i :: 0 <= i < n ==> FirstFor(layers[i].entries, k).None?
    ensures n < |layers| ==> FirstFor(layers[n].entries, k).Some?
  {
    if layers == [] || FirstFor(layers[0].entries, k).Some? then 0 else 1 + FirstHolder(layers[1..], k)
  }

  lemma {:induction false} ScanFromHolder(layers: seq<Layer>, k: Bytes)
    ensures Scan(layers, k) == Scan(layers[FirstHolder(layers, k)..], k)
  {
    if layers != [] && FirstFor(layers[0].entries, k).None? {
      ScanFromHolder(layers[1..], k);
      assert layers[FirstHolder(layers, k)..] == layers[1..][FirstHolder(layers[1..], k)..];
    }
  }

  /** The topmost layer shows the newest version of all. */
  lemma TopmostIsNewest(layers: seq<Layer>, k: Bytes)
    requires OrderedFor(layers, k) && forall i :: 0 <= i < |layers| ==> ShowsNewest(layers[i], k)
    requires FirstHolder(layers, k) < |layers|
    ensures IsNewest(layers, k, FirstFor(layers[FirstHolder(layers, k)].entries, k).value)
  {
    hide FirstFor, FirstHolder;
    var n := FirstHolder(layers, k);
    var e := FirstFor(layers[n].entries, k).value;
    assert e in layers[n].entries;
    forall i, x | 0 <= i < |layers| && x in layers[i].entries && x.key.bytes == k ensures x.key.lsn <= e.key.lsn {
      HolderIsTopmost(layers, k, i, x);
    }
  }

  lemma HolderIsTopmost(layers: seq<Layer>, k: Bytes, i: nat, x: Entry)
    requires i < |layers| && x in layers[i].entries && x.key.bytes == k
    ensures FirstHolder(layers, k) <= i
  {}

  /** All the layer shows for k, if anything, is a deletion that lets older values through. */
  predicate Silent(l: Layer, k: Bytes) {
    FirstFor(l.entries, k).Some? ==> l.Mem? && FirstFor(l.entries, k).value.value.Tombstone?
  }

  /** No layer answers exactly when each holds nothing for k, or is a memtable whose newest version is a deletion. */
  lemma {:induction false} ScanIsSilentIff(layers: seq<Layer>, k: Bytes)
    ensures Scan(layers, k).None? <==> forall j :: 0 <= j < |layers| ==> Silent(layers[j], k)
  {
    hide FirstFor;
    if layers != [] {
      ScanIsSilentIff(layers[1..], k);
      assert forall j :: 0 <= j < |layers[1..]| ==> layers[1..][j] == layers[j + 1];
      assert forall j :: 0 < j < |layers| ==> layers[j] == layers[1..][j - 1];
    }
  }

  /** With layers ordered for k, `get` reads the newest version, a deletion reading as absent, exactly when
      that version is a live value, or was deleted in a memtable and every layer below either lacks k or is a
      memtable in which it was deleted too. (A table's tombstone is returned as a value; a memtable's lets an
      older value through.) */
  lemma GetReadsNewestIff(layers: seq<Layer>, k: Bytes, e: Entry)
    requires OrderedFor(layers, k) && forall i :: 0 <= i < |layers| ==> ShowsNewest(layers[i], k)
    requires FirstHolder(layers, k) < |layers| && FirstFor(layers[FirstHolder(layers, k)].entries, k) == Some(e)
    ensures IsNewest(layers, k, e)
    ensures var n := FirstHolder(layers, k);
            (Scan(layers, k) == Visible(Some(e)))
            <==> (!e.value.Tombstone? || (layers[n].Mem? && forall j :: n < j < |layers| ==> Silent(layers[j], k)))
  {
    hide FirstFor, FirstHolder, OrderedFor, ShowsNewest, IsNewest;
    TopmostIsNewest(layers, k);
    ScanFromHolder(layers, k);
    var n := FirstHolder(layers, k);
    var below := layers[n + 1..];
    assert layers[n..][0] == layers[n] && layers[n..][1..] == below;
    ScanIsSilentIff(below, k);
    assert forall j :: 0 <= j < |below| ==> below[j] == layers[n + 1 + j];
    assert forall j :: n < j < |layers| ==> layers[j] == below[j - n - 1];
  }

  lemma AbsentKey(layers: seq<Layer>, k: Bytes)
    requires forall i :: 0 <= i < |layers| ==> !HoldsKey(layers[i].entries, k)
    ensures Scan(layers, k).None?
  {
    ScanFromHolder(layers, k);
    NoHolder(layers, k);
  }

  lemma NoHolder(layers: seq<Layer>, k: Bytes)
    requires forall i :: 0 <= i < |layers| ==> !HoldsKey(layers[i].entries, k)
    ensures FirstHolder(layers, k) == |layers|
  {
    hide FirstHolder;
    var n := FirstHolder(layers, k);
    assert n < |layers| ==> HoldsKey(layers[n].entries, k);
  }

  // --- Within a layer ---

  lemma SortedShowsNewest(l: Layer, k: Bytes)
    requires Sorted(l.entries)
    ensures ShowsNewest(l, k)
  {
    FirstIsNewest(l.entries, k);
  }

  /** Below L0 the first file hit in list order holds the newest version: the whole level is one sorted run. */
  lemma {:induction false} OrderedLevelIsSorted(files: Levels.Files)
    requires AllExact(files) && Ordered(files)
    ensures StrictlySorted(Concat(files))
    ensures files != [] ==> Concat(files) != []
    ensures files != [] ==> Concat(files)[|Concat(files)| - 1].key == files[|files| - 1].meta.maxKey
  {
    if files != [] {
      var n := |files| - 1;
      var front, last := files[..n], files[n];
      OrderedLevelIsSorted(front);
      if n > 0 {
        assert Levels.Below(files[n - 1], files[n]);
      }
      StrictJoin(Concat(front), last.entries);
    }
  }

  lemma StrictJoin(a: seq<Entry>, b: seq<Entry>)
    requires StrictlySorted(a) && StrictlySorted(b)
    requires a != [] && b != [] ==> Keys.Less(a[|a| - 1].key, b[0].key)
    ensures StrictlySorted(a + b)
  {
    hide Keys.Less;
    var es := a + b;
    forall i, j | 0 <= i < j < |es| ensures Keys.Less(es[i].key, es[j].key) {
      if i < |a| <= j {
        var m, h := a[|a| - 1].key, b[0].key;
        if i < |a| - 1 { Keys.Transitive(es[i].key, m, h); }
        if j > |a| { Keys.Transitive(h, h, es[j].key); Keys.Transitive(es[i].key, h, es[j].key); }
      }
    }
  }

  lemma OrderedLevelShowsNewest(files: Levels.Files, k: Bytes)
    requires AllExact(files) && Ordered(files)
    ensures ShowsNewest(Disk(Concat(files)), k)
  {
    hide Exact, Levels.Below, Concat;
    OrderedLevelIsSorted(files);
    StrictIsSorted(Concat(files));
    SortedShowsNewest(Disk(Concat(files)), k);
  }

  /** L0 in flush order: versions of k in later files are newer. */
  ghost predicate FlushOrder(files: Levels.Files, k: Bytes) {
    forall i, j, x, y ::
      0 <= i < j < |files| && x in files[i].entries && y in files[j].entries && x.key.bytes == k == y.key.bytes ==>
        x.key.lsn < y.key.lsn
  }

  lemma {:induction false} FirstOfConcat(files: Levels.Files, k: Bytes) returns (i: nat)
    requires FirstFor(Concat(files), k).Some?
    ensures i < |files| && FirstFor(files[i].entries, k) == FirstFor(Concat(files), k)
    ensures forall j :: 0 <= j < i ==> FirstFor(files[j].entries, k).None?
  {
    hide FirstFor;
    var n := |files| - 1;
    assert files != [] by { if files == [] { ConcatNone(); NoneInNothing(k); } }
    FirstForAppend(Concat(files[..n]), files[n].entries, k);
    if FirstFor(Concat(files[..n]), k).Some? {
      i := FirstOfConcat(files[..n], k);
    } else {
      i := n;
      forall j | 0 <= j < n ensures FirstFor(files[j].entries, k).None? {
        forall e | e in files[j].entries ensures e.key.bytes != k {
          InConcat(files[..n], j, e);
        }
      }
    }
  }

  lemma NoneInNothing(k: Bytes)
    ensures FirstFor([], k).None?
  {}

  lemma {:induction false} InConcat(files: Levels.Files, j: nat, e: Entry)
    requires j < |files| && e in files[j].entries
    ensures e in Concat(files)
  {
    if j < |files| - 1 {
      InConcat(files[..|files| - 1], j, e);
    }
  }

  predicate OneHolder(files: Levels.Files, k: Bytes) {
    forall i, j :: 0 <= i < j < |files| ==> !(HoldsKey(files[i].entries, k) && HoldsKey(files[j].entries, k))
  }

  /** L0 is read oldest file first, so it shows the newest version of k exactly when at most one of its
      files holds k. */
  lemma L0ShowsNewestIff(files: Levels.Files, k: Bytes)
    requires FlushOrder(files, k) && forall i :: 0 <= i < |files| ==> Sorted(files[i].entries)
    ensures ShowsNewest(Disk(Concat(files)), k) <==> OneHolder(files, k)
  {
    hide FirstFor, Sorted, FlushOrder, ShowsNewest, OneHolder;
    if FirstFor(Concat(files), k).Some? {
      var n := FirstOfConcat(files, k);
      if OneHolder(files, k) {
        OnlyHolderShows(files, k, n);
      } else {
        OlderShows(files, k, n);
      }
    } else {
      NothingHeld(files, k);
    }
  }

  lemma NothingHeld(files: Levels.Files, k: Bytes)
    requires FirstFor(Concat(files), k).None?
    ensures ShowsNewest(Disk(Concat(files)), k) && OneHolder(files, k)
  {
    hide FirstFor, Concat;
    forall i | 0 <= i < |files| ensures !HoldsKey(files[i].entries, k) {
      forall x | x in files[i].entries ensures x.key.bytes != k {
        InConcat(files, i, x);
      }
    }
  }

  lemma OlderShows(files: Levels.Files, k: Bytes, n: nat)
    requires FlushOrder(files, k) && !OneHolder(files, k)
    requires n < |files| && FirstFor(files[n].entries, k).Some?
    requires FirstFor(Concat(files), k) == FirstFor(files[n].entries, k)
    requires forall j :: 0 <= j < n ==> FirstFor(files[j].entries, k).None?
    ensures !ShowsNewest(Disk(Concat(files)), k)
  {
    hide FirstFor, Concat, FlushOrder, HoldsKey;
    var i, j :| 0 <= i < j < |files| && HoldsKey(files[i].entries, k) && HoldsKey(files[j].entries, k);
    NotBefore(files, k, n, i);
    var e := FirstFor(files[n].entries, k).value;
    var y := NewerVersion(files, k, n, j, e);
    InConcat(files, j, y);
  }

  lemma NotBefore(files: Levels.Files, k: Bytes, n: nat, i: nat)
    requires i < |files| && HoldsKey(files[i].entries, k)
    requires forall j :: 0 <= j < n ==> j < |files| && FirstFor(files[j].entries, k).None?
    ensures n <= i
  {
    hide FirstFor;
    var x :| x in files[i].entries && x.key.bytes == k;
  }

  lemma NewerVersion(files: Levels.Files, k: Bytes, n: nat, j: nat, e: Entry) returns (y: Entry)
    requires FlushOrder(files, k) && n < j < |files| && e in files[n].entries && e.key.bytes == k
    requires HoldsKey(files[j].entries, k)
    ensures y in files[j].entries && y.key.bytes == k && e.key.lsn < y.key.lsn
  {
    y :| y in files[j].entries && y.key.bytes == k;
  }

  lemma OnlyHolderShows(files: Levels.Files, k: Bytes, n: nat)
    requires n < |files| && FirstFor(files[n].entries, k).Some?
    requires FirstFor(Concat(files), k) == FirstFor(files[n].entries, k)
    requires Sorted(files[n].entries)
    requires OneHolder(files, k)
    ensures ShowsNewest(Disk(Concat(files)), k)
  {
    hide FirstFor, Sorted;
    var e := FirstFor(files[n].entries, k).value;
    assert e in files[n].entries && HoldsKey(files[n].entries, k);
    FirstIsNewest(files[n].entries, k);
    forall x | x in Concat(files) && x.key.bytes == k ensures x.key.lsn <= e.key.lsn {
      var i := HolderOf(files, x);
      assert HoldsKey(files[i].entries, k);
    }
  }

  lemma {:induction false} HolderOf(files: Levels.Files, x: Entry) returns (i: nat)
    requires x in Concat(files)
    ensures i < |files| && x in files[i].entries
  {
    var n := |files| - 1;
    if x in files[n].entries {
      i := n;
    } else {
      i := HolderOf(files[..n], x);
    }
  }

  // --- The whole database ---

  /** Memtables sorted, levels well formed, L0 holding k in one file at most, upper layers newer for k. */
  ghost predicate Ready(db: Db, k: Bytes) {
    && StrictlySorted(db.active) && (forall i :: 0 <= i < |db.frozen| ==> StrictlySorted(db.frozen[i]))
    && WellFormed(db.levels) && OneHolder(LevelAt(db.levels, 0), k)
    && OrderedFor(Layers(db), k)
  }

  lemma L0Shows(files: Levels.Files, k: Bytes)
    requires AllExact(files) && OneHolder(files, k)
    ensures ShowsNewest(Disk(Concat(files)), k)
  {
    hide FirstFor, OneHolder, Exact, ShowsNewest;
    if FirstFor(Concat(files), k).Some? {
      var n := FirstOfConcat(files, k);
      SortedFile(files[n]);
      OnlyHolderShows(files, k, n);
    } else {
      NothingHeld(files, k);
    }
  }

  lemma LayersShowNewest(db: Db, k: Bytes, i: nat)
    requires Ready(db, k) && i < |Layers(db)|
    ensures ShowsNewest(Layers(db)[i], k)
  {
    hide FirstFor, StrictlySorted, Concat, OneHolder, OrderedFor, ShowsNewest, AllExact, Ordered;
    if i == 0 {
      StrictIsSorted(db.active);
      SortedShowsNewest(Layers(db)[0], k);
    } else if i <= |db.frozen| {
      StrictIsSorted(db.frozen[|db.frozen| - i]);
      SortedShowsNewest(Layers(db)[i], k);
    } else {
      var m := i - 1 - |db.frozen|;
      assert LevelOk(LevelAt(db.levels, m), m);
      if m == 0 {
        L0Shows(db.levels[0], k);
      } else {
        OrderedLevelShowsNewest(db.levels[m], k);
      }
    }
  }

  /** `get` on such a database: with e the newest version of k anywhere, it answers e's value, or absent for a
      deletion, exactly when e is live, or deleted in a memtable and every layer below lacks k or deletes it too. */
  lemma DbReadsNewestIff(db: Db, k: Bytes, e: Entry)
    requires Ready(db, k) && FirstHolder(Layers(db), k) < |Layers(db)|
    requires FirstFor(Layers(db)[FirstHolder(Layers(db), k)].entries, k) == Some(e)
    ensures IsNewest(Layers(db), k, e)
    ensures var n := FirstHolder(Layers(db), k);
            (Scan(Layers(db), k) == Visible(Some(e)))
            <==> (!e.value.Tombstone?
                  || (Layers(db)[n].Mem? && forall j :: n < j < |Layers(db)| ==> Silent(Layers(db)[j], k)))
  {
    hide FirstFor, FirstHolder, Layers, ShowsNewest, IsNewest, Scan, Silent;
    forall i | 0 <= i < |Layers(db)| ensures ShowsNewest(Layers(db)[i], k) {
      LayersShowNewest(db, k, i);
    }
    GetReadsNewestIff(Layers(db), k, e);
  }
}
