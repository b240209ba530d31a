/** Flushing frozen memtables to L0: one table each, under ids of which only the first is reserved. */
module Flushing {
  import opened Codec
  import opened Entries
  import opened Memtables
  import opened Manifests
  import opened SstableFormat
  import opened SstableWriters
  import opened SstableReaders
  import opened Tables
  import opened Splitters
  import opened Levels
  import opened Compaction
  import opened Compactor
  import Keys

  /** The outcome of flushing these memtables: a described table each, oldest first, and one id taken. */
  ghost predicate FlushOf(env: Env, disk: map<u32, Bytes>, nextId: nat, mems: seq<seq<Entry>>,
                          disk': map<u32, Bytes>, nextId': nat, out: Levels.Files)
  {
    && |out| == |mems| && nextId + |mems| <= 0x1_0000_0000 && nextId' == nextId + 1
    && (forall i :: 0 <= i < |mems| ==>
          && out[i].entries == mems[i] && out[i].meta.fileId == nextId + i && out[i].meta.fileId in disk'
          && out[i].meta == MetaOf(nextId + i, |disk'[out[i].meta.fileId]|, mems[i])
          && TableOf(env, disk'[out[i].meta.fileId], mems[i]))
    && forall id :: id in disk && !(nextId <= id < nextId + |mems|) ==> id in disk' && disk'[id] == disk[id]
  }

  /** Writes every memtable to its own table and opens it again before anything is committed. */
  method FlushMemtables(env: Env, disk: map<u32, Bytes>, nextId: nat, mems: seq<seq<Entry>>)
    returns (ok: bool, disk': map<u32, Bytes>, nextId': nat, out: Levels.Files)
    requires env.Valid() && mems != []
    ensures ok ==> FlushOf(env, disk, nextId, mems, disk', nextId', out)
    ensures ok ==> forall i :: 0 <= i < |out| ==> Open(env.crc, disk'[out[i].meta.fileId]).Opened?
    ensures !ok ==> forall id :: id in disk && !(nextId <= id < nextId + |mems|) ==>
              id in disk' && disk'[id] == disk[id]
    ensures !ok && Flushable(mems) ==> nextId + |mems| > 0x1_0000_0000
  {
    hide TableOf, MetaOf, Open, StrictlySorted, Modest;
    disk', nextId', out, ok := disk, nextId + 1, [], false;
    if nextId + |mems| > 0x1_0000_0000 { return; }
    for i := 0 to |mems|
      invariant |out| == i
      invariant forall j :: 0 <= j < i ==>
        && out[j].entries == mems[j] && out[j].meta.fileId == nextId + j && out[j].meta.fileId in disk'
        && out[j].meta == MetaOf(nextId + j, |disk'[out[j].meta.fileId]|, mems[j])
        && TableOf(env, disk'[out[j].meta.fileId], mems[j])
      invariant forall id :: id in disk && !(nextId <= id < nextId + i) ==> id in disk' && disk'[id] == disk[id]
    {
      var file, meta := WriteTable(env, mems[i]);
      MetaWithId(nextId + i, |file|, mems[i]);
      disk' := disk'[nextId + i := file];
      out := out + [Sst(meta.(fileId := nextId + i), mems[i])];
    }
    for i := 0 to |out|
      invariant forall j :: 0 <= j < i ==> Open(env.crc, disk'[out[j].meta.fileId]).Opened?
    {
      if Flushable(mems) { FlushedOpens(env, disk'[out[i].meta.fileId], mems[i]); }
      if !Open(env.crc, disk'[out[i].meta.fileId]).Opened? { return; }
    }
    ok := true;
  }

  lemma FlushedOpens(env: Env, file: Bytes, es: seq<Entry>)
    requires env.Valid() && TableOf(env, file, es) && es != [] && StrictlySorted(es) && Modest(es)
    ensures Open(env.crc, file).Opened?
  {
    hide TableOf, StrictlySorted, Modest, Open, Holds;
    FlushedHolds(env, file, es);
    StrictIsSorted(es);
    var t := HoldsMeans(env, file, es, []);
  }

  lemma MetaWithId(id: u32, size: nat, es: seq<Entry>)
    ensures MetaOf(0, size, es).(fileId := id) == MetaOf(id, size, es)
  {}

  /** A flushed table answers every lookup with the newest of the writes its memtable was built from. */
  lemma FlushedLookup(env: Env, file: Bytes, log: seq<Entry>, k: Bytes) returns (t: Table)
    requires Holds(env, file, InsertAll([], log))
    ensures Open(env.crc, file) == Opened(t) && t.bloom.Sized() && Partitioned(t.index, k)
    ensures SearchResult(env.crc, env.sip, t, k) == Found(Newest(log, k))
  {
    hide Holds, Open, SearchResult, InsertAll, Newest, Partitioned;
    StrictIsSorted(InsertAll([], log));
    t := HoldsMeans(env, file, InsertAll([], log), k);
    FirstIsNewestWrite(log, k);
  }

  lemma StrictIsSorted(es: seq<Entry>)
    requires StrictlySorted(es)
    ensures Sorted(es)
  {
    hide Keys.Less;
  }

  /** What frozen memtables are: sorted, not empty, and not absurdly large. */
  predicate Flushable(mems: seq<seq<Entry>>) {
    forall i :: 0 <= i < |mems| ==> mems[i] != [] && StrictlySorted(mems[i]) && Modest(mems[i])
  }

  /** The flushed files are exact, and their ids lie below the next one exactly when one memtable was
      flushed: only one id is reserved, however many are used. */
  lemma FlushKeepsIdsFreshIffOne(env: Env, disk: map<u32, Bytes>, nextId: nat, mems: seq<seq<Entry>>,
                                 disk': map<u32, Bytes>, nextId': nat, out: Levels.Files)
    requires FlushOf(env, disk, nextId, mems, disk', nextId', out) && mems != []
    requires Flushable(mems)
    ensures AllExact(out) && DistinctIds(out)
    ensures (forall f :: f in out ==> f.meta.fileId < nextId') <==> |mems| == 1
    ensures |mems| > 1 ==> out[1].meta.fileId == nextId'
  {
    hide TableOf, StrictlySorted, Modest;
    if |mems| > 1 {
      assert out[1] in out;
    }
  }

  /** A second flush of m memtables reuses ids of the first, of n: it replaces the tables of its second, third
      and further memtables, as many as it has itself, and leaves the others. */
  lemma SecondFlushOverwrites(env: Env, disk: map<u32, Bytes>, nextId: nat, mems1: seq<seq<Entry>>,
                              mems2: seq<seq<Entry>>,
                              disk1: map<u32, Bytes>, next1: nat, out1: Levels.Files,
                              disk2: map<u32, Bytes>, next2: nat, out2: Levels.Files, j: nat)
    requires FlushOf(env, disk, nextId, mems1, disk1, next1, out1)
             && FlushOf(env, disk1, next1, mems2, disk2, next2, out2)
    requires j < |mems1| && Flushable(mems1) && Flushable(mems2) && env.Valid()
    ensures 1 <= j <= |mems2| ==>
              out1[j].meta.fileId == out2[j - 1].meta.fileId && TableOf(env, disk2[out1[j].meta.fileId], mems2[j - 1])
    ensures FileOk(env, disk2, out1[j]) <==> (j == 0 || j > |mems2| || mems1[j] == mems2[j - 1])
  {
    hide TableOf, StrictlySorted, Modest, Holds;
    var f := out1[j];
    FlushedHolds(env, disk1[f.meta.fileId], mems1[j]);
    if 1 <= j <= |mems2| {
      assert out2[j - 1].meta.fileId == f.meta.fileId;
      FlushedHolds(env, disk2[f.meta.fileId], mems2[j - 1]);
      StrictIsSorted(mems1[j]);
      StrictIsSorted(mems2[j - 1]);
      if mems1[j] == mems2[j - 1] { SameLength(env, disk1[f.meta.fileId], disk2[f.meta.fileId], mems1[j]); }
      if FileOk(env, disk2, f) {
        HoldsOne(env, disk2[f.meta.fileId], mems1[j], mems2[j - 1]);
      }
    }
  }

  /** `levels[0].files.push`, creating L0 if there is none. */
  function WithL0(levels: DbLevels, out: Levels.Files): DbLevels {
    if levels == [] then [out] else levels[0 := levels[0] + out]
  }

  lemma WithL0Levels(levels: DbLevels, out: Levels.Files)
    ensures LevelAt(WithL0(levels, out), 0) == LevelAt(levels, 0) + out
    ensures forall m: nat :: m > 0 ==> LevelAt(WithL0(levels, out), m) == LevelAt(levels, m)
  {}

  lemma FlushedBacked(env: Env, disk: map<u32, Bytes>, nextId: nat, mems: seq<seq<Entry>>,
                      disk': map<u32, Bytes>, nextId': nat, out: Levels.Files)
    requires env.Valid() && FlushOf(env, disk, nextId, mems, disk', nextId', out) && Flushable(mems)
    ensures Backed(env, disk', out) && AllExact(out) && Numbered(out, nextId, nextId + |mems|)
    ensures OnlyNew(disk, disk', nextId, nextId + |mems|)
  {
    hide TableOf, StrictlySorted, Modest, Holds;
    forall f | f in out ensures FileOk(env, disk', f) {
      var i :| 0 <= i < |out| && out[i] == f;
      FlushedHolds(env, disk'[f.meta.fileId], mems[i]);
    }
  }

  lemma L0Backed(env: Env, disk: map<u32, Bytes>, levels: DbLevels, out: Levels.Files)
    requires AllBacked(env, disk, levels) && Backed(env, disk, out)
    ensures AllBacked(env, disk, WithL0(levels, out))
  {
    hide FileOk, LevelAt;
    WithL0Levels(levels, out);
    forall m: nat ensures Backed(env, disk, LevelAt(WithL0(levels, out), m)) {
      assert Backed(env, disk, LevelAt(levels, m));
    }
  }

  lemma L0WellFormed(levels: DbLevels, out: Levels.Files, first: nat, next: nat)
    requires WellFormed(levels) && AllExact(out) && Numbered(out, first, next)
             && NoneIn(LevelAt(levels, 0), first, next)
    ensures WellFormed(WithL0(levels, out))
  {
    hide LevelAt, Exact;
    WithL0Levels(levels, out);
    forall m: nat ensures LevelOk(LevelAt(WithL0(levels, out), m), m) {
      assert LevelOk(LevelAt(levels, m), m);
      if m == 0 {
        JoinDistinct(LevelAt(levels, 0), out, first, next);
      }
    }
  }

  lemma JoinDistinct(files: Levels.Files, out: Levels.Files, first: nat, next: nat)
    requires DistinctIds(files) && Numbered(out, first, next) && NoneIn(files, first, next)
    ensures DistinctIds(files + out)
  {
    var all := files + out;
    forall i, j | 0 <= i < j < |all| ensures all[i].meta.fileId != all[j].meta.fileId {
      if i < |files| <= j {
        assert files[i] in files;
      }
    }
  }

  /** L0 gains exactly the flushed entries. */
  lemma L0Total(levels: DbLevels, out: Levels.Files)
    ensures Total(WithL0(levels, out)) == Total(levels) + Bag(out)
  {
    hide Bag, LevelAt;
    WithL0Levels(levels, out);
    BagAppend(LevelAt(levels, 0), out);
    var k := if levels == [] then 1 else |levels|;
    TotalUpTo(levels, k);
    PartGains(levels, WithL0(levels, out), Bag(out), k);
  }

  lemma {:induction false} PartGains(a: DbLevels, b: DbLevels, m: multiset<Entry>, k: nat)
    requires k > 0 && Bag(LevelAt(b, 0)) == Bag(LevelAt(a, 0)) + m
    requires forall i: nat :: i > 0 ==> LevelAt(b, i) == LevelAt(a, i)
    ensures Part(b, k) == Part(a, k) + m
  {
    hide Bag, LevelAt;
    if k > 1 {
      PartGains(a, b, m, k - 1);
      assert Part(b, k) == Part(b, k - 1) + Bag(LevelAt(b, k - 1));
      assert Part(a, k) == Part(a, k - 1) + Bag(LevelAt(a, k - 1));
    } else {
      assert Part(b, 1) == Part(b, 0) + Bag(LevelAt(b, 0));
      assert Part(a, 1) == Part(a, 0) + Bag(LevelAt(a, 0));
    }
  }

  lemma FlushedSmall(mems: seq<seq<Entry>>, out: Levels.Files, e: Entry)
    requires |out| == |mems| && forall i :: 0 <= i < |out| ==> out[i].entries == mems[i]
    requires Flushable(mems) && e in Bag(out)
    ensures Small(e)
  {
    hide StrictlySorted, Modest, Small, Bag;
    InBag(out, e);
    var f :| f in out && e in f.entries;
    var i :| 0 <= i < |out| && out[i] == f;
    ModestIsSmall(mems[i]);
  }

  /** A flush of any number of memtables: nothing is lost and exactly their entries are added; levels and disk
      agree afterwards exactly when no live file's id was among those used. */
  lemma FlushIsSoundIff(env: Env, disk: map<u32, Bytes>, nextId: nat, levels: DbLevels, mems: seq<seq<Entry>>,
                        disk': map<u32, Bytes>, nextId': nat, out: Levels.Files)
    requires Sound(env, disk, levels) && FlushOf(env, disk, nextId, mems, disk', nextId', out) && Flushable(mems)
    requires UniqueKeys(Total(levels) + Bag(out))
    ensures Total(WithL0(levels, out)) == Total(levels) + Bag(out)
    ensures AllBacked(env, disk', WithL0(levels, out)) <==> NoLiveIn(levels, nextId, nextId + |mems|)
    ensures Sound(env, disk', WithL0(levels, out)) <==> NoLiveIn(levels, nextId, nextId + |mems|)
  {
    hide UniqueKeys, Total, Bag, TableOf, Small, WellFormed, AllBacked, LevelAt, WithL0, Flushable, NoLiveIn;
    FlushedBacked(env, disk, nextId, mems, disk', nextId', out);
    L0Total(levels, out);
    var next := nextId + |mems|;
    if NoLiveIn(levels, nextId, next) {
      AllBackedStays(env, disk, disk', nextId, next, levels);
      L0Backed(env, disk', levels, out);
      L0WellFormed(levels, out, nextId, next) by { NoneAt(levels, 0, nextId, next); }
      forall e | e in Total(levels) + Bag(out) ensures Small(e) {
        if e !in Total(levels) { FlushedSmall(mems, out, e); }
      }
    } else {
      FlushCollision(env, disk', levels, out, nextId, next);
    }
  }

  lemma NoneAt(levels: DbLevels, m: nat, first: nat, next: nat)
    requires NoLiveIn(levels, first, next)
    ensures NoneIn(LevelAt(levels, m), first, next)
  {}

  /** A live file whose id a flush used is lost. */
  lemma FlushCollision(env: Env, disk: map<u32, Bytes>, levels: DbLevels, out: Levels.Files, first: nat, next: nat)
    requires WellFormed(levels) && UniqueKeys(Total(levels) + Bag(out)) && !NoLiveIn(levels, first, next)
    requires Backed(env, disk, out) && AllExact(out) && Numbered(out, first, next)
    ensures !AllBacked(env, disk, WithL0(levels, out))
  {
    hide Total, Bag, UniqueKeys, Holds, StrictlySorted, LevelAt, WithL0;
    var m: nat :| !NoneIn(LevelAt(levels, m), first, next);
    var f :| f in LevelAt(levels, m) && first <= f.meta.fileId < next;
    var g := out[f.meta.fileId - first];
    assert g in out && FileOk(env, disk, g);
    assert LevelOk(LevelAt(levels, m), m);
    ExactMember(LevelAt(levels, m), f);
    WithL0Levels(levels, out);
    assert f in LevelAt(WithL0(levels, out), m);
    if AllBacked(env, disk, WithL0(levels, out)) {
      assert Backed(env, disk, LevelAt(WithL0(levels, out), m));
      assert FileOk(env, disk, f);
      SortedFile(f);
      SortedFile(g);
      HoldsOne(env, disk[f.meta.fileId], f.entries, g.entries);
      var e := f.entries[0];
      MemberBag(LevelAt(levels, m), f, e);
      MemberBag(out, g, e);
      OneLevel(levels, m);
      TwiceIn(Total(levels), Bag(out), e);
    }
  }

  lemma TwiceIn(a: multiset<Entry>, b: multiset<Entry>, e: Entry)
    requires UniqueKeys(a + b) && e in a
    ensures e !in b
  {
    assert (a + b)[e] == a[e] + b[e];
  }

  /** After a flush from a fresh counter, every live id is below the ids used, and the counter itself is
      above them only if a single memtable was flushed. */
  lemma FlushCounterIff(env: Env, disk: map<u32, Bytes>, nextId: nat, levels: DbLevels, mems: seq<seq<Entry>>,
                        disk': map<u32, Bytes>, nextId': nat, out: Levels.Files)
    requires FlushOf(env, disk, nextId, mems, disk', nextId', out) && mems != [] && Flushable(mems)
             && IdsBelow(levels, nextId)
    ensures IdsBelow(WithL0(levels, out), nextId + |mems|)
    ensures IdsBelow(WithL0(levels, out), nextId') <==> |mems| == 1
  {
    hide TableOf, StrictlySorted, Modest, LevelAt, WithL0, Flushable;
    WithL0Levels(levels, out);
    forall m: nat, next: nat | nextId <= next ensures NoneIn(LevelAt(levels, m), next, 0x1_0000_0000) {
      NoneAt(levels, m, nextId, 0x1_0000_0000);
    }
    FlushKeepsIdsFreshIffOne(env, disk, nextId, mems, disk', nextId', out);
    if |mems| > 1 {
      assert out[1] in LevelAt(WithL0(levels, out), 0);
      assert !NoneIn(LevelAt(WithL0(levels, out), 0), nextId', 0x1_0000_0000);
    }
  }

  /** After a flush of two or more memtables, whatever is written next takes a live file's id: the condition
      under which a compaction or flush keeps levels and disk in agreement fails. */
  lemma NextWriteCollides(env: Env, disk: map<u32, Bytes>, nextId: nat, levels: DbLevels, mems: seq<seq<Entry>>,
                          disk': map<u32, Bytes>, nextId': nat, out: Levels.Files, used: nat)
    requires FlushOf(env, disk, nextId, mems, disk', nextId', out) && |mems| > 1 && used > 0
    ensures !NoLiveIn(WithL0(levels, out), nextId', nextId' + used)
  {
    hide TableOf, LevelAt, WithL0;
    WithL0Levels(levels, out);
    assert out[1] in LevelAt(WithL0(levels, out), 0);
    assert !NoneIn(LevelAt(WithL0(levels, out), 0), nextId', nextId' + used);
  }

  /** The first compaction of L0 after a flush of two or more memtables hands out the id of one of its own inputs:
      the table of the second memtable. */
  lemma CompactionReusesInput(env: Env, disk: map<u32, Bytes>, nextId: nat, levels: DbLevels, mems: seq<seq<Entry>>,
                              disk': map<u32, Bytes>, nextId': nat, out: Levels.Files, used: nat)
    requires FlushOf(env, disk, nextId, mems, disk', nextId', out) && |mems| > 1 && used > 0
    ensures var p := Pick(WithL0(levels, out), 0);
            && p.Plan? && out[1] in p.source && out[1].meta.fileId == nextId'
            && !NoneIn(p.source + p.target, nextId', nextId' + used)
  {
    hide TableOf, LeastMin, GreatestMax, Overlapping, LevelAt, WithL0;
    WithL0Levels(levels, out);
    assert LevelAt(WithL0(levels, out), 0) == LevelAt(levels, 0) + out;
    assert (LevelAt(levels, 0) + out)[|LevelAt(levels, 0)| + 1] == out[1];
  }

  /** And the ids are unsafe for it, so that it loses entries or fails, as soon as that table has two entries before
      its last block: its other blocks are still unread when the first output file truncates it. */
  lemma {:induction false} FirstCompactionIsUnsafe(env: Env, disk: map<u32, Bytes>, nextId: nat, levels: DbLevels,
                                                   mems: seq<seq<Entry>>, disk': map<u32, Bytes>, nextId': nat,
                                                   out: Levels.Files, m: seq<Entry>, target: nat)
    requires FlushOf(env, disk, nextId, mems, disk', nextId', out) && |mems| > 1
    requires StrictlySorted(mems[1]) && BeforeLast(mems[1]) >= 2
    requires var p := Pick(WithL0(levels, out), 0);
             Sorted(m) && (p.Plan? ==> multiset(m) == Bag(p.source) + Bag(p.target))
    ensures var p := Pick(WithL0(levels, out), 0);
            p.Plan? && !SafeIds(env.crc, p.source + p.target, m, nextId', target)
  {
    hide TableOf, Pick, Bag, WithL0, PiecesOf, BeforeLast;
    CompactionReusesInput(env, disk, nextId, levels, mems, disk', nextId', out, 1);
    var p, f := Pick(WithL0(levels, out), 0), out[1];
    assert f.entries == mems[1];
    BeforeLastWithin(mems[1]);
    var e, b := f.entries[0], BeforeLast(f.entries);
    MemberBag(p.source, f, e);
    assert e in multiset(m);
    FirstPiece(env.crc, m, target);
    var i :| 0 <= i < |m| && m[i] == e;
    Strictly(f.entries, b - 1, m, i);
    assert f in p.source + p.target;
  }

  lemma BeforeLastWithin(es: seq<Entry>)
    ensures BeforeLast(es) <= |es|
  {
    hide BlocksOf;
  }

  /** An entry after the first of a table is above whatever a merge puts out first. */
  lemma {:induction false} Strictly(es: seq<Entry>, b: nat, m: seq<Entry>, i: nat)
    requires StrictlySorted(es) && 0 < b < |es| && Sorted(m) && i < |m| && m[i] == es[0]
    ensures !Keys.Leq(es[b].key, m[0].key)
  {
    hide Keys.Less;
    assert Keys.Less(es[0].key, es[b].key);
    assert i > 0 ==> Keys.Leq(m[0].key, m[i].key);
    Keys.Transitive(m[0].key, es[0].key, es[b].key);
    Keys.Trichotomy(es[b].key, m[0].key);
  }

  lemma FirstPiece(crc: Crc, m: seq<Entry>, target: nat)
    requires m != []
    ensures var ps := PiecesOf(crc, m, target); ps != [] && ps[0] != [] && ps[0][0] == m[0]
  {
    hide PiecesOf;
    OnePiece(crc, m[0], target);
    assert [m[0]] == m[..1];
    PiecesExtend(crc, m[..1], m, target, 0);
  }

  lemma OnePiece(crc: Crc, e: Entry, target: nat)
    ensures PiecesOf(crc, [e], target) == [[e]]
  {
    ChopSnoc(crc, [], e, target);
    assert [] + [e] == [e];
  }
}
