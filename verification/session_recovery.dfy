/** A session's flushes against what a recovery finds: the files the session found, what its writes put into the WALs'
    files, and the tables its flushes write. */
module SessionRecovery {
  import opened Codec
  import opened Entries
  import opened Memtables
  import opened Manifests
  import opened Levels
  import opened Compaction
  import opened Flushing
  import opened Retention
  import opened WalFiles
  import Keys
  import Publication
  import P = WritePipeline
  import D = Durability
  import Theorems = PipelineTheorems

  /** The records in the log files: what the session found there, then what its WALs have put there. */
  function Logs(m: Manifest, found: map<u32, seq<Entry>>, wals: seq<seq<Entry>>): map<u32, seq<Entry>>
    requires Opened(m) && wals != []
  {
    var ids := SessionIds(m, |wals|);
    map w | w in found.Keys + {ids[0], m.nextWalId} :: Found(found, w) + Content(wals, ids, w)
  }

  function Found(found: map<u32, seq<Entry>>, w: u32): seq<Entry> { if w in found then found[w] else [] }

  /** The active WALs if nothing were flushed: those the manifest named, then one for each rotation. */
  function AllIds(m: Manifest, n: nat): (r: seq<u32>)
    requires Opened(m) && n > 0
    ensures |r| == |m.wals| + n - 1 && (forall i :: 0 <= i < |m.wals| ==> r[i] == m.wals[i])
    ensures forall i :: |m.wals| <= i < |r| ==> r[i] == m.nextWalId
  {
    Publication.RotateTimesAppends(m, n - 1);
    Publication.RotateTimes(m, n - 1).wals
  }

  /** The memtables if nothing were flushed: a recovered one for each WAL named, the last of which goes on to take the
      session's writes, then one for each rotation. */
  function MemOf(m: Manifest, found: map<u32, seq<Entry>>, mems: seq<seq<Entry>>, i: nat): seq<Entry>
    requires Opened(m) && mems != [] && i < |m.wals| + |mems| - 1
  {
    var base := |m.wals| - 1;
    if i < base then InsertAll([], Found(found, m.wals[i]))
    else if i == base then InsertAll([], Found(found, m.wals[i]) + mems[0])
    else InsertAll([], mems[i - base])
  }

  /** These are the k oldest memtables written out. */
  predicate Writes(m: Manifest, found: map<u32, seq<Entry>>, mems: seq<seq<Entry>>, k: nat, out: Levels.Files)
    requires Opened(m) && mems != []
  {
    |out| == k < |m.wals| + |mems| && forall i :: 0 <= i < k ==> out[i].entries == MemOf(m, found, mems, i)
  }

  /** What a session begins with: LSNs increase in each file, and all are below the session's first. */
  ghost predicate Finds(m: Manifest, found: map<u32, seq<Entry>>, levels: DbLevels, first: nat) {
    && Opened(m) && (forall w :: w in m.wals ==> w in found)
    && (forall w :: w in found ==> LsnsIncrease(found[w]) && forall e :: e in found[w] ==> e.key.lsn < first)
    && forall e :: e in Total(levels) ==> e.key.lsn < first
  }

  /** The session's own LSNs increase from its first. */
  ghost predicate Begins(m: Manifest, found: map<u32, seq<Entry>>, levels: DbLevels, log: seq<Entry>, first: nat) {
    Finds(m, found, levels, first) && LsnsIncrease(log) && forall e :: e in log ==> e.key.lsn >= first
  }

  /** How many of the k are memtables that took writes of the session. */
  function Later(m: Manifest, k: nat): nat { if k >= |m.wals| > 0 then k - (|m.wals| - 1) else 0 }

  // --- What the files and the tables hold ---

  lemma LogsAt(m: Manifest, found: map<u32, seq<Entry>>, wals: seq<seq<Entry>>, w: u32)
    requires Opened(m) && wals != []
    ensures w in Logs(m, found, wals) <==> w in found || w == m.wals[|m.wals| - 1] || w == m.nextWalId
    ensures w == m.wals[|m.wals| - 1] ==> Logs(m, found, wals)[w] == Found(found, w) + wals[0]
    ensures w == m.nextWalId ==> Logs(m, found, wals)[w] == Found(found, w) + P.Flatten(wals[1..])
    ensures w in found && w != m.wals[|m.wals| - 1] && w != m.nextWalId ==> Logs(m, found, wals)[w] == found[w]
  {
    hide P.Flatten;
    var ids := SessionIds(m, |wals|);
    assert ids[0] in m.wals;
    if w == ids[0] {
      ContentShared(wals, ids, 0);
    } else if w == m.nextWalId && |wals| > 1 {
      ContentShared(wals, ids, 1);
    } else {
      ContentNone(wals, ids, w);
      if w == m.nextWalId { assert P.Flatten(wals[1..]) == [] by { NoneLeft(wals[1..]); } }
    }
  }

  lemma AppendIncreases(a: seq<Entry>, b: seq<Entry>, first: nat)
    requires LsnsIncrease(a) && LsnsIncrease(b)
    requires (forall e :: e in a ==> e.key.lsn < first) && forall e :: e in b ==> e.key.lsn >= first
    ensures LsnsIncrease(a + b)
  {
    forall i, j | 0 <= i < j < |a + b| ensures (a + b)[i].key.lsn < (a + b)[j].key.lsn {
      assert i < |a| ==> a[i] in a;
      assert j >= |a| ==> b[j - |a|] in b;
    }
  }

  /** Each memtable holds exactly the records it took. */
  lemma MemHolds(m: Manifest, found: map<u32, seq<Entry>>, levels: DbLevels, wals: seq<seq<Entry>>,
                 mems: seq<seq<Entry>>, log: seq<Entry>, first: nat, i: nat, e: Entry)
    requires Begins(m, found, levels, log, first) && WalFiles.Split(wals, mems, log) && i < |m.wals| + |mems| - 1
    ensures e in MemOf(m, found, mems, i)
            <==> (i < |m.wals| && e in Found(found, m.wals[i])) || (i >= |m.wals| - 1 && e in mems[i - (|m.wals| - 1)])
  {
    hide P.Flatten, InsertAll, Total;
    var base := |m.wals| - 1;
    if i >= base { PieceIncreases(mems, log, i - base); }
    if i < base {
      assert m.wals[i] in m.wals;
      HoldsTheLog(Found(found, m.wals[i]));
    } else if i == base {
      assert m.wals[i] in m.wals;
      forall x | x in mems[0] ensures x.key.lsn >= first { PieceInLog(mems, log, 0, x); }
      AppendIncreases(Found(found, m.wals[i]), mems[0], first);
      HoldsTheLog(Found(found, m.wals[i]) + mems[0]);
    } else {
      HoldsTheLog(mems[i - base]);
    }
  }

  lemma PieceInLog(parts: seq<seq<Entry>>, log: seq<Entry>, f: nat, x: Entry)
    requires P.Flatten(parts) <= log && f < |parts| && x in parts[f]
    ensures x in log
  {
    hide P.Flatten;
    InFlatten(parts, x);
  }

  lemma PieceIncreases(parts: seq<seq<Entry>>, log: seq<Entry>, f: nat)
    requires P.Flatten(parts) <= log && LsnsIncrease(log) && f < |parts|
    ensures LsnsIncrease(parts[f])
  {
    hide P.Flatten;
    var at := D.Stretch(parts, f);
    assert parts[f] == log[at..at + |parts[f]|];
  }

  /** What the flush writes: the recovered records of the first WALs, and the session's in the memtables flushed. */
  lemma WrittenOut(m: Manifest, found: map<u32, seq<Entry>>, levels: DbLevels, wals: seq<seq<Entry>>,
                   mems: seq<seq<Entry>>, log: seq<Entry>, first: nat, k: nat, out: Levels.Files, e: Entry)
    requires Begins(m, found, levels, log, first) && WalFiles.Split(wals, mems, log) && Writes(m, found, mems, k, out)
    ensures e in Bag(out)
            <==> || (exists i :: 0 <= i < k && i < |m.wals| && e in Found(found, m.wals[i]))
                 || InFlushed(mems, Later(m, k), e)
  {
    hide Bag, MemOf, WalFiles.Split, Begins;
    BeginsOpened(m, found, levels, log, first);
    var base := |m.wals| - 1;
    InBag(out, e);
    forall i | 0 <= i < k
      ensures e in out[i].entries
              <==> (i < |m.wals| && e in Found(found, m.wals[i])) || (i >= base && e in mems[i - base])
    {
      MemHolds(m, found, levels, wals, mems, log, first, i, e);
    }
    if e in Bag(out) {
      var f :| f in out && e in f.entries;
      var i :| 0 <= i < k && out[i] == f;
      assert i >= base && e in mems[i - base] ==> InFlushed(mems, Later(m, k), e);
    } else {
      forall i | 0 <= i < k ensures e !in out[i].entries { assert out[i] in out; }
      forall f | 0 <= f < Later(m, k) && f < |mems| ensures e !in mems[f] { assert e !in out[f + base].entries; }
    }
  }

  lemma BeginsOpened(m: Manifest, found: map<u32, seq<Entry>>, levels: DbLevels, log: seq<Entry>, first: nat)
    requires Begins(m, found, levels, log, first)
    ensures Opened(m) && forall w :: w in m.wals ==> w in found
  {}

  /** A record of the session is in its first WAL's file, or in the file of all others. */
  lemma RecordIn(wals: seq<seq<Entry>>, mems: seq<seq<Entry>>, log: seq<Entry>, x: nat)
    requires WalFiles.Split(wals, mems, log) && x < |log|
    ensures log[x] in wals[0] <==> x < |wals[0]|
    ensures log[x] in P.Flatten(wals[1..]) <==> |wals[0]| <= x < |P.Flatten(wals)|
  {
    hide P.Flatten;
    FlattenCons(wals);
    var a, b := |wals[0]|, |P.Flatten(wals)|;
    assert wals[0] == log[..a] && P.Flatten(wals[1..]) == log[a..b];
    InPrefixIff(log, a, x);
    InSuffixIff(log, a, b, x);
  }

  /** While its first WAL is named, every record of the session is in a file that is. */
  lemma RecordNamed(m: Manifest, found: map<u32, seq<Entry>>, wals: seq<seq<Entry>>, mems: seq<seq<Entry>>,
                    log: seq<Entry>, k: nat, x: nat)
    requires Opened(m) && WalFiles.Split(wals, mems, log) && k < |m.wals| && x < |P.Flatten(wals)|
    ensures x < |log| && log[x] in Logged(Logs(m, found, wals), AllIds(m, |wals|)[k..])
  {
    hide P.Flatten, Logged, Logs;
    RecordIn(wals, mems, log, x);
    var ids, base := AllIds(m, |wals|), |m.wals| - 1;
    LoggedIn(Logs(m, found, wals), ids[k..], log[x]);
    if x < |wals[0]| {
      LogsAt(m, found, wals, m.wals[base]);
      assert ids[k..][base - k] == m.wals[base];
    } else {
      LogsAt(m, found, wals, m.nextWalId);
      if |wals| == 1 { assert wals[1..] == []; NoneLeft(wals[1..]); }
      assert ids[k..][|ids| - 1 - k] == m.nextWalId;
    }
  }

  /** Once only rotated WALs are named, what is logged is what their one file holds. */
  lemma LoggedLater(m: Manifest, found: map<u32, seq<Entry>>, wals: seq<seq<Entry>>, k: nat, e: Entry)
    requires Opened(m) && wals != [] && |m.wals| <= k < |m.wals| + |wals| - 1
    ensures e in Logged(Logs(m, found, wals), AllIds(m, |wals|)[k..])
            <==> e in Found(found, m.nextWalId) || e in P.Flatten(wals[1..])
  {
    hide P.Flatten, Logged, Logs;
    var ids := AllIds(m, |wals|);
    LoggedIn(Logs(m, found, wals), ids[k..], e);
    LogsAt(m, found, wals, m.nextWalId);
    assert ids[k..][0] == m.nextWalId;
  }

  lemma RecoveredIn(logs: map<u32, seq<Entry>>, wals: seq<u32>, levels: DbLevels, out: Levels.Files, e: Entry)
    ensures e in Recovered(logs, wals, WithL0(levels, out))
            <==> e in Logged(logs, wals) || e in Total(levels) || e in Bag(out)
  {
    hide Total, Bag, WithL0, Logged;
    L0Total(levels, out);
  }

  lemma OwnRecord(m: Manifest, found: map<u32, seq<Entry>>, levels: DbLevels, log: seq<Entry>, first: nat, x: nat)
    requires Begins(m, found, levels, log, first) && x < |log|
    ensures (forall w :: log[x] !in Found(found, w)) && log[x] !in Total(levels)
  {
    hide Total;
    assert log[x] in log;
  }

  /** After a flush of the k oldest memtables a record that the session wrote is recovered exactly when the flush left
      the session's first memtable alone, or the record is in the memtables flushed, or it did not go to the session's
      first WAL. */
  lemma RecordSurvivesFlushIff(m: Manifest, found: map<u32, seq<Entry>>, levels: DbLevels, wals: seq<seq<Entry>>,
                               mems: seq<seq<Entry>>, log: seq<Entry>, first: nat, k: nat, out: Levels.Files, x: nat)
    requires Begins(m, found, levels, log, first) && WalFiles.Split(wals, mems, log) && Writes(m, found, mems, k, out)
    requires k < |m.wals| + |wals| - 1 && x < |P.Flatten(wals)|
    ensures x < |log| && Later(m, k) < |mems|
    ensures log[x] in Recovered(Logs(m, found, wals), AllIds(m, |wals|)[k..], WithL0(levels, out))
            <==> Later(m, k) == 0 || x < |P.Flatten(mems[..Later(m, k)])| || x >= |wals[0]|
  {
    BeginsOpened(m, found, levels, log, first);
    hide P.Flatten, Logged, Logs, Begins, Recovered, Total, Bag, WithL0, Writes, InFlushed, Found;
    RecoveredIn(Logs(m, found, wals), AllIds(m, |wals|)[k..], levels, out, log[x]);
    if k < |m.wals| {
      RecordNamed(m, found, wals, mems, log, k, x);
    } else {
      LoggedLater(m, found, wals, k, log[x]);
      RecordIn(wals, mems, log, x);
      OwnRecord(m, found, levels, log, first, x);
      WrittenOut(m, found, levels, wals, mems, log, first, k, out, log[x]);
      FlushedIff(wals, mems, log, Later(m, k), x);
    }
  }

  /** So recovering before and after the flush gives the same entries exactly when it left the session's first memtable
      alone, or its memtables go at least as far as the session's first WAL. */
  lemma SessionFlushKeepsRecoveryIff(m: Manifest, found: map<u32, seq<Entry>>, levels: DbLevels, wals: seq<seq<Entry>>,
                                     mems: seq<seq<Entry>>, log: seq<Entry>, first: nat, k: nat, out: Levels.Files)
    requires Begins(m, found, levels, log, first) && WalFiles.Split(wals, mems, log) && Writes(m, found, mems, k, out)
    requires k < |m.wals| + |wals| - 1
    ensures Later(m, k) < |mems|
    ensures Recovered(Logs(m, found, wals), AllIds(m, |wals|)[k..], WithL0(levels, out))
            == Recovered(Logs(m, found, wals), AllIds(m, |wals|), levels)
            <==> Later(m, k) == 0 || |wals[0]| <= |P.Flatten(mems[..Later(m, k)])|
  {
    BeginsOpened(m, found, levels, log, first);
    hide P.Flatten, Logged, Logs, Begins, Recovered, Total, Bag, WithL0, Writes, InFlushed, Found, Covered;
    var logs, ids := Logs(m, found, wals), AllIds(m, |wals|);
    if Later(m, k) == 0 || |wals[0]| <= |P.Flatten(mems[..Later(m, k)])| {
      FlushCovers(m, found, levels, wals, mems, log, first, k, out);
      FlushAddsNothing(m, found, levels, wals, mems, log, first, k, out);
      FlushKeepsRecoveryIff(logs, ids, levels, k, out);
    } else {
      var x := |P.Flatten(mems[..Later(m, k)])|;
      FlattenCons(wals);
      RecordSurvivesFlushIff(m, found, levels, wals, mems, log, first, k, out, x);
      RecordNamed(m, found, wals, mems, log, 0, x);
      assert ids[0..] == ids;
      LoggedIsRecovered(logs, ids, levels, log[x]);
    }
  }

  lemma LoggedIsRecovered(logs: map<u32, seq<Entry>>, wals: seq<u32>, levels: DbLevels, e: Entry)
    requires e in Logged(logs, wals)
    ensures e in Recovered(logs, wals, levels)
  {
    hide Logged, Total;
  }

  lemma FlushAddsNothing(m: Manifest, found: map<u32, seq<Entry>>, levels: DbLevels, wals: seq<seq<Entry>>,
                         mems: seq<seq<Entry>>, log: seq<Entry>, first: nat, k: nat, out: Levels.Files)
    requires Begins(m, found, levels, log, first) && WalFiles.Split(wals, mems, log) && Writes(m, found, mems, k, out)
    requires k < |m.wals| + |wals| - 1
    ensures forall e :: e in Bag(out) ==> e in Recovered(Logs(m, found, wals), AllIds(m, |wals|), levels)
  {
    BeginsOpened(m, found, levels, log, first);
    hide P.Flatten, Logged, Logs, Begins, Recovered, Total, Bag, WithL0, Writes;
    var logs, ids := Logs(m, found, wals), AllIds(m, |wals|);
    forall e | e in Bag(out) ensures e in Recovered(logs, ids, levels) {
      WrittenOut(m, found, levels, wals, mems, log, first, k, out, e);
      if InFlushed(mems, Later(m, k), e) {
        InsertedIsLogged(m, found, wals, mems, log, Later(m, k), e);
      } else {
        var i :| 0 <= i < k && i < |m.wals| && e in Found(found, m.wals[i]);
        FoundIsLogged(m, found, wals, i, e);
      }
      LoggedIsRecovered(logs, ids, levels, e);
    }
  }

  lemma InsertedIsLogged(m: Manifest, found: map<u32, seq<Entry>>, wals: seq<seq<Entry>>, mems: seq<seq<Entry>>,
                         log: seq<Entry>, f: nat, e: Entry)
    requires Opened(m) && WalFiles.Split(wals, mems, log) && InFlushed(mems, f, e)
    ensures e in Logged(Logs(m, found, wals), AllIds(m, |wals|))
  {
    hide P.Flatten, Logged, Logs;
    InFlatten(mems, e);
    var x :| 0 <= x < |P.Flatten(mems)| && P.Flatten(mems)[x] == e;
    RecordNamed(m, found, wals, mems, log, 0, x);
    assert AllIds(m, |wals|)[0..] == AllIds(m, |wals|) && log[x] == e;
  }

  lemma FoundIsLogged(m: Manifest, found: map<u32, seq<Entry>>, wals: seq<seq<Entry>>, i: nat, e: Entry)
    requires Opened(m) && wals != [] && i < |m.wals| && e in Found(found, m.wals[i])
    ensures e in Logged(Logs(m, found, wals), AllIds(m, |wals|))
  {
    hide P.Flatten, Logged, Logs;
    LoggedIn(Logs(m, found, wals), AllIds(m, |wals|), e);
    LogsAt(m, found, wals, m.wals[i]);
    assert m.wals[i] in m.wals && AllIds(m, |wals|)[i] == m.wals[i];
  }

  lemma FlushCovers(m: Manifest, found: map<u32, seq<Entry>>, levels: DbLevels, wals: seq<seq<Entry>>,
                    mems: seq<seq<Entry>>, log: seq<Entry>, first: nat, k: nat, out: Levels.Files)
    requires Begins(m, found, levels, log, first) && WalFiles.Split(wals, mems, log) && Writes(m, found, mems, k, out)
    requires k < |m.wals| + |wals| - 1
    requires Later(m, k) == 0 || |wals[0]| <= |P.Flatten(mems[..Later(m, k)])|
    ensures Covered(Logs(m, found, wals), AllIds(m, |wals|), levels, k, out)
  {
    BeginsOpened(m, found, levels, log, first);
    hide P.Flatten, Logged, Logs, Begins, Total, Bag, WithL0, Writes, InFlushed;
    var logs, ids := Logs(m, found, wals), AllIds(m, |wals|);
    forall w, e | w in ids[..k] && w !in ids[k..] && w in logs && e in logs[w] ensures e in Bag(out) {
      var i := DroppedIsFound(m, |wals|, k, w);
      LogsAt(m, found, wals, w);
      WrittenOut(m, found, levels, wals, mems, log, first, k, out, e);
      if e !in Found(found, w) {
        StaysNamed(m, |wals|, k);
        var x :| 0 <= x < |wals[0]| && wals[0][x] == e;
        FlattenCons(wals);
        FlushedIff(wals, mems, log, Later(m, k), x);
      }
    }
  }

  lemma StaysNamed(m: Manifest, n: nat, k: nat)
    requires Opened(m) && n > 0 && k < |m.wals| + n - 1
    ensures k < |m.wals| ==> m.wals[|m.wals| - 1] in AllIds(m, n)[k..]
    ensures k >= |m.wals| ==> m.nextWalId in AllIds(m, n)[k..]
  {
    var ids := AllIds(m, n);
    if k < |m.wals| {
      assert ids[k..][|m.wals| - 1 - k] == m.wals[|m.wals| - 1];
    } else {
      assert ids[k..][0] == m.nextWalId;
    }
  }

  /** A WAL id that a flush drops altogether is one that the session found named. */
  lemma DroppedIsFound(m: Manifest, n: nat, k: nat, w: u32) returns (i: nat)
    requires Opened(m) && n > 0 && k < |m.wals| + n - 1 && w in AllIds(m, n)[..k] && w !in AllIds(m, n)[k..]
    ensures i < k && i < |m.wals| && m.wals[i] == w && w != m.nextWalId
  {
    var ids := AllIds(m, n);
    i :| 0 <= i < k && ids[..k][i] == w;
    StaysNamed(m, n, k);
    if i < |m.wals| { assert m.wals[i] in m.wals; }
  }

  /** The files a session leaves have increasing LSNs again, as the next one needs. */
  lemma LogsIncrease(m: Manifest, found: map<u32, seq<Entry>>, levels: DbLevels, wals: seq<seq<Entry>>,
                     mems: seq<seq<Entry>>, log: seq<Entry>, first: nat, w: u32)
    requires Begins(m, found, levels, log, first) && WalFiles.Split(wals, mems, log)
    requires w in Logs(m, found, wals)
    ensures LsnsIncrease(Logs(m, found, wals)[w])
  {
    hide P.Flatten, Logs, Total;
    LogsAt(m, found, wals, w);
    FlattenCons(wals);
    var a, b := |wals[0]|, |P.Flatten(wals)|;
    assert wals[0] == log[..a] && P.Flatten(wals[1..]) == log[a..b];
    AppendIncreases(Found(found, w), wals[0], first);
    AppendIncreases(Found(found, w), P.Flatten(wals[1..]), first);
  }

  /** Replaying two logs of increasing LSNs builds the same memtable only if they are the same. */
  lemma SameReplay(a: seq<Entry>, b: seq<Entry>)
    requires LsnsIncrease(a) && LsnsIncrease(b) && InsertAll([], a) == InsertAll([], b)
    ensures a == b
  {
    hide InsertAll;
    HoldsTheLog(a);
    HoldsTheLog(b);
    forall e ensures e in a <==> e in b {
      assert e in InsertAll([], a) <==> e in InsertAll([], b);
    }
    SameEntries(a, b);
  }

  lemma {:induction false} SameEntries(a: seq<Entry>, b: seq<Entry>)
    requires LsnsIncrease(a) && LsnsIncrease(b) && forall e :: e in a <==> e in b
    ensures a == b
  {
    NoneLess(a, b);
    NoneLess(b, a);
    if a != [] {
      SameLast(a, b);
      var a', b', x := a[..|a| - 1], b[..|b| - 1], a[|a| - 1];
      assert a == a' + [x] && b == b' + [x];
      forall e ensures e in a' <==> e in b' {
        InFront(a, e);
        InFront(b, e);
      }
      assert LsnsIncrease(a') && LsnsIncrease(b');
      hide LsnsIncrease;
      SameEntries(a', b');
    }
  }

  lemma NoneLess(a: seq<Entry>, b: seq<Entry>)
    requires forall e :: e in b ==> e in a
    ensures b != [] ==> a != []
  {
    assert b == [] || b[0] in b;
  }

  lemma SameLast(a: seq<Entry>, b: seq<Entry>)
    requires LsnsIncrease(a) && LsnsIncrease(b) && a != [] && b != [] && forall e :: e in a <==> e in b
    ensures a[|a| - 1] == b[|b| - 1]
  {
    assert a[|a| - 1] in b;
    assert b[|b| - 1] in a;
  }

  lemma InFront(a: seq<Entry>, e: Entry)
    requires LsnsIncrease(a) && a != []
    ensures e in a[..|a| - 1] <==> e in a && e != a[|a| - 1]
  {
    assert a == a[..|a| - 1] + [a[|a| - 1]];
  }

  // --- Over runs of the write protocol ---

  predicate AllSized(reqs: seq<D.Request>, parts: seq<seq<P.Rec>>) {
    forall f :: 0 <= f < |parts| ==> D.Sized(reqs, parts[f])
  }

  /** The entries in each WAL or memtable. */
  function PartsOf(reqs: seq<D.Request>, parts: seq<seq<P.Rec>>): (r: seq<seq<Entry>>)
    requires AllSized(reqs, parts)
    ensures |r| == |parts| && forall f :: 0 <= f < |r| ==> |r[f]| == |parts[f]|
  {
    seq(|parts|, f requires 0 <= f < |parts| => D.EntriesOf(reqs, parts[f]))
  }

  lemma {:induction false} FlattenParts(reqs: seq<D.Request>, parts: seq<seq<P.Rec>>)
    requires D.Sized(reqs, P.Flatten(parts))
    ensures AllSized(reqs, parts) && P.Flatten(PartsOf(reqs, parts)) == D.EntriesOf(reqs, P.Flatten(parts))
  {
    if parts != [] {
      var n := |parts| - 1;
      var front := P.Flatten(parts[..n]);
      assert P.Flatten(parts) == front + parts[n];
      forall i | 0 <= i < |front| ensures front[i] == P.Flatten(parts)[i] {}
      forall i | 0 <= i < |parts[n]| ensures parts[n][i] == P.Flatten(parts)[|front| + i] {}
      assert D.Sized(reqs, front) && D.Sized(reqs, parts[n]);
      FlattenParts(reqs, parts[..n]);
      assert PartsOf(reqs, parts)[..n] == PartsOf(reqs, parts[..n]);
    }
  }

  /** Log, WALs and memtables of a state as entries. */
  lemma RunEntries(run: seq<P.State>, n: nat, start: nat, i: nat, reqs: seq<D.Request>)
    requires Theorems.IsRun(run, n, start) && i < |run| && D.Fits(run[i], reqs)
    ensures D.Sized(reqs, run[i].log) && AllSized(reqs, run[i].wals) && AllSized(reqs, run[i].mems)
    ensures var log := D.EntriesOf(reqs, run[i].log);
            && WalFiles.Split(PartsOf(reqs, run[i].wals), PartsOf(reqs, run[i].mems), log)
            && LsnsIncrease(log) && forall x :: 0 <= x < |log| ==> log[x].key.lsn == start + x
    ensures |P.Flatten(PartsOf(reqs, run[i].wals))| == run[i].appended
  {
    hide Theorems.IsRun, P.Inv, P.Flatten;
    RunSplit(run, n, start, i);
    Theorems.RunKeepsInv(run, n, start, i);
    var s := run[i];
    forall x | 0 <= x < |s.log| ensures s.log[x].writer < |reqs| { D.WriterOf(s, x); }
    assert D.Sized(reqs, P.Flatten(s.wals)) && D.Sized(reqs, P.Flatten(s.mems));
    FlattenParts(reqs, s.wals);
    FlattenParts(reqs, s.mems);
  }

  /** Part f of a log cut into pieces, and its entries. */
  lemma SliceEntries(reqs: seq<D.Request>, log: seq<P.Rec>, a: nat, b: nat)
    requires D.Sized(reqs, log) && a <= b <= |log|
    ensures D.Sized(reqs, log[a..b]) && D.EntriesOf(reqs, log[a..b]) == D.EntriesOf(reqs, log)[a..b]
  {}

  /** A memtable of the session is what replaying the session's records of its file builds exactly when it holds what
      its file holds: so `WalFiles.FilesMatchThroughoutIff` and `WalFiles.QuietFileIff` are about replays. */
  lemma FrozenIsReplayIff(m: Manifest, run: seq<P.State>, n: nat, start: nat, i: nat, reqs: seq<D.Request>, f: nat)
    requires Opened(m) && Theorems.IsRun(run, n, start) && i < |run| && D.Fits(run[i], reqs) && f < |run[i].wals|
    ensures |run[i].mems| == |run[i].wals|
    ensures D.Sized(reqs, run[i].mems[f]) && D.Sized(reqs, FileOf(m, run[i].wals, f))
    ensures var mem, file := run[i].mems[f], FileOf(m, run[i].wals, f);
            InsertAll([], D.EntriesOf(reqs, mem)) == InsertAll([], D.EntriesOf(reqs, file)) <==> mem == file
  {
    hide Theorems.IsRun, P.Flatten, InsertAll, FileOf;
    RunEntries(run, n, start, i, reqs);
    RunSplit(run, n, start, i);
    var s := run[i];
    var p, r := Slices(m, s.wals, s.mems, s.log, f);
    SameSliceIff(reqs, s.log, start, p, p + |s.mems[f]|, r, r + |FileOf(m, s.wals, f)|);
  }

  lemma Slices<T>(m: Manifest, wals: seq<seq<T>>, mems: seq<seq<T>>, log: seq<T>, f: nat) returns (p: nat, r: nat)
    requires Opened(m) && WalFiles.Split(wals, mems, log) && f < |wals|
    ensures p + |mems[f]| <= |log| && mems[f] == log[p..p + |mems[f]|]
    ensures r + |FileOf(m, wals, f)| <= |log| && FileOf(m, wals, f) == log[r..r + |FileOf(m, wals, f)|]
  {
    hide P.Flatten, FileOf;
    p := D.Stretch(mems, f);
    FileIs(m, wals, f);
    FlattenCons(wals);
    r := if f == 0 then 0 else |wals[0]|;
  }

  lemma SameSliceIff(reqs: seq<D.Request>, log: seq<P.Rec>, start: nat, a: nat, b: nat, c: nat, d: nat)
    requires D.Sized(reqs, log) && a <= b <= |log| && c <= d <= |log|
    requires LsnsIncrease(D.EntriesOf(reqs, log)) && forall x :: 0 <= x < |log| ==> log[x].lsn == start + x
    ensures D.Sized(reqs, log[a..b]) && D.Sized(reqs, log[c..d])
    ensures InsertAll([], D.EntriesOf(reqs, log[a..b])) == InsertAll([], D.EntriesOf(reqs, log[c..d]))
            <==> log[a..b] == log[c..d]
  {
    hide InsertAll;
    SliceEntries(reqs, log, a, b);
    SliceEntries(reqs, log, c, d);
    var es := D.EntriesOf(reqs, log);
    if InsertAll([], es[a..b]) == InsertAll([], es[c..d]) {
      SameReplay(es[a..b], es[c..d]);
      assert |es[a..b]| == |es[c..d]|;
      if a < b { assert es[a..b][0] == es[a] && es[c..d][0] == es[c]; }
    }
  }

  /** How far the flushed memtables of the session go: as far as had been applied at the last of their rotations. */
  lemma FlushedEnd(run: seq<P.State>, n: nat, start: nat, j: nat, k: nat, i: nat, reqs: seq<D.Request>)
    requires Theorems.IsRun(run, n, start) && Rotation(run, j, k) && k > 0 && j < i < |run| && D.Fits(run[i], reqs)
    ensures AllSized(reqs, run[i].mems) && k < |run[i].mems|
    ensures |P.Flatten(PartsOf(reqs, run[i].mems)[..k])| == run[j].applied
  {
    hide Theorems.IsRun, P.Flatten;
    RunEntries(run, n, start, i, reqs);
    RunSplit(run, n, start, j);
    RunSplit(run, n, start, i);
    SinceRotation(run, n, start, j, k, i);
    FlattenPrefix(run[i].mems, k);
    FlattenParts(reqs, run[i].mems[..k]) by {
      assert P.Flatten(run[i].mems[..k]) <= run[i].log;
    }
    assert PartsOf(reqs, run[i].mems)[..k] == PartsOf(reqs, run[i].mems[..k]);
  }

  /** In every run, after a flush of the k oldest memtables: a put that has returned is recovered exactly when the flush
      left the session's first memtable alone, or the put's record had been applied before the rotation of the last one
      flushed, or it is not in the session's first WAL. */
  lemma AcknowledgedIsRecoveredIff(m: Manifest, found: map<u32, seq<Entry>>, levels: DbLevels, run: seq<P.State>,
                                   n: nat, start: nat, j: nat, i: nat, reqs: seq<D.Request>, k: nat,
                                   out: Levels.Files, w: nat) returns (x: nat)
    requires Theorems.IsRun(run, n, start) && i < |run| && D.Fits(run[i], reqs) && Finds(m, found, levels, start)
    requires k < |m.wals| + |run[i].wals| - 1 && (Later(m, k) > 0 ==> Rotation(run, j, Later(m, k)) && j < i)
    requires AllSized(reqs, run[i].mems) && run[i].mems != []
    requires Writes(m, found, PartsOf(reqs, run[i].mems), k, out)
    requires w < |run[i].pc| && run[i].pc[w].Done?
    ensures x < |run[i].log| && run[i].log[x] == P.Rec(w, start + x) && w < |reqs| && start + x <= Keys.MAX_LSN
    ensures AllSized(reqs, run[i].wals) && |run[i].wals| > 0 && (Later(m, k) > 0 ==> j < |run|)
    ensures var logs, ids := Logs(m, found, PartsOf(reqs, run[i].wals)), AllIds(m, |run[i].wals|);
            D.EntryOf(reqs, P.Rec(w, start + x)) in Recovered(logs, ids[k..], WithL0(levels, out))
            <==> Later(m, k) == 0 || x < run[j].applied || x >= |run[i].wals[0]|
  {
    hide Theorems.IsRun, P.Inv, P.Flatten, Logs, Recovered, Writes, WithL0, Finds;
    Theorems.RunKeepsInv(run, n, start, i);
    RunEntries(run, n, start, i, reqs);
    RunSplit(run, n, start, i);
    x := Theorems.OkMeansStored(run[i], w);
    SessionBegins(m, found, levels, D.EntriesOf(reqs, run[i].log), start);
    RecordSurvivesFlushIff(m, found, levels, PartsOf(reqs, run[i].wals), PartsOf(reqs, run[i].mems),
                           D.EntriesOf(reqs, run[i].log), start, k, out, x);
    if Later(m, k) > 0 { FlushedEnd(run, n, start, j, Later(m, k), i, reqs); }
  }

  lemma SessionBegins(m: Manifest, found: map<u32, seq<Entry>>, levels: DbLevels, log: seq<Entry>, first: nat)
    requires Finds(m, found, levels, first) && LsnsIncrease(log)
    requires forall x :: 0 <= x < |log| ==> log[x].key.lsn == first + x
    ensures Begins(m, found, levels, log, first)
  {
    hide Finds;
  }

  /** In every run: recovering before and after the flush gives the same entries exactly when the flush left the
      session's first memtable alone, or at the rotation of the last memtable flushed everything in the session's first
      WAL had been applied and nothing has been written to it since. */
  lemma FlushKeepsRecoveryInRunIff(m: Manifest, found: map<u32, seq<Entry>>, levels: DbLevels, run: seq<P.State>,
                                   n: nat, start: nat, j: nat, i: nat, reqs: seq<D.Request>, k: nat, out: Levels.Files)
    requires Theorems.IsRun(run, n, start) && i < |run| && D.Fits(run[i], reqs) && Finds(m, found, levels, start)
    requires k < |m.wals| + |run[i].wals| - 1 && (Later(m, k) > 0 ==> Rotation(run, j, Later(m, k)) && j < i)
    requires AllSized(reqs, run[i].mems) && run[i].mems != []
    requires Writes(m, found, PartsOf(reqs, run[i].mems), k, out)
    ensures AllSized(reqs, run[i].wals) && |run[i].wals| > 0 && (Later(m, k) > 0 ==> |run[j].wals| > 0)
    ensures var logs, ids := Logs(m, found, PartsOf(reqs, run[i].wals)), AllIds(m, |run[i].wals|);
            Recovered(logs, ids[k..], WithL0(levels, out)) == Recovered(logs, ids, levels)
            <==> Later(m, k) == 0
                 || (|run[j].wals[0]| <= run[j].applied && run[i].wals[0] == run[j].wals[0])
  {
    hide Theorems.IsRun, P.Flatten, Logs, Recovered, Writes, WithL0, Finds;
    RunEntries(run, n, start, i, reqs);
    RunSplit(run, n, start, i);
    SessionBegins(m, found, levels, D.EntriesOf(reqs, run[i].log), start);
    SessionFlushKeepsRecoveryIff(m, found, levels, PartsOf(reqs, run[i].wals), PartsOf(reqs, run[i].mems),
                                 D.EntriesOf(reqs, run[i].log), start, k, out);
    if Later(m, k) > 0 {
      FlushedEnd(run, n, start, j, Later(m, k), i, reqs);
      SinceRotation(run, n, start, j, Later(m, k), i);
    }
  }

  /** Of the WALs that the session found named, those named after k have been dropped. */
  function NamedYet(m: Manifest, k: nat): seq<u32> { if k < |m.wals| then m.wals[k..] else [] }

  /** Whatever the logs and tables hold: as long as a rotated WAL is named, only a WAL that the session found named and
      that is named no more can lose a record to a flush; dropping rotated ones loses nothing. */
  lemma OnlyFoundWalsLose(m: Manifest, n: nat, logs: map<u32, seq<Entry>>, levels: DbLevels, k: nat, out: Levels.Files)
    requires Opened(m) && n > 0 && k < |m.wals| + n - 1
    ensures k <= |AllIds(m, n)|
    ensures Covered(logs, AllIds(m, n), levels, k, out)
            <==> forall i, e :: 0 <= i < k && i < |m.wals| && m.wals[i] !in NamedYet(m, k)
                                && m.wals[i] in logs && e in logs[m.wals[i]] ==>
                   e in Bag(out) || e in Total(levels) || e in Logged(logs, AllIds(m, n)[k..])
  {
    hide Bag, Total, Logged;
    var ids := AllIds(m, n);
    assert forall w :: w in m.wals ==> w != m.nextWalId;
    forall i | 0 <= i < k && i < |m.wals|
      ensures m.wals[i] in ids[..k] && (m.wals[i] in ids[k..] <==> m.wals[i] in NamedYet(m, k))
    {
      assert ids[..k][i] == m.wals[i] && m.wals[i] in m.wals;
      NamedStill(m, n, k, i);
    }
    forall w | w in ids[..k] && w !in ids[k..] ensures exists i :: 0 <= i < k && i < |m.wals| && m.wals[i] == w {
      var i := DroppedIsFound(m, n, k, w);
    }
  }

  lemma NamedStill(m: Manifest, n: nat, k: nat, i: nat)
    requires Opened(m) && n > 0 && k < |m.wals| + n - 1 && i < k && i < |m.wals|
    ensures m.wals[i] in AllIds(m, n)[k..] <==> m.wals[i] in NamedYet(m, k)
  {
    var ids, w := AllIds(m, n), m.wals[i];
    assert w in m.wals;
    if w in ids[k..] {
      var j :| 0 <= j < |ids[k..]| && ids[k..][j] == w;
      assert ids[k + j] == w;
      assert k + j < |m.wals|;
      assert m.wals[k..][j] == w;
    }
    if k < |m.wals| && w in m.wals[k..] {
      var j :| 0 <= j < |m.wals[k..]| && m.wals[k..][j] == w;
      assert ids[k..][j] == w;
    }
  }
}
