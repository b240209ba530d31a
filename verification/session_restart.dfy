/** What a restart holds twice: records in a file named more than once, or in tables already. */
module SessionRestart {
  import opened Codec
  import opened Entries
  import opened Memtables
  import opened Manifests
  import opened Levels
  import opened Compaction
  import opened Flushing
  import opened Retention
  import opened ReadPath
  import opened DatabaseRuns
  import opened WalFiles
  import opened SessionRecovery
  import Keys
  import P = WritePipeline

  predicate Apart(a: seq<Entry>, b: seq<Entry>) { forall e :: e in a ==> e !in b }

  predicate Unheld(a: seq<Entry>, held: multiset<Entry>) { forall e :: e in a ==> e !in held }

  /** Every entry at most once. */
  predicate Once(held: multiset<Entry>) { forall e :: e in held ==> held[e] == 1 }

  /** The memtables that recovery builds, in the order of the WALs. */
  function Replays(logs: map<u32, seq<Entry>>, wals: seq<u32>): (r: seq<seq<Entry>>)
    requires forall w :: w in wals ==> w in logs
    ensures |r| == |wals|
  {
    seq(|wals|, i requires 0 <= i < |wals| => InsertAll([], logs[wals[i]]))
  }

  /** The database that recovery builds. */
  function Restarted(logs: map<u32, seq<Entry>>, wals: seq<u32>, levels: DbLevels): Db
    requires wals != [] && forall w :: w in wals ==> w in logs
  {
    var mems := Replays(logs, wals);
    Db(mems[|mems| - 1], mems[..|mems| - 1], levels)
  }

  /** No record is in two of the logs named, counting a name twice if it stands there twice, nor in a log and a
      table. */
  ghost predicate NamedOnce(logs: map<u32, seq<Entry>>, wals: seq<u32>, levels: DbLevels)
    requires forall w :: w in wals ==> w in logs
  {
    && (forall p, q :: 0 <= p < q < |wals| ==> Apart(logs[wals[p]], logs[wals[q]]))
    && forall p :: 0 <= p < |wals| ==> Unheld(logs[wals[p]], Total(levels))
  }

  lemma SortedOnce(es: seq<Entry>, e: Entry)
    requires StrictlySorted(es) && e in es
    ensures multiset(es)[e] == 1
  {
    hide Keys.Less;
    var i :| 0 <= i < |es| && es[i] == e;
    assert es == es[..i] + [e] + es[i + 1..];
    Keys.TotalOrder();
    forall j | 0 <= j < |es| && j != i ensures es[j] != e {
      if j < i { assert Keys.Less(es[j].key, es[i].key); } else { assert Keys.Less(es[i].key, es[j].key); }
    }
    assert e !in es[..i] && e !in es[i + 1..];
    assert multiset(es) == multiset(es[..i]) + multiset{e} + multiset(es[i + 1..]);
  }

  lemma OnceWithIff(es: seq<Entry>, held: multiset<Entry>)
    requires StrictlySorted(es)
    ensures Once(multiset(es) + held) <==> Once(held) && Unheld(es, held)
  {
    hide StrictlySorted;
    var all := multiset(es) + held;
    if Once(held) && Unheld(es, held) {
      forall e | e in all ensures all[e] == 1 {
        if e in es { SortedOnce(es, e); }
      }
    }
    if Once(all) {
      forall e | e in held ensures held[e] == 1 { assert e in all && all[e] == multiset(es)[e] + held[e]; }
      forall e | e in es ensures e !in held {
        SortedOnce(es, e);
        assert e in all;
      }
    }
  }

  lemma {:induction false} BagOnceIff(parts: seq<seq<Entry>>, held: multiset<Entry>)
    requires forall i :: 0 <= i < |parts| ==> StrictlySorted(parts[i])
    ensures Once(FrozenBag(parts) + held)
            <==> && Once(held) && (forall p :: 0 <= p < |parts| ==> Unheld(parts[p], held))
                 && forall p, q :: 0 <= p < q < |parts| ==> Apart(parts[p], parts[q])
  {
    hide StrictlySorted, Once, Unheld, Apart;
    if parts == [] {
      assert FrozenBag(parts) + held == held;
    } else {
      var es, rest := parts[0], parts[1..];
      BagOnceIff(rest, held);
      assert FrozenBag(parts) + held == multiset(es) + (FrozenBag(rest) + held);
      OnceWithIff(es, FrozenBag(rest) + held);
      UnheldByIff(es, rest, held);
      Unshift(parts, held);
    }
  }

  lemma Unshift(parts: seq<seq<Entry>>, held: multiset<Entry>)
    requires parts != []
    ensures (forall p :: 0 <= p < |parts| ==> Unheld(parts[p], held))
            <==> Unheld(parts[0], held) && forall p :: 0 <= p < |parts[1..]| ==> Unheld(parts[1..][p], held)
    ensures (forall p, q :: 0 <= p < q < |parts| ==> Apart(parts[p], parts[q]))
            <==> && (forall q :: 0 <= q < |parts[1..]| ==> Apart(parts[0], parts[1..][q]))
                 && forall p, q :: 0 <= p < q < |parts[1..]| ==> Apart(parts[1..][p], parts[1..][q])
  {
    hide Unheld, Apart;
    assert forall p :: 0 < p < |parts| ==> parts[p] == parts[1..][p - 1];
  }

  lemma {:induction false} UnheldByIff(es: seq<Entry>, parts: seq<seq<Entry>>, held: multiset<Entry>)
    ensures Unheld(es, FrozenBag(parts) + held)
            <==> Unheld(es, held) && forall q :: 0 <= q < |parts| ==> Apart(es, parts[q])
  {
    forall e ensures e in FrozenBag(parts) <==> exists q :: 0 <= q < |parts| && e in parts[q] { InBagOf(parts, e); }
  }

  lemma {:induction false} InBagOf(parts: seq<seq<Entry>>, e: Entry)
    ensures e in FrozenBag(parts) <==> exists q :: 0 <= q < |parts| && e in parts[q]
  {
    if parts != [] {
      InBagOf(parts[1..], e);
      assert forall q :: 0 < q < |parts| ==> parts[q] == parts[1..][q - 1];
    }
  }

  /** After a restart every entry is held once exactly when no record is in two of the logs named, nor in a log and a
      table. */
  lemma RestartHoldsOnceIff(logs: map<u32, seq<Entry>>, wals: seq<u32>, levels: DbLevels)
    requires wals != [] && (forall w :: w in wals ==> w in logs && LsnsIncrease(logs[w])) && Once(Total(levels))
    ensures Once(Held(Restarted(logs, wals, levels))) <==> NamedOnce(logs, wals, levels)
  {
    hide Once, Unheld, Apart, InsertAll, Total, FrozenBag;
    var mems, n := Replays(logs, wals), |wals| - 1;
    FrozenSnoc(mems[..n], mems[n]);
    assert mems == mems[..n] + [mems[n]];
    assert Held(Restarted(logs, wals, levels)) == FrozenBag(mems) + Total(levels);
    BagOnceIff(mems, Total(levels));
    forall p | 0 <= p < |wals|
      ensures forall e :: e in mems[p] <==> e in logs[wals[p]]
      ensures Unheld(mems[p], Total(levels)) <==> Unheld(logs[wals[p]], Total(levels))
    {
      assert wals[p] in wals;
      HoldsTheLog(logs[wals[p]]);
      SameUnheld(mems[p], logs[wals[p]], Total(levels));
    }
    forall p, q | 0 <= p < q < |wals| ensures Apart(mems[p], mems[q]) <==> Apart(logs[wals[p]], logs[wals[q]]) {
      SameApart(mems[p], logs[wals[p]], mems[q], logs[wals[q]]);
    }
  }

  lemma SameUnheld(a: seq<Entry>, b: seq<Entry>, held: multiset<Entry>)
    requires forall e :: e in a <==> e in b
    ensures Unheld(a, held) <==> Unheld(b, held)
  {}

  lemma SameApart(a: seq<Entry>, a': seq<Entry>, b: seq<Entry>, b': seq<Entry>)
    requires (forall e :: e in a <==> e in a') && forall e :: e in b <==> e in b'
    ensures Apart(a, b) <==> Apart(a', b')
  {}

  // --- After a session and its flushes ---

  /** What the session found was held once, and nothing was there yet of the file its rotations take. */
  ghost predicate Tidy(m: Manifest, found: map<u32, seq<Entry>>, levels: DbLevels)
    requires Opened(m)
  {
    && m.nextWalId !in found && (forall w :: w in m.wals ==> w in found) && Once(Total(levels))
    && (forall i, j :: 0 <= i < j < |m.wals| ==>
          m.wals[i] != m.wals[j] && Apart(Found(found, m.wals[i]), Found(found, m.wals[j])))
    && forall i :: 0 <= i < |m.wals| ==> Unheld(Found(found, m.wals[i]), Total(levels))
  }

  /** The log of each WAL of the session, counting from the first the manifest named. */
  lemma LogAt(m: Manifest, found: map<u32, seq<Entry>>, levels: DbLevels, wals: seq<seq<Entry>>, p: nat)
    requires Opened(m) && Tidy(m, found, levels) && wals != [] && p < |m.wals| + |wals| - 1
    ensures var base, logs, w := |m.wals| - 1, Logs(m, found, wals), AllIds(m, |wals|)[p];
            && w in logs
            && logs[w] == if p < base then Found(found, m.wals[p])
                          else if p == base then Found(found, m.wals[p]) + wals[0]
                          else P.Flatten(wals[1..])
  {
    hide P.Flatten, Logs, Once, Apart, Unheld, Total;
    var w := AllIds(m, |wals|)[p];
    LogsAt(m, found, wals, w);
    if p < |m.wals| {
      assert m.wals[p] in m.wals;
      if p < |m.wals| - 1 { assert m.wals[p] != m.wals[|m.wals| - 1]; }
    } else {
      assert Found(found, m.nextWalId) == [];
    }
  }

  /** Records found and records of the session are different. */
  lemma FoundIsOlder(m: Manifest, found: map<u32, seq<Entry>>, levels: DbLevels, wals: seq<seq<Entry>>,
                     mems: seq<seq<Entry>>, log: seq<Entry>, first: nat, i: nat)
    requires Begins(m, found, levels, log, first) && WalFiles.Split(wals, mems, log) && i < |m.wals|
    ensures Apart(Found(found, m.wals[i]), wals[0]) && Apart(Found(found, m.wals[i]), P.Flatten(wals[1..]))
  {
    hide P.Flatten, Total;
    FlattenCons(wals);
    forall e | e in P.Flatten(wals) ensures e in log && e.key.lsn >= first {}
    assert forall e :: e in Found(found, m.wals[i]) ==> e.key.lsn < first;
  }

  lemma WalsApart(wals: seq<seq<Entry>>, mems: seq<seq<Entry>>, log: seq<Entry>)
    requires WalFiles.Split(wals, mems, log)
    ensures Apart(wals[0], P.Flatten(wals[1..]))
  {
    hide P.Flatten;
    FlattenCons(wals);
    forall e | e in wals[0] ensures e !in P.Flatten(wals[1..]) {
      var x :| 0 <= x < |wals[0]| && wals[0][x] == e;
      assert log[x] == e;
      RecordIn(wals, mems, log, x);
    }
  }

  /** Of two WALs of the session the logs have a record in common only if both were rotated and their file has one. */
  lemma LogsApartIff(m: Manifest, found: map<u32, seq<Entry>>, levels: DbLevels, wals: seq<seq<Entry>>,
                     mems: seq<seq<Entry>>, log: seq<Entry>, first: nat, p: nat, q: nat)
    requires Begins(m, found, levels, log, first) && WalFiles.Split(wals, mems, log) && Tidy(m, found, levels)
    requires p < q < |m.wals| + |wals| - 1
    ensures var logs, ids := Logs(m, found, wals), AllIds(m, |wals|);
            && ids[p] in logs && ids[q] in logs
            && (Apart(logs[ids[p]], logs[ids[q]]) <==> p < |m.wals| || P.Flatten(wals[1..]) == [])
  {
    hide P.Flatten, Logs, Once, Total, Begins, AllIds;
    BeginsOpened(m, found, levels, log, first);
    LogAt(m, found, levels, wals, p);
    LogAt(m, found, levels, wals, q);
    WalsApart(wals, mems, log);
    if p < |m.wals| { FoundIsOlder(m, found, levels, wals, mems, log, first, p); }
    if q < |m.wals| { FoundIsOlder(m, found, levels, wals, mems, log, first, q); }
    var file := P.Flatten(wals[1..]);
    if p >= |m.wals| && file != [] { assert file[0] in file; }
  }

  /** What a named log and the tables after the flush have in common. */
  lemma LogUnheldIff(m: Manifest, found: map<u32, seq<Entry>>, levels: DbLevels, wals: seq<seq<Entry>>,
                     mems: seq<seq<Entry>>, log: seq<Entry>, first: nat, k: nat, out: Levels.Files, p: nat)
    requires Begins(m, found, levels, log, first) && WalFiles.Split(wals, mems, log) && Tidy(m, found, levels)
    requires Writes(m, found, mems, k, out) && k <= p < |m.wals| + |wals| - 1
    ensures Later(m, k) < |mems|
    ensures var logs, ids := Logs(m, found, wals), AllIds(m, |wals|);
            && ids[p] in logs
            && (Unheld(logs[ids[p]], Total(WithL0(levels, out)))
                <==> p < |m.wals| || P.Flatten(wals[1..]) == [] || |P.Flatten(mems[..Later(m, k)])| <= |wals[0]|)
  {
    BeginsOpened(m, found, levels, log, first);
    hide P.Flatten, Logs, Once, Total, Begins, AllIds, WithL0, Bag, Tidy, Writes;
    LogAt(m, found, levels, wals, p);
    L0Total(levels, out);
    if p < |m.wals| {
      FoundUnheld(m, found, levels, wals, mems, log, first, k, out, p);
    } else {
      FileUnheldIff(m, found, levels, wals, mems, log, first, k, out);
    }
  }

  lemma FoundUnheld(m: Manifest, found: map<u32, seq<Entry>>, levels: DbLevels, wals: seq<seq<Entry>>,
                    mems: seq<seq<Entry>>, log: seq<Entry>, first: nat, k: nat, out: Levels.Files, p: nat)
    requires Begins(m, found, levels, log, first) && WalFiles.Split(wals, mems, log) && Tidy(m, found, levels)
    requires Writes(m, found, mems, k, out) && k <= p < |m.wals|
    ensures forall e :: e in Found(found, m.wals[p]) || (p == |m.wals| - 1 && e in wals[0]) ==>
              e !in Total(levels) && e !in Bag(out)
  {
    BeginsOpened(m, found, levels, log, first);
    hide P.Flatten, Once, Total, Begins, Bag, Writes, InFlushed, WalFiles.Split, Found, Tidy;
    forall e | e in Found(found, m.wals[p]) || (p == |m.wals| - 1 && e in wals[0])
      ensures e !in Total(levels) && e !in Bag(out)
    {
      WrittenOut(m, found, levels, wals, mems, log, first, k, out, e);
      NoneFlushed(mems, e);
      if e in Found(found, m.wals[p]) {
        FoundOnce(m, found, levels, p, e);
      } else {
        FirstIn(wals, e);
        OwnUnheld(m, found, levels, wals, mems, log, first, e);
      }
    }
  }

  lemma FoundOnce(m: Manifest, found: map<u32, seq<Entry>>, levels: DbLevels, p: nat, e: Entry)
    requires Opened(m) && Tidy(m, found, levels) && p < |m.wals| && e in Found(found, m.wals[p])
    ensures e !in Total(levels) && forall i :: 0 <= i < p ==> e !in Found(found, m.wals[i])
  {
    hide Total, Once, Found;
    assert Unheld(Found(found, m.wals[p]), Total(levels));
    forall i | 0 <= i < p ensures e !in Found(found, m.wals[i]) {
      assert Apart(Found(found, m.wals[i]), Found(found, m.wals[p]));
    }
  }

  lemma FirstIn(wals: seq<seq<Entry>>, e: Entry)
    requires wals != [] && e in wals[0]
    ensures e in P.Flatten(wals)
  {
    hide P.Flatten;
    FlattenCons(wals);
  }

  lemma NoneFlushed(mems: seq<seq<Entry>>, e: Entry)
    ensures !InFlushed(mems, 0, e)
  {}

  lemma OwnUnheld(m: Manifest, found: map<u32, seq<Entry>>, levels: DbLevels, wals: seq<seq<Entry>>,
                    mems: seq<seq<Entry>>, log: seq<Entry>, first: nat, e: Entry)
    requires Begins(m, found, levels, log, first) && WalFiles.Split(wals, mems, log) && e in P.Flatten(wals)
    ensures e !in Total(levels) && (forall w :: e !in Found(found, w)) && e in log
  {
    hide P.Flatten, Total;
    assert e in log;
  }

  lemma FileUnheldIff(m: Manifest, found: map<u32, seq<Entry>>, levels: DbLevels, wals: seq<seq<Entry>>,
                      mems: seq<seq<Entry>>, log: seq<Entry>, first: nat, k: nat, out: Levels.Files)
    requires Begins(m, found, levels, log, first) && WalFiles.Split(wals, mems, log) && Tidy(m, found, levels)
    requires Writes(m, found, mems, k, out) && k < |m.wals| + |wals| - 1
    ensures Later(m, k) < |mems|
    ensures (forall e :: e in P.Flatten(wals[1..]) ==> e !in Total(levels) && e !in Bag(out))
            <==> P.Flatten(wals[1..]) == [] || |P.Flatten(mems[..Later(m, k)])| <= |wals[0]|
  {
    BeginsOpened(m, found, levels, log, first);
    hide P.Flatten, Once, Total, Begins, Bag, Writes, InFlushed, Found, Tidy, Unheld, Apart;
    FlattenCons(wals);
    var a, b := |wals[0]|, |P.Flatten(mems[..Later(m, k)])|;
    forall x | a <= x < |P.Flatten(wals)| ensures log[x] !in Total(levels) && (log[x] in Bag(out) <==> x < b) {
      OwnRecord(m, found, levels, log, first, x);
      WrittenOut(m, found, levels, wals, mems, log, first, k, out, log[x]);
      FlushedIff(wals, mems, log, Later(m, k), x);
    }
    assert P.Flatten(wals[1..]) == log[a..|P.Flatten(wals)|];
    hide WalFiles.Split;
    AheadIff(log, a, |P.Flatten(wals)|, b, Total(levels), Bag(out));
  }

  /** Of a stretch of the log only what is before b is in one bag, and nothing in the other. */
  lemma AheadIff(log: seq<Entry>, a: nat, c: nat, b: nat, one: multiset<Entry>, other: multiset<Entry>)
    requires a <= c <= |log| && forall x :: a <= x < c ==> log[x] !in one && (log[x] in other <==> x < b)
    ensures (forall e :: e in log[a..c] ==> e !in one && e !in other) <==> a == c || b <= a
  {
    if a < c && b > a { assert log[a] in log[a..c]; }
  }

  /** No record is in two memtables. */
  lemma PiecesApart(parts: seq<seq<Entry>>, log: seq<Entry>, f: nat, g: nat)
    requires P.Flatten(parts) <= log && WalFiles.Distinct(log) && f < g < |parts|
    ensures Apart(parts[f], parts[g])
  {
    hide P.Flatten;
    FlattenPrefix(parts, g);
    FlattenPrefix(parts, g + 1);
    LastPiece(parts, g);
    var a, b := |P.Flatten(parts[..g])|, |P.Flatten(parts[..g + 1])|;
    assert P.Flatten(parts[..g]) == log[..a] && parts[g] == log[a..b];
    forall e | e in parts[f] ensures e !in parts[g] {
      assert parts[..g][f] == parts[f];
      InFlatten(parts[..g], e);
      var x :| 0 <= x < a && log[x] == e;
      InSuffixIff(log, a, b, x);
    }
  }

  lemma LastPiece(parts: seq<seq<Entry>>, g: nat)
    requires g < |parts|
    ensures P.Flatten(parts[..g + 1]) == P.Flatten(parts[..g]) + parts[g]
  {
    assert parts[..g + 1][..g] == parts[..g];
  }

  lemma MemsApart(m: Manifest, found: map<u32, seq<Entry>>, levels: DbLevels, wals: seq<seq<Entry>>,
                  mems: seq<seq<Entry>>, log: seq<Entry>, first: nat, i: nat, j: nat)
    requires Begins(m, found, levels, log, first) && WalFiles.Split(wals, mems, log) && Tidy(m, found, levels)
    requires i < j < |m.wals| + |mems| - 1
    ensures Apart(MemOf(m, found, mems, i), MemOf(m, found, mems, j))
  {
    BeginsOpened(m, found, levels, log, first);
    var base := |m.wals| - 1;
    if i >= base { PiecesApart(mems, log, i - base, j - base); }
    hide P.Flatten, Once, Total, Begins, Found, Tidy, MemOf;
    forall e | e in MemOf(m, found, mems, i) ensures e !in MemOf(m, found, mems, j) {
      MemHolds(m, found, levels, wals, mems, log, first, i, e);
      MemHolds(m, found, levels, wals, mems, log, first, j, e);
      if i < |m.wals| && e in Found(found, m.wals[i]) {
        if j < |m.wals| && e in Found(found, m.wals[j]) { FoundOnce(m, found, levels, j, e); }
        if j >= base && e in mems[j - base] { OwnPiece(m, found, levels, wals, mems, log, first, j - base, e); }
      } else {
        OwnPiece(m, found, levels, wals, mems, log, first, i - base, e);
      }
    }
  }

  lemma OwnPiece(m: Manifest, found: map<u32, seq<Entry>>, levels: DbLevels, wals: seq<seq<Entry>>,
                 mems: seq<seq<Entry>>, log: seq<Entry>, first: nat, f: nat, e: Entry)
    requires Begins(m, found, levels, log, first) && WalFiles.Split(wals, mems, log) && f < |mems| && e in mems[f]
    ensures e !in Total(levels) && forall w :: e !in Found(found, w)
  {
    hide P.Flatten, Total, Begins, Found;
    InFlatten(mems, e);
    OwnUnheld(m, found, levels, wals, mems, log, first, e);
  }

  lemma MemUnheld(m: Manifest, found: map<u32, seq<Entry>>, levels: DbLevels, wals: seq<seq<Entry>>,
                  mems: seq<seq<Entry>>, log: seq<Entry>, first: nat, i: nat)
    requires Begins(m, found, levels, log, first) && WalFiles.Split(wals, mems, log) && Tidy(m, found, levels)
    requires i < |m.wals| + |mems| - 1
    ensures Unheld(MemOf(m, found, mems, i), Total(levels)) && StrictlySorted(MemOf(m, found, mems, i))
  {
    BeginsOpened(m, found, levels, log, first);
    hide P.Flatten, Once, Total, Begins, Found, Tidy, WalFiles.Split, StrictlySorted;
    SplitSizes(wals, mems, log);
    forall e | e in MemOf(m, found, mems, i) ensures e !in Total(levels) {
      MemHolds(m, found, levels, wals, mems, log, first, i, e);
      if i < |m.wals| && e in Found(found, m.wals[i]) {
        FoundOnce(m, found, levels, i, e);
      } else {
        OwnPiece(m, found, levels, wals, mems, log, first, i - (|m.wals| - 1), e);
      }
    }
  }

  /** The tables after the flush hold every entry once. */
  lemma TablesOnce(m: Manifest, found: map<u32, seq<Entry>>, levels: DbLevels, wals: seq<seq<Entry>>,
                   mems: seq<seq<Entry>>, log: seq<Entry>, first: nat, k: nat, out: Levels.Files)
    requires Begins(m, found, levels, log, first) && WalFiles.Split(wals, mems, log) && Tidy(m, found, levels)
    requires Writes(m, found, mems, k, out) && k < |m.wals| + |wals| - 1
    ensures Once(Total(WithL0(levels, out)))
  {
    BeginsOpened(m, found, levels, log, first);
    hide P.Flatten, Once, Total, Begins, Found, WalFiles.Split, MemOf, WithL0, Bag, Unheld, Apart, FrozenBag;
    SplitSizes(wals, mems, log);
    var parts := seq(k, i requires 0 <= i < k => MemOf(m, found, mems, i));
    assert Once(Total(levels));
    hide Tidy;
    FrozenSplit(parts, out);
    assert parts[|out|..] == [];
    assert FrozenBag(parts[|out|..]) == multiset{} by { NoParts(); }
    L0Total(levels, out);
    forall i | 0 <= i < k ensures Unheld(parts[i], Total(levels)) && StrictlySorted(parts[i]) {
      MemUnheld(m, found, levels, wals, mems, log, first, i);
    }
    forall i, j | 0 <= i < j < k ensures Apart(parts[i], parts[j]) {
      MemsApart(m, found, levels, wals, mems, log, first, i, j);
    }
    BagOnceIff(parts, Total(levels));
    assert Total(WithL0(levels, out)) == FrozenBag(parts) + Total(levels);
  }

  lemma NoParts()
    ensures FrozenBag([]) == multiset{}
  {}

  /** After a session and a flush of its k oldest memtables a restart holds every entry once exactly when no rotated WAL
      has a record, or at most one is still named and the flushed memtables go no further than the session's first
      WAL. */
  lemma RestartIsCleanIff(m: Manifest, found: map<u32, seq<Entry>>, levels: DbLevels, wals: seq<seq<Entry>>,
                          mems: seq<seq<Entry>>, log: seq<Entry>, first: nat, k: nat, out: Levels.Files)
    requires Begins(m, found, levels, log, first) && WalFiles.Split(wals, mems, log) && Tidy(m, found, levels)
    requires Writes(m, found, mems, k, out) && k < |m.wals| + |wals| - 1
    ensures Later(m, k) < |mems|
    ensures forall w :: w in AllIds(m, |wals|)[k..] ==> w in Logs(m, found, wals)
    ensures Once(Held(Restarted(Logs(m, found, wals), AllIds(m, |wals|)[k..], WithL0(levels, out))))
            <==> || P.Flatten(wals[1..]) == []
                 || (&& |m.wals| + |wals| - 1 - (if k >= |m.wals| then k else |m.wals|) <= 1
                     && (k >= |m.wals| ==> |P.Flatten(mems[..Later(m, k)])| <= |wals[0]|))
  {
    hide *;
    BeginsOpened(m, found, levels, log, first);
    SplitSizes(wals, mems, log);
    var logs, named, all := Logs(m, found, wals), AllIds(m, |wals|)[k..], |m.wals| + |wals| - 1;
    NamedReadable(m, found, levels, wals, mems, log, first, k);
    TablesOnce(m, found, levels, wals, mems, log, first, k, out);
    RestartHoldsOnceIff(logs, named, WithL0(levels, out));
    NamedUnheld(m, found, levels, wals, mems, log, first, k, out, named);
    NamedApart(m, found, levels, wals, mems, log, first, k, named);
    if k < |m.wals| { NoneYet(m, mems, k); }
    CountNamed(logs, named, WithL0(levels, out), |m.wals|, k, all, P.Flatten(wals[1..]) == [],
               |P.Flatten(mems[..Later(m, k)])| <= |wals[0]|);
  }

  lemma NamedReadable(m: Manifest, found: map<u32, seq<Entry>>, levels: DbLevels, wals: seq<seq<Entry>>,
                      mems: seq<seq<Entry>>, log: seq<Entry>, first: nat, k: nat)
    requires Begins(m, found, levels, log, first) && WalFiles.Split(wals, mems, log) && Tidy(m, found, levels)
    requires k < |m.wals| + |wals| - 1
    ensures var named := AllIds(m, |wals|)[k..];
            |named| == |m.wals| + |wals| - 1 - k
            && forall w :: w in named ==> w in Logs(m, found, wals) && LsnsIncrease(Logs(m, found, wals)[w])
  {
    BeginsOpened(m, found, levels, log, first);
    hide P.Flatten, Once, Begins, Found, Tidy, Logs, WalFiles.Split, LsnsIncrease;
    SplitSizes(wals, mems, log);
    var named := AllIds(m, |wals|)[k..];
    forall w | w in named ensures w in Logs(m, found, wals) && LsnsIncrease(Logs(m, found, wals)[w]) {
      var p :| 0 <= p < |named| && named[p] == w;
      LogAt(m, found, levels, wals, k + p);
      LogsIncrease(m, found, levels, wals, mems, log, first, w);
    }
  }

  lemma SplitSizes(wals: seq<seq<Entry>>, mems: seq<seq<Entry>>, log: seq<Entry>)
    requires WalFiles.Split(wals, mems, log)
    ensures |wals| == |mems| > 0
  {}

  lemma UnheldAt(m: Manifest, found: map<u32, seq<Entry>>, levels: DbLevels, wals: seq<seq<Entry>>,
                 mems: seq<seq<Entry>>, log: seq<Entry>, first: nat, k: nat, out: Levels.Files, named: seq<u32>, p: nat)
    requires Begins(m, found, levels, log, first) && WalFiles.Split(wals, mems, log) && Tidy(m, found, levels)
    requires Writes(m, found, mems, k, out) && k + p < |m.wals| + |wals| - 1 && named == AllIds(m, |wals|)[k..]
    ensures Later(m, k) < |mems| && p < |named| && named[p] in Logs(m, found, wals)
    ensures Unheld(Logs(m, found, wals)[named[p]], Total(WithL0(levels, out)))
            <==> k + p < |m.wals| || P.Flatten(wals[1..]) == [] || |P.Flatten(mems[..Later(m, k)])| <= |wals[0]|
  {
    hide *;
    BeginsOpened(m, found, levels, log, first);
    SplitSizes(wals, mems, log);
    NamedAt(m, |wals|, k, p);
    LogUnheldIff(m, found, levels, wals, mems, log, first, k, out, k + p);
  }

  lemma NamedUnheld(m: Manifest, found: map<u32, seq<Entry>>, levels: DbLevels, wals: seq<seq<Entry>>,
                    mems: seq<seq<Entry>>, log: seq<Entry>, first: nat, k: nat, out: Levels.Files, named: seq<u32>)
    requires Begins(m, found, levels, log, first) && WalFiles.Split(wals, mems, log) && Tidy(m, found, levels)
    requires Writes(m, found, mems, k, out) && k < |m.wals| + |wals| - 1 && named == AllIds(m, |wals|)[k..]
    requires forall w :: w in named ==> w in Logs(m, found, wals)
    ensures Later(m, k) < |mems| && |named| == |m.wals| + |wals| - 1 - k
    ensures forall p :: 0 <= p < |named| ==>
              (Unheld(Logs(m, found, wals)[named[p]], Total(WithL0(levels, out)))
               <==> k + p < |m.wals| || P.Flatten(wals[1..]) == [] || |P.Flatten(mems[..Later(m, k)])| <= |wals[0]|)
  {
    hide *;
    BeginsOpened(m, found, levels, log, first);
    SplitSizes(wals, mems, log);
    NamedAt(m, |wals|, k, 0);
    UnheldAt(m, found, levels, wals, mems, log, first, k, out, named, 0);
    forall p | 0 <= p < |named|
      ensures Unheld(Logs(m, found, wals)[named[p]], Total(WithL0(levels, out)))
              <==> k + p < |m.wals| || P.Flatten(wals[1..]) == [] || |P.Flatten(mems[..Later(m, k)])| <= |wals[0]|
    {
      UnheldAt(m, found, levels, wals, mems, log, first, k, out, named, p);
    }
  }

  lemma ApartAt(m: Manifest, found: map<u32, seq<Entry>>, levels: DbLevels, wals: seq<seq<Entry>>,
                mems: seq<seq<Entry>>, log: seq<Entry>, first: nat, k: nat, named: seq<u32>, p: nat, q: nat)
    requires Begins(m, found, levels, log, first) && WalFiles.Split(wals, mems, log) && Tidy(m, found, levels)
    requires p < q && k + q < |m.wals| + |wals| - 1 && named == AllIds(m, |wals|)[k..]
    ensures q < |named| && named[p] in Logs(m, found, wals) && named[q] in Logs(m, found, wals)
    ensures Apart(Logs(m, found, wals)[named[p]], Logs(m, found, wals)[named[q]])
            <==> k + p < |m.wals| || P.Flatten(wals[1..]) == []
  {
    hide *;
    BeginsOpened(m, found, levels, log, first);
    SplitSizes(wals, mems, log);
    NamedAt(m, |wals|, k, p);
    NamedAt(m, |wals|, k, q);
    LogsApartIff(m, found, levels, wals, mems, log, first, k + p, k + q);
  }

  lemma NamedApart(m: Manifest, found: map<u32, seq<Entry>>, levels: DbLevels, wals: seq<seq<Entry>>,
                   mems: seq<seq<Entry>>, log: seq<Entry>, first: nat, k: nat, named: seq<u32>)
    requires Begins(m, found, levels, log, first) && WalFiles.Split(wals, mems, log) && Tidy(m, found, levels)
    requires k < |m.wals| + |wals| - 1 && named == AllIds(m, |wals|)[k..]
    requires forall w :: w in named ==> w in Logs(m, found, wals)
    ensures forall p, q :: 0 <= p < q < |named| ==>
              (Apart(Logs(m, found, wals)[named[p]], Logs(m, found, wals)[named[q]])
               <==> k + p < |m.wals| || P.Flatten(wals[1..]) == [])
  {
    hide *;
    BeginsOpened(m, found, levels, log, first);
    SplitSizes(wals, mems, log);
    NamedAt(m, |wals|, k, 0);
    forall p, q | 0 <= p < q < |named|
      ensures Apart(Logs(m, found, wals)[named[p]], Logs(m, found, wals)[named[q]])
              <==> k + p < |m.wals| || P.Flatten(wals[1..]) == []
    {
      ApartAt(m, found, levels, wals, mems, log, first, k, named, p, q);
    }
  }

  lemma NamedAt(m: Manifest, n: nat, k: nat, p: nat)
    requires Opened(m) && n > 0 && k + p < |m.wals| + n - 1
    ensures |AllIds(m, n)| == |m.wals| + n - 1 && AllIds(m, n)[k..][p] == AllIds(m, n)[k + p]
    ensures |AllIds(m, n)[k..]| == |m.wals| + n - 1 - k
  {}

  lemma NoneYet(m: Manifest, mems: seq<seq<Entry>>, k: nat)
    requires k < |m.wals|
    ensures Later(m, k) == 0 && P.Flatten(mems[..0]) == []
  {}

  lemma CountNamed(logs: map<u32, seq<Entry>>, named: seq<u32>, levels: DbLevels, old': nat, k: nat, all: nat,
                   none: bool, behind: bool)
    requires (forall w :: w in named ==> w in logs) && |named| == all - k && old' <= all && (k < old' ==> behind)
    requires forall p :: 0 <= p < |named| ==>
               (Unheld(logs[named[p]], Total(levels)) <==> k + p < old' || none || behind)
    requires forall p, q :: 0 <= p < q < |named| ==> (Apart(logs[named[p]], logs[named[q]]) <==> k + p < old' || none)
    requires k < all
    ensures NamedOnce(logs, named, levels)
            <==> none || (all - (if k >= old' then k else old') <= 1 && (k >= old' ==> behind))
  {
    hide Unheld, Apart, Total;
    if !none {
      var p := if k >= old' then 0 else old' - k;
      if p + 1 < |named| {
        assert !Apart(logs[named[p]], logs[named[p + 1]]);
      }
      if k >= old' && !behind {
        assert !Unheld(logs[named[0]], Total(levels));
      }
    }
  }
}
