/** Recovery: rebuilding memtables from the manifest's WALs, and what a restart finds and hands out. */
module Recovery {
  import opened Codec
  import opened Entries
  import opened Memtables
  import opened Wals
  import opened Manifests
  import opened SstableFormat
  import Keys

  /** What reading a WAL file by name gives; a missing file or a wrong magic number is an error. */
  function LogOf(crc: Crc, disk: map<u32, Bytes>, w: u32): Log {
    if w in disk && HasMagic(disk[w]) then ReadAll(crc, disk[w][MAGIC_SIZE..]) else Log([], false)
  }

  /** Replays every WAL but the last into a frozen memtable and the last into the mutable one; a manifest without
      WALs and a damaged log are errors. Writes continue after the last LSN of the last WAL. */
  method ReplayWals(crc: Crc, disk: map<u32, Bytes>, wals: seq<u32>)
    returns (ok: bool, frozen: seq<seq<Entry>>, active: seq<Entry>, nextLsn: nat)
    ensures ok <==> Replayable(crc, disk, wals)
    ensures ok ==> Replayed(crc, disk, wals, frozen, active, nextLsn)
  {
    hide ReadAll, HasMagic, InsertAll, EncodeAll;
    ok, frozen, active, nextLsn := false, [], [], 0;
    if wals == [] { return; }
    var last := |wals| - 1;
    for i := 0 to last
      invariant |frozen| == i && !ok
      invariant forall j :: 0 <= j < i ==> LogOf(crc, disk, wals[j]).clean
      invariant forall j :: 0 <= j < i ==> frozen[j] == InsertAll([], LogOf(crc, disk, wals[j]).entries)
    {
      assert wals[i] in wals;
      if wals[i] !in disk { return; }
      var replayed, mem, _ := ReplayMutable(crc, disk[wals[i]]);
      if !replayed { return; }
      frozen := frozen + [mem.store];
    }
    assert wals[last] in wals;
    if wals[last] !in disk { return; }
    var replayed, mem, lastLsn := ReplayMutable(crc, disk[wals[last]]);
    if !replayed { return; }
    nextLsn := lastLsn;
    ok, active, nextLsn := true, mem.store, nextLsn + 1;
  }

  predicate Replayable(crc: Crc, disk: map<u32, Bytes>, wals: seq<u32>) {
    wals != [] && forall w :: w in wals ==> LogOf(crc, disk, w).clean
  }

  predicate Replayed(crc: Crc, disk: map<u32, Bytes>, wals: seq<u32>, frozen: seq<seq<Entry>>, active: seq<Entry>,
                     nextLsn: nat)
    requires wals != []
  {
    var last := LogOf(crc, disk, wals[|wals| - 1]).entries;
    && |frozen| == |wals| - 1
    && (forall i :: 0 <= i < |frozen| ==> frozen[i] == InsertAll([], LogOf(crc, disk, wals[i]).entries))
    && active == InsertAll([], last) && nextLsn == LastLsn(last) + 1
  }

  predicate Openable(crc: Crc, disk: map<u32, Bytes>, f: FileMeta) {
    f.fileId in disk && Open(crc, disk[f.fileId]).Opened?
  }

  /** The tables of a level, opened in its order. */
  predicate OpenedAs(crc: Crc, disk: map<u32, Bytes>, level: Level, ts: seq<Table>) {
    && |ts| == |level|
    && forall i :: 0 <= i < |ts| ==>
         level[i].fileId in disk && Open(crc, disk[level[i].fileId]) == Opened(ts[i])
  }

  method OpenLevel(crc: Crc, disk: map<u32, Bytes>, level: Level) returns (ok: bool, ts: seq<Table>)
    ensures ok <==> forall f :: f in level ==> Openable(crc, disk, f)
    ensures ok ==> OpenedAs(crc, disk, level, ts)
  {
    hide Open;
    ok, ts := false, [];
    for i := 0 to |level|
      invariant |ts| == i && !ok && OpenedAs(crc, disk, level[..i], ts)
    {
      assert level[i] in level;
      if level[i].fileId !in disk { return; }
      var t := Open(crc, disk[level[i].fileId]);
      if !t.Opened? { return; }
      ts := ts + [t.table];
    }
    assert level[..|level|] == level;
    ok := true;
  }

  /** Recovery: the WALs replayed, then every table of every level opened, in the manifest's order. It fails
      exactly when the manifest names no WAL, a WAL is missing or damaged, or a table is missing or does not open. */
  method RecoverState(crc: Crc, wals: map<u32, Bytes>, ssts: map<u32, Bytes>, m: Manifest)
    returns (ok: bool, frozen: seq<seq<Entry>>, active: seq<Entry>, tables: seq<seq<Table>>, nextLsn: nat)
    ensures ok <==> Replayable(crc, wals, m.wals) && forall l, f :: l in m.levels && f in l ==> Openable(crc, ssts, f)
    ensures ok ==> Replayed(crc, wals, m.wals, frozen, active, nextLsn)
    ensures ok ==> |tables| == |m.levels|
    ensures ok ==> forall n :: 0 <= n < |tables| ==> OpenedAs(crc, ssts, m.levels[n], tables[n])
  {
    hide Open, Replayable, Replayed, Openable, OpenedAs;
    tables := [];
    ok, frozen, active, nextLsn := ReplayWals(crc, wals, m.wals);
    if !ok { return; }
    assert m.wals != [] by { NamesAWal(crc, wals, m.wals); }
    for n := 0 to |m.levels|
      invariant |tables| == n && forall j :: 0 <= j < n ==> OpenedAs(crc, ssts, m.levels[j], tables[j])
      invariant forall j :: 0 <= j < n ==> forall f :: f in m.levels[j] ==> Openable(crc, ssts, f)
    {
      var found, ts := OpenLevel(crc, ssts, m.levels[n]);
      if !found {
        ok := false;
        assert m.levels[n] in m.levels;
        return;
      }
      tables := tables + [ts];
    }
  }

  lemma NamesAWal(crc: Crc, disk: map<u32, Bytes>, wals: seq<u32>)
    requires Replayable(crc, disk, wals)
    ensures wals != []
  {}

  /** A damaged record in any WAL that the manifest names makes recovery fail. */
  lemma DamagedRecordStopsRecovery(crc: Crc, disk: map<u32, Bytes>, wals: seq<u32>, w: u32, es: seq<Entry>, e: Entry,
                                   sum: u32, rest: Bytes)
    requires w in wals && w in disk && disk[w] == File(crc, es) + (Le(sum, 4) + (Entries.Encode(e) + rest))
    requires AllEncodable(es) && Entries.Encodable(e) && sum != crc(Entries.Encode(e))
    ensures LogOf(crc, disk, w) == Log(es, false) && !Replayable(crc, disk, wals)
  {
    hide Le, Records, ReadAll, Entries.Encode, Entries.Encodable;
    var bad := Le(sum, 4) + (Entries.Encode(e) + rest);
    assert disk[w] == Le(Wals.MAGIC, MAGIC_SIZE) + (Records(crc, es) + bad);
    ParseLe(Wals.MAGIC, Records(crc, es) + bad);
    assert disk[w][MAGIC_SIZE..] == Records(crc, es) + bad;
    DamagedRecordFails(crc, es, e, sum, rest);
  }

  /** So does a WAL that is not there, or without its magic number, or a manifest that names none; and a table that is
      not there or is refused does not open. */
  lemma RecoveryNeeds(crc: Crc, wals: map<u32, Bytes>, ssts: map<u32, Bytes>, m: Manifest)
    ensures m.wals == [] ==> !Replayable(crc, wals, m.wals)
    ensures forall w :: w in m.wals && w !in wals ==> !Replayable(crc, wals, m.wals)
    ensures forall w :: w in m.wals && w in wals && |wals[w]| < MAGIC_SIZE ==> !Replayable(crc, wals, m.wals)
    ensures forall w :: w in m.wals && w in wals && |wals[w]| >= MAGIC_SIZE && FromLe(wals[w][..4]) != Wals.MAGIC ==>
              !Replayable(crc, wals, m.wals)
    ensures forall f: FileMeta :: f.fileId !in ssts ==> !Openable(crc, ssts, f)
    ensures forall f: FileMeta :: f.fileId in ssts && Open(crc, ssts[f.fileId]).Refused? ==> !Openable(crc, ssts, f)
  {
    hide ReadAll, Open, FromLe;
    forall w | w in m.wals && (w !in wals || !HasMagic(wals[w])) ensures !Replayable(crc, wals, m.wals) {
      assert !LogOf(crc, wals, w).clean;
    }
  }

  /** After a crash at any byte of the log, a lookup in the recovered memtable answers with the last write
      among the records wholly before the crash. */
  lemma CrashedLookup(crc: Crc, log: seq<Entry>, cut: nat, k: Bytes)
    requires AllEncodable(log) && LsnsIncrease(log) && MAGIC_SIZE <= cut <= |File(crc, log)|
    ensures var n := Survivors(log, cut - MAGIC_SIZE);
            && LogOf(crc, map[0 := File(crc, log)[..cut]], 0) == Log(log[..n], true)
            && Visible(FirstFor(InsertAll([], log[..n]), k)) == Visible(LastWrite(log[..n], k))
  {
    hide Entries.Encode, Records, ReadAll, Survivors, InsertAll, LastWrite;
    var room, file := cut - MAGIC_SIZE, File(crc, log)[..cut];
    CrashPrefix(crc, log, room);
    assert file[MAGIC_SIZE..] == Records(crc, log)[..room];
    assert file == Le(Wals.MAGIC, MAGIC_SIZE) + file[MAGIC_SIZE..];
    ParseLe(Wals.MAGIC, file[MAGIC_SIZE..]);
    LookupIsLastWrite(log[..Survivors(log, room)], k);
  }

  // --- The LSN a restart begins with ---

  ghost predicate Fresh(next: nat, es: seq<Entry>) { forall e :: e in es ==> e.key.lsn < next }

  /** LSNs start at 1; what is in tables and frozen logs is older than what is in the last log. */
  ghost predicate History(older: seq<Entry>, last: seq<Entry>) {
    && LsnsIncrease(last) && (forall e :: e in older + last ==> e.key.lsn >= 1)
    && forall x, y :: x in older && y in last ==> x.key.lsn < y.key.lsn
  }

  /** The LSN that recovery goes on with is above every LSN in the database exactly when the last WAL is not empty, or
      nothing was ever written: an empty last WAL restarts at 1. */
  lemma RestartLsnIsFreshIff(crc: Crc, disk: map<u32, Bytes>, wals: seq<u32>, frozen: seq<seq<Entry>>,
                             active: seq<Entry>, nextLsn: nat, older: seq<Entry>)
    requires wals != [] && Replayed(crc, disk, wals, frozen, active, nextLsn)
    requires History(older, LogOf(crc, disk, wals[|wals| - 1]).entries)
    ensures var last := LogOf(crc, disk, wals[|wals| - 1]).entries;
            Fresh(nextLsn, older + last) <==> (last != [] || older == [])
  {
    hide LogOf, InsertAll;
    LastIsGreatest(older, LogOf(crc, disk, wals[|wals| - 1]).entries);
  }

  lemma LastIsGreatest(older: seq<Entry>, last: seq<Entry>)
    requires History(older, last)
    ensures Fresh(LastLsn(last) + 1, older + last) <==> (last != [] || older == [])
  {
    if last == [] {
      if older != [] {
        assert older[0] in older + last;
      }
    } else {
      var e := last[|last| - 1];
      assert e in last;
      forall x | x in older + last ensures x.key.lsn <= e.key.lsn {
        if x in last {
          var i :| 0 <= i < |last| && last[i] == x;
        }
      }
    }
  }

  /** What recovery's memtables hold is what the WALs read as: one memtable for each, the last mutable, each answering
      the last of its writes. */
  lemma RecoveredIsLogged(crc: Crc, disk: map<u32, Bytes>, wals: seq<u32>, frozen: seq<seq<Entry>>, active: seq<Entry>,
                          nextLsn: nat, i: nat, e: Entry, k: Bytes)
    requires wals != [] && Replayed(crc, disk, wals, frozen, active, nextLsn) && i < |wals|
    requires LsnsIncrease(LogOf(crc, disk, wals[i]).entries)
    ensures |frozen| == |wals| - 1
    ensures var mem, log := if i < |frozen| then frozen[i] else active, LogOf(crc, disk, wals[i]).entries;
            && (e in mem <==> e in log)
            && Visible(FirstFor(mem, k)) == Visible(LastWrite(log, k))
  {
    hide LogOf, InsertAll, LastWrite, FirstFor;
    HoldsTheLog(LogOf(crc, disk, wals[i]).entries);
    LookupIsLastWrite(LogOf(crc, disk, wals[i]).entries, k);
  }
}

/** From the write protocol to recovery: what an acknowledged write leaves on disk and in memory. */
module Durability {
  import opened Codec
  import opened Entries
  import opened Memtables
  import opened Wals
  import opened Recovery
  import P = WritePipeline
  import Proofs = PipelineProofs
  import Theorems = PipelineTheorems
  import Keys
  import Values

  /** The request of each writer: a user key and a value. */
  datatype Request = Request(key: Bytes, value: Values.Value)

  /** The entry a record stands for. */
  function EntryOf(reqs: seq<Request>, r: P.Rec): Entry
    requires r.writer < |reqs| && r.lsn <= Keys.MAX_LSN
  {
    Entry(Keys.Key(reqs[r.writer].key, r.lsn), reqs[r.writer].value)
  }

  predicate Sized(reqs: seq<Request>, recs: seq<P.Rec>) {
    forall i :: 0 <= i < |recs| ==> recs[i].writer < |reqs| && recs[i].lsn <= Keys.MAX_LSN
  }

  function EntriesOf(reqs: seq<Request>, recs: seq<P.Rec>): (r: seq<Entry>)
    requires Sized(reqs, recs)
    ensures |r| == |recs| && forall i :: 0 <= i < |r| ==> r[i] == EntryOf(reqs, recs[i])
  {
    seq(|recs|, i requires 0 <= i < |recs| => EntryOf(reqs, recs[i]))
  }

  /** One request per writer, and LSNs within 64 bits. */
  predicate Fits(s: P.State, reqs: seq<Request>) {
    |reqs| == |s.pc| && s.start + |s.log| <= Keys.MAX_LSN + 1
  }

  /** Element i of part f of a concatenation. */
  lemma {:induction false} Locate<T>(parts: seq<seq<T>>, k: nat) returns (f: nat, i: nat)
    requires k < |P.Flatten(parts)|
    ensures f < |parts| && i < |parts[f]| && parts[f][i] == P.Flatten(parts)[k]
  {
    var n := |parts| - 1;
    var front := P.Flatten(parts[..n]);
    if k < |front| {
      f, i := Locate(parts[..n], k);
    } else {
      f, i := n, k - |front|;
    }
  }

  /** Part f of a concatenation is a stretch of it. */
  lemma {:induction false} Stretch<T>(parts: seq<seq<T>>, f: nat) returns (at: nat)
    requires f < |parts|
    ensures at + |parts[f]| <= |P.Flatten(parts)| && P.Flatten(parts)[at..at + |parts[f]|] == parts[f]
  {
    var n := |parts| - 1;
    if f < n {
      at := Stretch(parts[..n], f);
    } else {
      at := |P.Flatten(parts[..n])|;
    }
  }

  /** Each WAL holds a stretch of the log: requests of known writers, LSNs one apart. */
  lemma WalIsStretch(s: P.State, reqs: seq<Request>, f: nat) returns (at: nat)
    requires P.Inv(s) && Fits(s, reqs) && f < |s.wals|
    ensures Sized(reqs, s.wals[f]) && forall i :: 0 <= i < |s.wals[f]| ==> s.wals[f][i].lsn == s.start + at + i
  {
    hide P.Inv, P.Flatten;
    Theorems.AppliedIsPrefix(s);
    at := Stretch(s.wals, f);
    forall i | 0 <= i < |s.wals[f]|
      ensures s.wals[f][i].writer < |reqs| && s.wals[f][i].lsn == s.start + at + i
    {
      assert s.wals[f][i] == P.Flatten(s.wals)[at + i] == s.log[at + i];
      WriterOf(s, at + i);
    }
  }

  lemma WriterOf(s: P.State, k: nat)
    requires P.Inv(s) && k < |s.log|
    ensures s.log[k].writer < |s.pc|
  {
    hide P.MemberInv, P.QueueInv, P.GroupInv, P.WalInv, P.TicketInv, P.StoreInv;
    assert P.RecordAt(s.start, s.log, s.cuts, s.order, s.ticket, s.head, s.pos, s.group, k);
  }

  lemma WalLsnsIncrease(s: P.State, reqs: seq<Request>, f: nat)
    requires P.Inv(s) && Fits(s, reqs) && f < |s.wals|
    ensures Sized(reqs, s.wals[f]) && LsnsIncrease(EntriesOf(reqs, s.wals[f]))
  {
    hide P.Inv;
    var at := WalIsStretch(s, reqs, f);
  }

  /** The record of a put that returned Ok is in one of the WALs. */
  lemma AcknowledgedIsLogged(s: P.State, reqs: seq<Request>, w: nat) returns (f: nat, i: nat)
    requires P.Inv(s) && Fits(s, reqs) && w < |s.pc| && s.pc[w].Done?
    ensures f < |s.wals| && i < |s.wals[f]| && Sized(reqs, s.wals[f]) && s.wals[f][i].writer == w
  {
    hide P.Inv, P.Flatten;
    var k := Theorems.OkMeansStored(s, w);
    f, i := Locate(s.wals, k);
    var at := WalIsStretch(s, reqs, f);
  }

  /** Durability end to end: a record in a WAL is in the memtable recovered from its file, whatever other WALs of that
      file took before, whatever was appended later and wherever after the records then present a crash cut the file
      off. */
  lemma LoggedSurvives(crc: Crc, s: P.State, reqs: seq<Request>, f: nat, i: nat, earlier: seq<Entry>, later: seq<Entry>,
                       cut: nat)
    requires P.Inv(s) && Fits(s, reqs) && f < |s.wals| && i < |s.wals[f]| && Sized(reqs, s.wals[f])
    requires forall j :: 0 <= j < |reqs| ==> |reqs[j].key| < 0x1_0000 && Values.Encodable(reqs[j].value)
    requires AllEncodable(earlier + later) && LsnsIncrease(earlier + EntriesOf(reqs, s.wals[f]) + later)
    requires |File(crc, earlier + EntriesOf(reqs, s.wals[f]))| <= cut
             <= |File(crc, earlier + EntriesOf(reqs, s.wals[f]) + later)|
    ensures var l := LogOf(crc, map[0 := File(crc, earlier + EntriesOf(reqs, s.wals[f]) + later)[..cut]], 0);
            && l.clean && EntryOf(reqs, s.wals[f][i]) in InsertAll([], l.entries)
  {
    hide P.Inv, InsertAll, Values.Encodable, Entries.Encode, Records, ReadAll;
    var log := earlier + EntriesOf(reqs, s.wals[f]);
    EncodableParts(earlier, later);
    SyncedEntriesSurvive(crc, log, later, cut);
    var file := File(crc, log + later)[..cut];
    assert file == Le(MAGIC, MAGIC_SIZE) + file[MAGIC_SIZE..];
    ParseLe(MAGIC, file[MAGIC_SIZE..]);
    var l := LogOf(crc, map[0 := file], 0);
    assert l.entries[|earlier| + i] == log[|earlier| + i];
    PrefixIncreases(log + later, l.entries);
    HoldsTheLog(l.entries);
  }

  lemma EncodableParts(a: seq<Entry>, b: seq<Entry>)
    requires AllEncodable(a + b)
    ensures AllEncodable(a) && AllEncodable(b)
  {
    hide Entries.Encodable;
    forall i | 0 <= i < |a| ensures Entries.Encodable(a[i]) { assert (a + b)[i] == a[i]; }
    forall i | 0 <= i < |b| ensures Entries.Encodable(b[i]) { assert (a + b)[|a| + i] == b[i]; }
  }

  lemma PrefixIncreases(log: seq<Entry>, prefix: seq<Entry>)
    requires LsnsIncrease(log) && prefix <= log
    ensures LsnsIncrease(prefix)
  {}
}

/** Restarting from either of the two newest manifests, with the files there as a crash may have left them. */
module Restart {
  import opened Codec
  import opened Entries
  import opened Wals
  import opened Manifests
  import opened Recovery
  import opened Tables
  import R = Retention

  /** What a manifest names. */
  function NamesOf(m: Manifest): R.Names {
    R.Names(m.wals, set l, f | l in m.levels && f in l :: f.fileId)
  }

  /** The file is what was written of these records, cut off anywhere. */
  predicate CutLog(crc: Crc, file: Bytes, es: seq<Entry>) { AllEncodable(es) && file <= File(crc, es) }

  /** Both directories in bytes: logs possibly cut off, and finished tables. */
  ghost predicate Directories(env: Env, s: R.State, wals: map<u32, Bytes>, ssts: map<u32, Bytes>,
                              logs: map<u32, seq<Entry>>, tables: map<u32, seq<Entry>>) {
    && wals.Keys == s.wals == logs.Keys && ssts.Keys == s.ssts == tables.Keys
    && (forall w :: w in wals ==> CutLog(env.crc, wals[w], logs[w]))
    && forall f :: f in ssts ==> Holds(env, ssts[f], tables[f]) && Sorted(tables[f])
  }

  /** RecoverState succeeds. */
  predicate Recovers(crc: Crc, wals: map<u32, Bytes>, ssts: map<u32, Bytes>, m: Manifest) {
    Replayable(crc, wals, m.wals) && forall l, f :: l in m.levels && f in l ==> Openable(crc, ssts, f)
  }

  /** A cut log reads clean exactly when its magic number is whole; then its whole records are read. */
  lemma CutLogReads(crc: Crc, wals: map<u32, Bytes>, w: u32, es: seq<Entry>)
    requires w in wals && CutLog(crc, wals[w], es)
    ensures LogOf(crc, wals, w).clean <==> |wals[w]| >= MAGIC_SIZE
    ensures |wals[w]| >= MAGIC_SIZE ==> LogOf(crc, wals, w).entries == es[..Survivors(es, |wals[w]| - MAGIC_SIZE)]
  {
    hide Records, ReadAll, Survivors, AllEncodable;
    var file := wals[w];
    if |file| >= MAGIC_SIZE {
      var room := |file| - MAGIC_SIZE;
      CrashPrefix(crc, es, room);
      assert file[MAGIC_SIZE..] == Records(crc, es)[..room];
      assert file == Le(Wals.MAGIC, MAGIC_SIZE) + file[MAGIC_SIZE..];
      ParseLe(Wals.MAGIC, file[MAGIC_SIZE..]);
    }
  }

  lemma FinishedOpens(env: Env, ssts: map<u32, Bytes>, f: FileMeta, es: seq<Entry>)
    requires f.fileId in ssts && Holds(env, ssts[f.fileId], es) && Sorted(es)
    ensures Openable(env.crc, ssts, f)
  {
    hide Holds, Sorted;
    var t := HoldsMeans(env, ssts[f.fileId], es, []);
  }

  /** What one of the two newest manifests names exists. */
  lemma NamedExists(s: R.State, m: Manifest)
    requires R.Recoverable(s) && NamesOf(m) in R.LastTwo(s)
    ensures forall w :: w in m.wals ==> w in s.wals
    ensures forall l, f :: l in m.levels && f in l ==> f.fileId in s.ssts
  {
    assert R.Present(s, NamesOf(m));
    hide R.Recoverable, R.LastTwo;
    forall w | w in m.wals ensures w in s.wals { assert w in R.Wals(NamesOf(m)); }
    forall l, f | l in m.levels && f in l ensures f.fileId in s.ssts { assert f.fileId in NamesOf(m).ssts; }
  }

  /** In every run of rotations, flushes, compactions and collections with no listing inside a rotation, from a crash
      at any moment that leaves logs cut off anywhere and tables as they were finished: recovery from either of the two
      newest manifests succeeds exactly when that manifest names a WAL and every WAL it names kept its whole magic
      number; each log then gives back the records that are whole. */
  lemma {:induction false} LastTwoRecoverIff(run: seq<R.State>, i: nat, env: Env, wals: map<u32, Bytes>,
                                             ssts: map<u32, Bytes>, logs: map<u32, seq<Entry>>,
                                             tables: map<u32, seq<Entry>>, m: Manifest)
    requires i < |run| && R.Inv(run[0])
    requires forall j :: 0 <= j < i ==> R.Next(run[j], run[j + 1]) && R.AtomicRotation(run[j], run[j + 1])
    requires Directories(env, run[i], wals, ssts, logs, tables) && NamesOf(m) in R.LastTwo(run[i])
    ensures forall w :: w in m.wals ==> w in wals && w in logs
    ensures Recovers(env.crc, wals, ssts, m) <==> m.wals != [] && forall w :: w in m.wals ==> |wals[w]| >= MAGIC_SIZE
    ensures forall w :: w in m.wals && |wals[w]| >= MAGIC_SIZE ==>
              LogOf(env.crc, wals, w) == Log(logs[w][..Survivors(logs[w], |wals[w]| - MAGIC_SIZE)], true)
  {
    hide R.Next, R.AtomicRotation, R.Inv, R.Recoverable, R.LastTwo, NamesOf, CutLog, Holds, Sorted, LogOf, Openable,
         Survivors;
    R.LastTwoAlwaysRecoverable(run, i);
    NamedExists(run[i], m);
    forall w | w in m.wals
      ensures w in wals && (LogOf(env.crc, wals, w).clean <==> |wals[w]| >= MAGIC_SIZE)
      ensures |wals[w]| >= MAGIC_SIZE ==>
                LogOf(env.crc, wals, w).entries == logs[w][..Survivors(logs[w], |wals[w]| - MAGIC_SIZE)]
    {
      CutLogReads(env.crc, wals, w, logs[w]);
    }
    forall l, f | l in m.levels && f in l ensures Openable(env.crc, ssts, f) {
      FinishedOpens(env, ssts, f, tables[f.fileId]);
    }
  }
}
