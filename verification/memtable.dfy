/** The memtable: a sorted map from internal keys to values, plus a byte count. */
module Memtables {
  import opened Codec
  import opened Entries
  import Keys
  import Values

  /** Sorted-map insertion; an entry with the same internal key is replaced. */
  function Insert(store: seq<Entry>, e: Entry): (r: seq<Entry>)
    requires StrictlySorted(store)
    ensures StrictlySorted(r)
    ensures forall x :: x in r <==> x == e || (x in store && x.key != e.key)
  {
    if store == [] then [e]
    else
      assert store == [store[0]] + store[1..];
      Keys.Trichotomy(e.key, store[0].key);
      if Keys.Less(e.key, store[0].key) then
        Below(e.key, store);
        [e] + store
      else if e.key == store[0].key then
        Below(e.key, store[1..]);
        [e] + store[1..]
      else
        var tail := Insert(store[1..], e);
        assert forall x :: x in tail ==> Keys.Less(store[0].key, x.key);
        [store[0]] + tail
  }

  /** A key below the head of a strictly sorted sequence is below all of it. */
  lemma Below(k: Keys.Key, store: seq<Entry>)
    requires StrictlySorted(store)
    requires store != [] ==> Keys.Less(k, store[0].key)
    ensures forall x :: x in store ==> Keys.Less(k, x.key) && x.key != k
  {
    Keys.TotalOrder();
  }

  function InsertAll(store: seq<Entry>, log: seq<Entry>): (r: seq<Entry>)
    requires StrictlySorted(store)
    ensures StrictlySorted(r)
    decreases |log|
  {
    if log == [] then store
    else Insert(InsertAll(store, log[..|log| - 1]), log[|log| - 1])
  }

  /** The newest version of k among the writes of a log: highest LSN, the later write winning a tie. */
  function Newest(log: seq<Entry>, k: Bytes): (r: Option<Entry>)
    ensures r.Some? ==> r.value in log && r.value.key.bytes == k
    decreases |log|
  {
    if log == [] then None
    else
      var e := log[|log| - 1];
      var before := Newest(log[..|log| - 1], k);
      if e.key.bytes == k && (before.None? || e.key.lsn >= before.value.key.lsn) then Some(e) else before
  }

  /** The last write to k in the log, whatever its LSN. */
  function LastWrite(log: seq<Entry>, k: Bytes): Option<Entry>
    decreases |log|
  {
    if log == [] then None
    else if log[|log| - 1].key.bytes == k then Some(log[|log| - 1])
    else LastWrite(log[..|log| - 1], k)
  }

  predicate LsnsIncrease(log: seq<Entry>) {
    forall i, j :: 0 <= i < j < |log| ==> log[i].key.lsn < log[j].key.lsn
  }

  /** Tombstones read as absent. */
  function Visible(e: Option<Entry>): Option<Values.Value> {
    if e.Some? && !e.value.value.Tombstone? then Some(e.value.value) else None
  }

  lemma {:induction false} InsertFirst(store: seq<Entry>, e: Entry, k: Bytes)
    requires StrictlySorted(store)
    ensures var was := FirstFor(store, k);
            FirstFor(Insert(store, e), k) ==
            if e.key.bytes == k && (was.None? || e.key.lsn >= was.value.key.lsn) then Some(e) else was
  {
    if store != [] {
      var h, t := store[0], store[1..];
      Keys.Trichotomy(e.key, h.key);
      Keys.BytesTrichotomy(e.key.bytes, h.key.bytes);
      assert StrictlySorted(t);
      if Keys.Less(e.key, h.key) {
        assert ([e] + store)[1..] == store;
        if e.key.bytes == k && h.key.bytes != k {
          NoneBeyond(store, k);
        }
      } else if e.key == h.key {
        assert ([e] + t)[1..] == t;
      } else {
        assert ([h] + Insert(t, e))[1..] == Insert(t, e);
        InsertFirst(t, e, k);
      }
    }
  }

  /** If the head's bytes are beyond k, no entry is for k. */
  lemma NoneBeyond(store: seq<Entry>, k: Bytes)
    requires StrictlySorted(store)
    requires store != [] && Keys.BytesLess(k, store[0].key.bytes)
    ensures FirstFor(store, k).None?
  {
    forall x | x in store ensures x.key.bytes != k {
      var i :| 0 <= i < |store| && store[i] == x;
      Keys.BytesTrichotomy(k, store[0].key.bytes);
      if i > 0 {
        assert Keys.Less(store[0].key, store[i].key);
        Keys.BytesTrichotomy(store[0].key.bytes, x.key.bytes);
      }
    }
  }

  /** Whatever order the writes arrive in, the first entry for k is its newest version. */
  lemma {:induction false} FirstIsNewestWrite(log: seq<Entry>, k: Bytes)
    ensures FirstFor(InsertAll([], log), k) == Newest(log, k)
    decreases |log|
  {
    if log != [] {
      FirstIsNewestWrite(log[..|log| - 1], k);
      InsertFirst(InsertAll([], log[..|log| - 1]), log[|log| - 1], k);
    }
  }

  lemma {:induction false} NewestIsLast(log: seq<Entry>, k: Bytes)
    requires LsnsIncrease(log)
    ensures Newest(log, k) == LastWrite(log, k)
    decreases |log|
  {
    if log != [] {
      NewestIsLast(log[..|log| - 1], k);
    }
  }

  /** Memtable refinement: after writes with increasing LSNs a lookup is a lookup in a
      last-write-wins map whose tombstones read as absent. */
  lemma LookupIsLastWrite(log: seq<Entry>, k: Bytes)
    requires LsnsIncrease(log)
    ensures Visible(FirstFor(InsertAll([], log), k)) == Visible(LastWrite(log, k))
  {
    FirstIsNewestWrite(log, k);
    NewestIsLast(log, k);
  }

  /** With no internal key written twice, the memtable holds exactly the log's entries. */
  lemma {:induction false} HoldsTheLog(log: seq<Entry>)
    requires forall i, j :: 0 <= i < j < |log| ==> log[i].key != log[j].key
    ensures forall x :: x in InsertAll([], log) <==> x in log
    decreases |log|
  {
    if log != [] {
      var n := |log| - 1;
      HoldsTheLog(log[..n]);
      assert log == log[..n] + [log[n]];
    }
  }

  lemma InsertAllSnoc(store: seq<Entry>, a: seq<Entry>, e: Entry)
    requires StrictlySorted(store)
    ensures InsertAll(store, a + [e]) == Insert(InsertAll(store, a), e)
  {
    assert (a + [e])[..|a|] == a;
  }

  /** Batch after batch builds the same memtable as their concatenation. */
  lemma {:induction false} InsertAllAppend(store: seq<Entry>, a: seq<Entry>, b: seq<Entry>)
    requires StrictlySorted(store)
    ensures InsertAll(store, a + b) == InsertAll(InsertAll(store, a), b)
    decreases |b|
  {
    if b == [] {
      assert a + b == a;
    } else {
      var n := |b| - 1;
      var init, e := b[..n], b[n];
      assert b == init + [e] && a + b == (a + init) + [e];
      InsertAllAppend(store, a, init);
      InsertAllSnoc(store, a + init, e);
      InsertAllSnoc(InsertAll(store, a), init, e);
    }
  }

  class Memtable {
    var store: seq<Entry>
    var sizeBytes: nat

    ghost predicate Valid()
      reads this
    {
      StrictlySorted(store)
    }

    constructor ()
      ensures Valid() && store == [] && sizeBytes == 0
    {
      store, sizeBytes := [], 0;
    }

    /** Inserts one entry and adds its encoded length, headers included, to the size. */
    method Recover(e: Entry)
      requires Valid()
      modifies this
      ensures Valid() && store == Insert(old(store), e)
      ensures sizeBytes == old(sizeBytes) + |Entries.Encode(e)|
    {
      var valueLen := match e.value
        case Blob(b) => |b|
        case Str(s) => |s|
        case Int(_) => 8
        case Tombstone => 0;
      sizeBytes := sizeBytes + (Keys.HEADER_SIZE + |e.key.bytes| + Values.HEADER_SIZE + valueLen);
      store := Insert(store, e);
    }

    method PutBatch(batch: seq<Entry>)
      requires Valid()
      modifies this
      ensures Valid() && store == InsertAll(old(store), batch)
      ensures sizeBytes == old(sizeBytes) + |EncodeAll(batch)|
    {
      hide Insert, Entries.Encode;
      for i := 0 to |batch|
        invariant Valid() && store == InsertAll(old(store), batch[..i])
        invariant sizeBytes == old(sizeBytes) + |EncodeAll(batch[..i])|
      {
        Recover(batch[i]);
        assert batch[..i + 1] == batch[..i] + [batch[i]];
        assert batch[..i + 1][..i] == batch[..i];
        EncodeAllAppend(batch[..i], [batch[i]]);
        EncodeOne(batch[i]);
      }
      assert batch[..|batch|] == batch;
    }

    /** The range scan: the first entry between the newest and the oldest conceivable version of k. */
    method Get(k: Bytes) returns (r: Option<Values.Value>)
      requires Valid()
      ensures r == Visible(FirstFor(store, k))
    {
      hide Keys.Less, FirstFor;
      var start, end := Keys.Key(k, Keys.MAX_LSN), Keys.Key(k, 0);
      var i := 0;
      assert store[0..] == store;
      while i < |store| && !Keys.Leq(start, store[i].key)
        invariant 0 <= i <= |store|
        invariant FirstFor(store, k) == FirstFor(store[i..], k)
      {
        NotYet(store[i..], k);
        assert store[i..][1..] == store[i + 1..];
        i := i + 1;
      }
      if i == |store| { NothingLeft(store[i..], k); }
      if i < |store| && Keys.Leq(store[i].key, end) {
        StartsHere(store[i..], k);
        var v := store[i].value;
        r := if v.Tombstone? then None else Some(v);
      } else {
        if i < |store| {
          EndsBefore(store[i..], k);
        }
        r := None;
      }
    }
  }

  /** An entry before the range's start is not for k. */
  lemma NotYet(tail: seq<Entry>, k: Bytes)
    requires tail != [] && !Keys.Leq(Keys.Key(k, Keys.MAX_LSN), tail[0].key)
    ensures FirstFor(tail, k) == FirstFor(tail[1..], k)
  {
    Keys.VersionsAreContiguous(k, tail[0].key);
  }

  lemma StartsHere(tail: seq<Entry>, k: Bytes)
    requires tail != [] && Keys.Leq(Keys.Key(k, Keys.MAX_LSN), tail[0].key) && Keys.Leq(tail[0].key, Keys.Key(k, 0))
    ensures FirstFor(tail, k) == Some(tail[0])
  {
    Keys.VersionsAreContiguous(k, tail[0].key);
  }

  lemma NothingLeft(tail: seq<Entry>, k: Bytes)
    requires tail == []
    ensures FirstFor(tail, k).None?
  {}

  /** If the first entry at or after the range's start is past its end, nothing is for k. */
  lemma EndsBefore(tail: seq<Entry>, k: Bytes)
    requires StrictlySorted(tail) && tail != []
    requires Keys.Leq(Keys.Key(k, Keys.MAX_LSN), tail[0].key) && !Keys.Leq(tail[0].key, Keys.Key(k, 0))
    ensures FirstFor(tail, k).None?
  {
    Keys.VersionsAreContiguous(k, tail[0].key);
    Keys.BytesTrichotomy(k, tail[0].key.bytes);
    NoneBeyond(tail, k);
  }
}
