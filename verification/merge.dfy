/** The k-way merge behind compaction: a heap of heads over table iterators. */
module Merging {
  import opened Codec
  import opened Entries
  import opened SstableFormat
  import opened SstableReaders
  import Keys

  /** A head in the heap and the input it came from. */
  datatype Item = Item(entry: Entry, iter: nat)

  /** Takes a least item out of the heap; which one, when keys tie, is not specified. */
  method PopMin(heap: seq<Item>) returns (item: Item, rest: seq<Item>, ghost at: nat)
    requires heap != []
    ensures at < |heap| && item == heap[at] && rest == heap[..at] + heap[at + 1..]
    ensures forall x :: x in heap ==> Keys.Leq(item.entry.key, x.entry.key)
  {
    var m := 0;
    for i := 1 to |heap|
      invariant m < i
      invariant forall j :: 0 <= j < i ==> Keys.Leq(heap[m].entry.key, heap[j].entry.key)
    {
      if Keys.Less(heap[i].entry.key, heap[m].entry.key) {
        NewLeast(heap, m, i);
        m := i;
      } else {
        Keys.Trichotomy(heap[i].entry.key, heap[m].entry.key);
      }
    }
    return heap[m], heap[..m] + heap[m + 1..], m;
  }

  lemma NewLeast(heap: seq<Item>, m: nat, i: nat)
    requires m < i < |heap| && Keys.Less(heap[i].entry.key, heap[m].entry.key)
    requires forall j :: 0 <= j < i ==> Keys.Leq(heap[m].entry.key, heap[j].entry.key)
    ensures forall j :: 0 <= j <= i ==> Keys.Leq(heap[i].entry.key, heap[j].entry.key)
  {
    forall j | 0 <= j < i ensures Keys.Leq(heap[i].entry.key, heap[j].entry.key) {
      Keys.Transitive(heap[i].entry.key, heap[m].entry.key, heap[j].entry.key);
    }
  }

  /** The heap holds exactly the head of every input that still has something due. */
  predicate Heads(heap: seq<Item>, due: seq<Log>) {
    && (forall a :: 0 <= a < |heap| ==>
          heap[a].iter < |due| && due[heap[a].iter].entries != [] && heap[a].entry == due[heap[a].iter].entries[0])
    && (forall a, b :: 0 <= a < b < |heap| ==> heap[a].iter != heap[b].iter)
    && (forall i :: 0 <= i < |due| && due[i].entries != [] ==> Item(due[i].entries[0], i) in heap)
  }

  /** Without its least item, the heap holds the heads of the other inputs. */
  predicate HeadsBut(heap: seq<Item>, due: seq<Log>, i: nat) {
    && (forall a :: 0 <= a < |heap| ==>
          && heap[a].iter < |due| && heap[a].iter != i
          && due[heap[a].iter].entries != [] && heap[a].entry == due[heap[a].iter].entries[0])
    && (forall a, b :: 0 <= a < b < |heap| ==> heap[a].iter != heap[b].iter)
    && (forall j :: 0 <= j < |due| && j != i && due[j].entries != [] ==> Item(due[j].entries[0], j) in heap)
  }

  lemma PopHead(heap: seq<Item>, due: seq<Log>, at: nat)
    requires Heads(heap, due) && at < |heap|
    ensures HeadsBut(heap[..at] + heap[at + 1..], due, heap[at].iter)
  {
    var i, rest := heap[at].iter, heap[..at] + heap[at + 1..];
    forall a | 0 <= a < |rest| ensures rest[a] == heap[if a < at then a else a + 1] {}
    forall j | 0 <= j < |due| && j != i && due[j].entries != [] ensures Item(due[j].entries[0], j) in rest {
      var b :| 0 <= b < |heap| && heap[b] == Item(due[j].entries[0], j);
      assert rest[if b < at then b else b - 1] == heap[b];
    }
  }

  lemma PushHead(rest: seq<Item>, due: seq<Log>, i: nat, next: Log, heap: seq<Item>)
    requires i < |due| && HeadsBut(rest, due, i)
    requires heap == rest + (if next.entries == [] then [] else [Item(next.entries[0], i)])
    ensures Heads(heap, due[i := next])
  {
    var due' := due[i := next];
    forall j | 0 <= j < |due'| && due'[j].entries != [] ensures Item(due'[j].entries[0], j) in heap {
      if j == i {
        assert heap[|rest|] == Item(next.entries[0], i);
      } else {
        assert Item(due[j].entries[0], j) in rest;
      }
    }
  }

  /** A least item of the heap is the least of all heads. */
  lemma HeadOf(heap: seq<Item>, due: seq<Log>, at: nat)
    requires Heads(heap, due) && at < |heap|
    requires forall x :: x in heap ==> Keys.Leq(heap[at].entry.key, x.entry.key)
    ensures var i := heap[at].iter; i < |due| && due[i].entries != [] && heap[at].entry == due[i].entries[0]
    ensures forall i :: 0 <= i < |due| && due[i].entries != [] ==>
              Keys.Leq(heap[at].entry.key, due[i].entries[0].key)
  {
    hide Keys.Leq;
    forall i | 0 <= i < |due| && due[i].entries != [] ensures Keys.Leq(heap[at].entry.key, due[i].entries[0].key) {
      assert Item(due[i].entries[0], i) in heap;
    }
  }

  lemma NoHeap(heap: seq<Item>, due: seq<Log>)
    requires Heads(heap, due)
    ensures heap == [] ==> forall i :: 0 <= i < |due| ==> due[i].entries == []
  {}

  /** After the input of the popped item moved on. */
  lemma HeadsAfterPop(heap: seq<Item>, due: seq<Log>, at: nat, next: Log, heap': seq<Item>)
    requires Heads(heap, due) && at < |heap| && heap[at].iter < |due|
    requires heap' == heap[..at] + heap[at + 1..]
                      + (if next.entries == [] then [] else [Item(next.entries[0], heap[at].iter)])
    ensures Heads(heap', due[heap[at].iter := next])
  {
    hide Heads, HeadsBut;
    PopHead(heap, due, at);
    PushHead(heap[..at] + heap[at + 1..], due, heap[at].iter, next, heap');
  }

  // --- What is left to read ---

  function Sum(xs: seq<nat>): nat {
    if xs == [] then 0 else xs[0] + Sum(xs[1..])
  }

  lemma {:induction false} SumAt(xs: seq<nat>, ys: seq<nat>, i: nat)
    requires i < |xs| == |ys| && forall j :: 0 <= j < |xs| && j != i ==> ys[j] == xs[j]
    ensures Sum(ys) + xs[i] == Sum(xs) + ys[i]
  {
    if i == 0 {
      assert xs[1..] == ys[1..];
    } else {
      SumAt(xs[1..], ys[1..], i - 1);
    }
  }

  ghost function UnreadOf(iters: seq<SstableIterator>): (r: seq<nat>)
    reads iters
    ensures |r| == |iters| && forall i :: 0 <= i < |r| ==> r[i] == iters[i].Unread()
  {
    seq(|iters|, i requires 0 <= i < |iters| reads iters => iters[i].Unread())
  }

  ghost function LoadedOf(iters: seq<SstableIterator>): (r: seq<nat>)
    reads iters
    ensures |r| == |iters| && forall i :: 0 <= i < |r| ==> r[i] == |iters[i].cursor|
  {
    seq(|iters|, i requires 0 <= i < |iters| reads iters => |iters[i].cursor|)
  }

  /** What an input still yields, its head being in the heap. */
  function DueOf(was: Log, rest: Log): Log {
    if was.entries == [] then was else Log([was.entries[0]] + rest.entries, rest.clean)
  }

  class MergeIterator {
    var heap: seq<Item>
    const iters: seq<SstableIterator>
    ghost var due: seq<Log>

    ghost function Repr(): set<object> {
      {this} + set i: object | i in iters
    }

    /** What is due from input i: its head in the heap, then whatever its iterator has left. */
    ghost predicate Valid()
      reads this, iters
    {
      && |due| == |iters|
      && (forall i, j :: 0 <= i < j < |iters| ==> iters[i] != iters[j])
      && (forall i :: 0 <= i < |due| && due[i].entries == [] ==> due[i].clean)
      && (forall i :: 0 <= i < |due| && due[i].entries != [] ==>
            iters[i].Rest() == Log(due[i].entries[1..], due[i].clean))
      && Heads(heap, due)
    }

    ghost function Blocks(): nat
      reads iters
    {
      Sum(UnreadOf(iters))
    }

    ghost function Loaded(): nat
      reads iters
    {
      Sum(LoadedOf(iters))
    }

    /** Less is left than before: fewer blocks to read, or less of those read, or fewer heads. */
    twostate predicate Nearer()
      reads this, iters
    {
      || Blocks() < old(Blocks())
      || (Blocks() == old(Blocks()) && Loaded() < old(Loaded()))
      || (Blocks() == old(Blocks()) && Loaded() == old(Loaded()) && |heap| < |old(heap)|)
    }

    constructor (heap: seq<Item>, iters: seq<SstableIterator>, ghost due: seq<Log>)
      ensures this.heap == heap && this.iters == iters && this.due == due
    {
      this.heap, this.iters, this.due := heap, iters, due;
    }

    lemma Sizes()
      requires Valid()
      ensures |due| == |iters|
    {}

    lemma RestsDue()
      requires Valid()
      ensures forall i :: 0 <= i < |due| && due[i].entries != [] ==>
                iters[i].Rest() == Log(due[i].entries[1..], due[i].clean)
    {
      hide Heads, SstableIterator.Rest;
    }

    lemma Distinct()
      requires Valid()
      ensures forall i, j :: 0 <= i < j < |iters| ==> iters[i] != iters[j]
    {
      hide Heads, SstableIterator.Rest;
    }

    /** Takes the next entry of one input. */
    method Advance(i: nat, input: SstableIterator) returns (r: Yield)
      requires i < |iters| && input == iters[i]
      requires forall a, b :: 0 <= a < b < |iters| ==> iters[a] != iters[b]
      modifies input`blockIdx, input`cursor
      ensures r.Finished? ==> old(input.Rest()) == Log([], true)
      ensures r.Failed? ==> old(input.Rest()) == Log([], false)
      ensures r.Yielded? ==> old(input.Rest()) == Log([r.entry] + input.Rest().entries, input.Rest().clean)
      ensures Blocks() < old(Blocks()) || (Blocks() == old(Blocks()) && Loaded() <= old(Loaded()))
      ensures r.Yielded? ==> Blocks() < old(Blocks()) || Loaded() < old(Loaded())
      ensures input.Unread() <= old(input.Unread())
    {
      hide Remaining, Sum;
      r := input.Next();
      SumAt(old(UnreadOf(iters)), UnreadOf(iters), i);
      SumAt(old(LoadedOf(iters)), LoadedOf(iters), i);
    }

    /** Pops the least head and refills the heap from the input it came from. An error of that input
        is returned instead of the popped entry. */
    method Next() returns (r: Yield, ghost from: nat)
      requires Valid()
      modifies this, iters`blockIdx, iters`cursor
      ensures r.Finished? ==> forall i :: 0 <= i < |old(due)| ==> old(due)[i] == Log([], true)
      ensures r.Failed? ==> exists i :: 0 <= i < |old(due)| && !old(due)[i].clean
      ensures r.Yielded? ==>
                && Valid() && from < |old(due)| && old(due)[from].entries != [] && r.entry == old(due)[from].entries[0]
                && due == old(due)[from := Log(old(due)[from].entries[1..], old(due)[from].clean)]
                && forall i :: 0 <= i < |old(due)| && old(due)[i].entries != [] ==>
                     Keys.Leq(r.entry.key, old(due)[i].entries[0].key)
      ensures r.Yielded? ==> Nearer()
      ensures forall i: nat :: i < |iters| ==> iters[i].Unread() <= old(iters[i].Unread())
    {
      hide Remaining, Keys.Leq, Keys.Less, Sum, Blocks, Loaded, SstableIterator.Rest, Heads;
      ghost var before, was := due, heap;
      from := 0;
      NoHeap(heap, due);
      if heap == [] { return Finished, 0; }
      var item, rest, at := PopMin(heap);
      HeadOf(heap, due, at);
      heap := rest;
      from := item.iter;
      label L:
      var next := Advance(item.iter, iters[item.iter]);
      if next.Failed? {
        assert !before[item.iter].clean;
        return Failed, from;
      }
      if next.Yielded? {
        heap := heap + [Item(next.entry, item.iter)];
      }
      due := due[from := Log(due[from].entries[1..], due[from].clean)];
      HeadsAfterPop(was, before, at, due[from], heap);
      return Yielded(item.entry), from;
    }

    /** The file input i reads is written from outside: what was due of it stays due if it has nothing left to read. */
    method Overwrite(i: nat, input: SstableIterator, bytes: Bytes)
      requires Valid() && i < |iters| && input == iters[i]
      modifies this`due, input`file
      ensures Valid() && input.file == bytes
      ensures |due| == |old(due)| && forall j :: 0 <= j < |due| && j != i ==> due[j] == old(due)[j]
      ensures old(due)[i].entries == [] || input.Unread() == 0 ==> due == old(due)
      ensures Blocks() == old(Blocks()) && Loaded() == old(Loaded())
    {
      hide Remaining, Sum, Heads;
      Rewrite(input, bytes);
      assert UnreadOf(iters) == old(UnreadOf(iters)) && LoadedOf(iters) == old(LoadedOf(iters));
      hide SstableIterator.Rest;
      if due[i].entries != [] { DueSame(due[i]); }
      due := due[i := DueOf(due[i], input.Rest())];
      HeadsSame(heap, old(due), due);
    }
  }

  lemma DueSame(was: Log)
    requires was.entries != []
    ensures DueOf(was, Log(was.entries[1..], was.clean)) == was
  {}

  method Rewrite(input: SstableIterator, bytes: Bytes)
    modifies input`file
    ensures input.file == bytes
    ensures input.Unread() == 0 ==> input.Rest() == old(input.Rest())
  {
    hide Remaining;
    if input.Unread() == 0 {
      AllRead(input.crc, input.table.(file := input.file), input.blockIdx, input.cursor, bytes);
    }
    input.Overwrite(bytes);
  }

  lemma HeadsSame(heap: seq<Item>, due: seq<Log>, due': seq<Log>)
    requires Heads(heap, due) && |due'| == |due|
    requires forall i :: 0 <= i < |due| ==> (due[i].entries == [] <==> due'[i].entries == [])
    requires forall i :: 0 <= i < |due| && due[i].entries != [] ==> due'[i].entries[0] == due[i].entries[0]
    ensures Heads(heap, due')
  {}

  /** Fills the heap with the first entry of every input; fails if any input does. */
  method NewMerge(iters: seq<SstableIterator>) returns (ok: bool, merge: MergeIterator)
    requires forall i, j :: 0 <= i < j < |iters| ==> iters[i] != iters[j]
    modifies iters`blockIdx, iters`cursor
    ensures fresh(merge) && merge.iters == iters
    ensures ok ==> merge.Valid() && |merge.due| == |iters|
    ensures ok ==> forall i :: 0 <= i < |iters| ==> merge.due[i] == old(iters[i].Rest())
    ensures !ok ==> exists i :: 0 <= i < |iters| && !old(iters[i].Rest()).clean
  {
    hide Remaining, Heads, SstableIterator.Rest;
    var heap: seq<Item> := [];
    ghost var due: seq<Log> := [];
    NoHeads();
    for k := 0 to |iters|
      invariant |due| == k
      invariant forall i :: 0 <= i < k ==> due[i] == old(iters[i].Rest())
      invariant forall i :: 0 <= i < k && due[i].entries == [] ==> due[i].clean
      invariant forall i :: 0 <= i < k && due[i].entries != [] ==>
                  iters[i].Rest() == Log(due[i].entries[1..], due[i].clean)
      invariant forall i :: k <= i < |iters| ==> iters[i].Rest() == old(iters[i].Rest())
      invariant Heads(heap, due)
    {
      ghost var was := heap;
      var next := iters[k].Next();
      due := due + [old(iters[k].Rest())];
      if next.Failed? {
        merge := new MergeIterator(heap, iters, due);
        return false, merge;
      }
      if next.Yielded? {
        heap := heap + [Item(next.entry, k)];
      }
      HeadsSnoc(was, due[..k], due[k], heap);
      assert due[..k] + [due[k]] == due;
    }
    merge := new MergeIterator(heap, iters, due);
    ok := true;
  }

  lemma NoHeads()
    ensures Heads([], [])
  {}

  lemma HeadsSnoc(heap: seq<Item>, due: seq<Log>, log: Log, heap': seq<Item>)
    requires Heads(heap, due)
    requires heap' == heap + (if log.entries == [] then [] else [Item(log.entries[0], |due|)])
    ensures Heads(heap', due + [log])
  {
    var due' := due + [log];
    forall j | 0 <= j < |due'| && due'[j].entries != [] ensures Item(due'[j].entries[0], j) in heap' {
      if j == |due| {
        assert heap'[|heap|] == Item(due'[j].entries[0], j);
      } else {
        assert Item(due[j].entries[0], j) in heap;
      }
    }
  }

  // --- The whole merge ---

  /** Everything still due, as a multiset. */
  function AllDue(due: seq<Log>): multiset<Entry> {
    if due == [] then multiset{} else multiset(due[0].entries) + AllDue(due[1..])
  }

  predicate AllSorted(due: seq<Log>) {
    forall i :: 0 <= i < |due| ==> Sorted(due[i].entries)
  }

  lemma {:induction false} DueTakes(due: seq<Log>, i: nat, rest: Log)
    requires i < |due| && due[i].entries != [] && rest.entries == due[i].entries[1..]
    ensures AllDue(due) == multiset{due[i].entries[0]} + AllDue(due[i := rest])
  {
    if i == 0 {
      assert due[0].entries == [due[0].entries[0]] + rest.entries;
      assert due[i := rest][1..] == due[1..];
    } else {
      DueTakes(due[1..], i - 1, rest);
      assert due[i := rest][1..] == due[1..][i - 1 := rest];
    }
  }

  lemma {:induction false} NothingDue(due: seq<Log>)
    requires forall i :: 0 <= i < |due| ==> due[i].entries == []
    ensures AllDue(due) == multiset{}
  {
    if due != [] {
      NothingDue(due[1..]);
    }
  }

  lemma {:induction false} InDue(due: seq<Log>, e: Entry)
    requires e in AllDue(due)
    ensures exists i :: 0 <= i < |due| && e in due[i].entries
  {
    if e in multiset(due[0].entries) {
      assert e in due[0].entries;
    } else {
      InDue(due[1..], e);
      var i :| 0 <= i < |due[1..]| && e in due[1..][i].entries;
      assert e in due[i + 1].entries;
    }
  }

  /** The least head is a lower bound of everything due. */
  lemma LeastHead(due: seq<Log>, k: Keys.Key)
    requires AllSorted(due)
    requires forall i :: 0 <= i < |due| && due[i].entries != [] ==> Keys.Leq(k, due[i].entries[0].key)
    ensures forall e :: e in AllDue(due) ==> Keys.Leq(k, e.key)
  {
    hide Keys.Leq, AllDue;
    forall e | e in AllDue(due) ensures Keys.Leq(k, e.key) {
      InDue(due, e);
      var i :| 0 <= i < |due| && e in due[i].entries;
      var j :| 0 <= j < |due[i].entries| && due[i].entries[j] == e;
      if j > 0 {
        assert Keys.Leq(due[i].entries[0].key, due[i].entries[j].key);
        Keys.Transitive(k, due[i].entries[0].key, e.key);
      }
    }
  }

  /** Output so far, all below what is still due. */
  predicate Progress(out: seq<Entry>, due: seq<Log>) {
    Sorted(out) && AllSorted(due) && forall e, x :: e in out && x in AllDue(due) ==> Keys.Leq(e.key, x.key)
  }

  lemma ProgressStep(out: seq<Entry>, due: seq<Log>, from: nat, rest: Log)
    requires Progress(out, due) && from < |due| && due[from].entries != [] && rest.entries == due[from].entries[1..]
    requires forall i :: 0 <= i < |due| && due[i].entries != [] ==>
               Keys.Leq(due[from].entries[0].key, due[i].entries[0].key)
    ensures Progress(out + [due[from].entries[0]], due[from := rest])
    ensures multiset(out + [due[from].entries[0]]) + AllDue(due[from := rest]) == multiset(out) + AllDue(due)
  {
    hide Keys.Leq, AllDue;
    var e := due[from].entries[0];
    DueTakes(due, from, rest);
    LeastHead(due, e.key);
    assert e in AllDue(due);
    assert multiset(out + [e]) == multiset(out) + multiset{e};
  }

  // --- Uniqueness ---

  /** With internal keys unique, the merge has one possible result. */
  lemma {:induction false} OneSortedPermutation(a: seq<Entry>, b: seq<Entry>)
    requires StrictlySorted(a) && Sorted(b) && multiset(a) == multiset(b)
    ensures a == b
  {
    hide Keys.Less, Keys.Leq;
    assert |multiset(a)| == |a| && |multiset(b)| == |b|;
    if a != [] {
      SameFirst(a, b);
      assert a == [a[0]] + a[1..] && b == [b[0]] + b[1..];
      assert multiset(a[1..]) == multiset(a) - multiset{a[0]};
      assert multiset(b[1..]) == multiset(b) - multiset{b[0]};
      OneSortedPermutation(a[1..], b[1..]);
    }
  }

  lemma SameFirst(a: seq<Entry>, b: seq<Entry>)
    requires StrictlySorted(a) && Sorted(b) && multiset(a) == multiset(b) && a != [] && b != []
    ensures a[0] == b[0]
  {
    hide Keys.Less;
    assert a[0] in multiset(b) && b[0] in multiset(a);
    var i :| 0 <= i < |a| && a[i] == b[0];
    var j :| 0 <= j < |b| && b[j] == a[0];
    if i > 0 && j > 0 {
      assert Keys.Less(a[0].key, a[i].key) && Keys.Leq(b[0].key, b[j].key);
      Keys.Trichotomy(a[0].key, b[0].key);
    }
  }
}
