/** The shared write state, updated in place under its lock. Each method is one critical section; its effect
    is the one the protocol's step has on the fields the lock guards. */
module WriteSyncState {
  import opened Codec
  import opened WritePipeline

  class WriteSyncs {
    var queue: seq<nat>
    var walBusy: bool
    var ticketToMem: nat
    var nextTicket: nat
    var nextLsn: nat

    ghost function View(): Sync
      reads this
    {
      Sync(queue, walBusy, ticketToMem, nextTicket, nextLsn)
    }

    constructor (startLsn: nat)
      ensures View() == Sync([], false, 0, 0, startLsn) && forall n :: View() == Init(n, startLsn).sync
    {
      queue, walBusy, ticketToMem, nextTicket, nextLsn := [], false, 0, 0, startLsn;
    }

    method PushBack(w: nat)
      modifies this
      ensures View() == old(View()).(queue := old(queue) + [w])
      ensures forall s: State :: Shape(s) && s.sync == old(View()) && w < |s.pc| ==> Push(s, w).sync == View()
    {
      queue := queue + [w];
    }

    /** Drains the queue when w is its head. */
    method FormWriteGroup(w: nat) returns (reqs: seq<nat>)
      modifies this
      ensures queue + reqs == old(queue) && (queue == [] || reqs == [])
      ensures reqs != [] <==> old(queue) != [] && old(queue)[0] == w
      ensures forall s: State :: Shape(s) && s.sync == old(View()) && w < |s.pc| ==>
                Front(s, w).sync == View() && (reqs != [] ==> Front(s, w).group[w] == reqs)
    {
      reqs := [];
      if |queue| > 0 && queue[0] == w {
        reqs, queue := queue, [];
      }
    }

    method TryTakeWal(w: nat) returns (taken: bool)
      modifies this
      ensures taken == !old(walBusy) && View() == old(View()).(walBusy := true)
      ensures forall s: State :: Shape(s) && s.sync == old(View()) && w < |s.pc| ==>
                TakeWal(s, w).sync == View() && (taken <==> TakeWal(s, w).pc[w].WalDraw?)
    {
      taken := !walBusy;
      if taken {
        walBusy := true;
      }
    }

    method DrawTicket(w: nat, size: nat) returns (ticket: nat, lsn: nat)
      modifies this
      ensures ticket == old(nextTicket) && lsn == old(nextLsn)
      ensures View() == old(View()).(nextTicket := ticket + 1, nextLsn := lsn + size)
      ensures forall s: State :: Shape(s) && s.sync == old(View()) && w < |s.pc| && |s.group[w]| == size ==>
                Draw(s, w).sync == View() && Draw(s, w).ticket[w] == ticket && CommittedLsn(Draw(s, w), w) == lsn
    {
      ticket, nextTicket := nextTicket, nextTicket + 1;
      lsn, nextLsn := nextLsn, nextLsn + size;
    }

    method DropWalGuard(w: nat)
      modifies this
      ensures View() == old(View()).(walBusy := false)
      ensures forall s: State :: Shape(s) && s.sync == old(View()) && w < |s.pc| ==> ReleaseWal(s, w).sync == View()
    {
      walBusy := false;
    }

    method DropTicketGuard(w: nat)
      modifies this
      ensures View() == old(View()).(ticketToMem := old(ticketToMem) + 1)
      ensures forall s: State :: Shape(s) && s.sync == old(View()) && w < |s.pc| ==> ReleaseTicket(s, w).sync == View()
    {
      ticketToMem := ticketToMem + 1;
    }
  }

  /** Every one of these members has been told, and nobody else. */
  predicate Told(was: seq<Slot>, now: seq<Slot>, reqs: seq<nat>, told: Slot) {
    && |now| == |was|
    && (forall k :: 0 <= k < |reqs| && reqs[k] < |now| ==> now[reqs[k]] == told)
    && forall i :: 0 <= i < |now| && i !in reqs ==> now[i] == was[i]
  }

  /** The group guard's drop, and the leader's marking of its group: one completion slot after another. */
  method TellGroup(slots: array<Slot>, reqs: seq<nat>, told: Slot)
    requires forall k :: 0 <= k < |reqs| ==> reqs[k] < slots.Length
    modifies slots
    ensures forall k :: 0 <= k < |reqs| ==> slots[reqs[k]] == told
    ensures forall i :: 0 <= i < slots.Length && i !in reqs ==> slots[i] == old(slots[i])
    ensures Told(old(slots[..]), slots[..], reqs, told)
  {
    for k := 0 to |reqs|
      invariant forall j :: 0 <= j < k ==> slots[reqs[j]] == told
      invariant forall i :: 0 <= i < slots.Length && i !in reqs ==> slots[i] == old(slots[i])
    {
      assert reqs[k] in reqs;
      slots[reqs[k]] := told;
    }
  }

  /** Where a leader stands that has told k members: to follow, or that the group is written. */
  function Telling(done: bool, k: nat): Pc { if done then Finishing(k) else Marking(k) }

  function TellsWhat(s: State, w: nat, done: bool): Slot
    requires w < |s.ticket|
  {
    if done then ToldDone(CommittedLsn(s, w)) else ToldFollow
  }

  /** w is telling its group, and takes every step. */
  ghost predicate TellsAlone(run: seq<State>, w: nat, done: bool) {
    && run != [] && (forall i :: 0 <= i < |run| ==> Shape(run[i]))
    && w < |run[0].pc| && run[0].pc[w] == Telling(done, 0) && |run| <= |run[0].group[w]| + 1
    && (forall j :: 0 <= j < |run[0].group[w]| ==> run[0].group[w][j] < |run[0].pc|)
    && forall i :: 0 <= i < |run| - 1 ==> CanStep(run[i], w) && run[i + 1] == Step(run[i], w, false)
  }

  lemma TellsOne(s: State, w: nat, done: bool, k: nat)
    requires Shape(s) && w < |s.pc| && s.pc[w] == Telling(done, k) && k < |s.group[w]| && s.group[w][k] < |s.pc|
    ensures var s', m := Step(s, w, false), s.group[w][k];
            && s'.slot == s.slot[m := TellsWhat(s, w, done)]
            && s'.pc == s.pc[m := Woken(s.pc[m])][w := Telling(done, k + 1)]
            && s'.group == s.group && s'.ticket == s.ticket && s'.start == s.start && s'.cuts == s.cuts
  {}

  /** A leader's steps from its first member to its k-th, nobody stepping in between: these members have been told and
      are awake, and nobody else has been told or woken. So after the last the whole group has. */
  lemma {:induction false} GroupIsTold(run: seq<State>, w: nat, done: bool, k: nat)
    requires TellsAlone(run, w, done) && k < |run|
    ensures |run[k].pc| == |run[0].pc| && run[k].pc[w] == Telling(done, k)
    ensures run[k].group == run[0].group && run[k].ticket == run[0].ticket && run[k].start == run[0].start
    ensures run[k].cuts == run[0].cuts
    ensures Told(run[0].slot, run[k].slot, run[0].group[w][..k], TellsWhat(run[0], w, done))
    ensures forall i :: 0 <= i < k && run[0].group[w][i] != w ==> !Asleep(run[k].pc[run[0].group[w][i]])
    ensures forall v :: 0 <= v < |run[0].pc| && v != w && v !in run[0].group[w][..k] ==> run[k].pc[v] == run[0].pc[v]
  {
    if k > 0 {
      GroupIsTold(run, w, done, k - 1);
      var s, group := run[k - 1], run[0].group[w];
      assert run[k - 1 + 1] == Step(s, w, false);
      hide Step, CommittedLsn;
      SameTold(run[0], s, w, done);
      TellsOne(s, w, done, k - 1);
      assert group[..k] == group[..k - 1] + [group[k - 1]];
    }
  }

  lemma SameTold(a: State, b: State, w: nat, done: bool)
    requires w < |a.ticket| && a.ticket == b.ticket && a.start == b.start && a.cuts == b.cuts
    ensures TellsWhat(a, w, done) == TellsWhat(b, w, done)
  {}
}
