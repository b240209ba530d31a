/** Every step of the write protocol keeps its invariant. */
module PipelineProofs {
  import opened Codec
  import opened WritePipeline

  /** The three invariants about membership. */
  predicate Members(s: State) {
    Shape(s) && MemberInv(s) && QueueInv(s) && GroupInv(s)
  }

  // --- Frames: steps that move no writer between stages ---

  predicate SameStage(p: Pc, p': Pc, size: nat) {
    && WalKindOf(p) == WalKindOf(p')
    && KindOf(p, size != 0) == KindOf(p', size != 0)
    && InsertedBy(p, size) == InsertedBy(p', size)
  }

  /** Only the queue, positions within a stage and slots have changed. */
  predicate Quiet(s: State, s': State)
    requires Shape(s)
  {
    && s' == s.(sync := s.sync.(queue := s'.sync.queue), pc := s'.pc, slot := s'.slot)
    && |s'.pc| == |s'.slot| == |s.pc|
    && forall i :: 0 <= i < |s.pc| ==> SameStage(s.pc[i], s'.pc[i], |s.group[i]|)
  }

  lemma QuietKeeps(s: State, s': State)
    requires Inv(s) && Quiet(s, s')
    requires MemberInv(s') && QueueInv(s') && GroupInv(s')
    ensures Inv(s')
  {
    hide MemberInv, QueueInv, GroupInv, WalStage, Tickets, Logged, Stored, AppendPos, ApplyPos;
    assert WalKinds(s'.pc) == WalKinds(s.pc);
    assert Kinds(s') == Kinds(s);
    assert Inserted(s') == Inserted(s);
  }

  /** Writer w moves to p, its slot becoming sl. */
  function Moved(s: State, w: nat, p: Pc, sl: Slot): State
    requires Shape(s) && w < |s.pc|
  {
    s.(pc := s.pc[w := p], slot := s.slot[w := sl])
  }

  predicate MayMove(s: State, w: nat, p: Pc, sl: Slot)
    requires Shape(s) && w < |s.pc|
  {
    && !s.pc[w].Start? && !p.Start? && Placed(Moved(s, w, p, sl), w)
    && SameStage(s.pc[w], p, |s.group[w]|)
    && (Leading(p) ==> Leading(s.pc[w])) && (p.MemInsert? ==> p.next <= |s.group[w]|)
    && (forall j :: 0 <= j < |s.group[w]| ==> PhaseOf(p, j) == PhaseOf(s.pc[w], j))
    && (s.sync.queue != [] && s.sync.queue[0] == w ==> p.SeekCheck? || p.SeekFront?)
  }

  lemma MoveMembers(s: State, w: nat, p: Pc, sl: Slot)
    requires Shape(s) && MemberInv(s) && w < |s.pc| && MayMove(s, w, p, sl)
    ensures MemberInv(Moved(s, w, p, sl))
  {
    hide BaseLsn;
    var s' := Moved(s, w, p, sl);
    forall x | 0 <= x < |s.pc| && x != w && !s'.pc[x].Start? ensures Placed(s', x) {
      assert Placed(s, x);
    }
  }

  lemma MoveQueue(s: State, w: nat, p: Pc, sl: Slot)
    requires Shape(s) && QueueInv(s) && GroupInv(s) && w < |s.pc| && MayMove(s, w, p, sl)
    ensures QueueInv(Moved(s, w, p, sl)) && GroupInv(Moved(s, w, p, sl))
  {
    hide Placed, SameStage;
  }

  lemma MoveKeeps(s: State, w: nat, p: Pc, sl: Slot)
    requires Inv(s) && w < |s.pc| && MayMove(s, w, p, sl)
    ensures Inv(Moved(s, w, p, sl))
  {
    hide MemberInv, QueueInv, GroupInv, WalInv, TicketInv, LogInv, StoreInv, Placed;
    MoveMembers(s, w, p, sl);
    MoveQueue(s, w, p, sl);
    QuietKeeps(s, Moved(s, w, p, sl));
  }

  // --- Steps of one writer that keep its stage ---

  lemma SamePlace(s: State, w: nat)
    requires Shape(s) && w < |s.pc|
    ensures s.(pc := s.pc[w := s.pc[w]]) == s && s.(slot := s.slot[w := s.slot[w]]) == s
  {
    assert s.pc[w := s.pc[w]] == s.pc && s.slot[w := s.slot[w]] == s.slot;
  }

  /** Where a writer that is looking at its slot may be. */
  lemma Waiting(s: State, w: nat)
    requires Shape(s) && MemberInv(s) && QueueInv(s) && w < |s.pc|
    requires Seeking(s.pc[w]) || s.pc[w].FollowCheck? || s.pc[w].FollowAsleep?
    ensures Placed(s, w) && s.group[w] == []
    ensures s.sync.queue != [] && s.sync.queue[0] == w ==>
              (s.pc[w].SeekCheck? || s.pc[w].SeekFront?) && s.slot[w].Empty?
    ensures s.sync.queue != [] && s.sync.queue[0] == w ==> s.group[s.head[w]] == []
  {
    hide BaseLsn;
  }

  /** A writer looking at its slot may make any move that suits its leader's progress. */
  lemma WaiterMay(s: State, w: nat, p: Pc, sl: Slot)
    requires Shape(s) && w < |s.pc| && Placed(s, w) && s.group[w] == []
    requires Seeking(s.pc[w]) || s.pc[w].FollowCheck? || s.pc[w].FollowAsleep?
    requires Seeking(p) || p.FollowCheck? || p.FollowAsleep? || p.Done?
    requires s.sync.queue != [] && s.sync.queue[0] == w ==> p.SeekCheck? || p.SeekFront?
    requires var h := s.head[w];
             if s.group[h] == [] then Seeking(p) && sl.Empty?
             else FollowerOk(p, sl, PhaseOf(s.pc[h], s.pos[w]), CommittedLsn(s, h))
    ensures MayMove(s, w, p, sl)
  {
    WaiterPlaced(s, w, p, sl);
    WaiterStage(s.pc[w], p);
    hide Placed, BaseLsn, FollowerOk, Moved, SameStage, Leading, Seeking, PhaseOf;
  }

  lemma WaiterStage(p: Pc, p': Pc)
    requires Seeking(p) || p.FollowCheck? || p.FollowAsleep?
    requires Seeking(p') || p'.FollowCheck? || p'.FollowAsleep? || p'.Done?
    ensures SameStage(p, p', 0) && !Leading(p') && !p'.MemInsert? && !p.Start? && !p'.Start?
  {}

  lemma WaiterPlaced(s: State, w: nat, p: Pc, sl: Slot)
    requires Shape(s) && w < |s.pc| && Placed(s, w) && s.group[w] == []
    requires Seeking(s.pc[w]) || s.pc[w].FollowCheck? || s.pc[w].FollowAsleep?
    requires var h := s.head[w];
             if s.group[h] == [] then Seeking(p) && sl.Empty?
             else FollowerOk(p, sl, PhaseOf(s.pc[h], s.pos[w]), CommittedLsn(s, h))
    ensures Placed(Moved(s, w, p, sl), w)
  {
    hide BaseLsn, FollowerOk;
  }

  lemma CheckKeeps(s: State, w: nat)
    requires Inv(s) && w < |s.pc| && s.pc[w].SeekCheck?
    ensures Inv(Check(s, w))
  {
    hide MemberInv, QueueInv, GroupInv, WalInv, TicketInv, LogInv, StoreInv, BaseLsn, MayMove;
    Waiting(s, w);
    SamePlace(s, w);
    match s.slot[w]
    case Empty =>
      WaiterMay(s, w, SeekFront, Empty);
      MoveKeeps(s, w, SeekFront, Empty);
    case ToldFollow =>
      WaiterMay(s, w, FollowCheck, Empty);
      MoveKeeps(s, w, FollowCheck, Empty);
    case ToldDone(lsn) =>
      WaiterMay(s, w, Done(lsn), Empty);
      MoveKeeps(s, w, Done(lsn), Empty);
  }

  lemma WaitKeeps(s: State, w: nat)
    requires Inv(s) && w < |s.pc| && s.pc[w].SeekWait?
    ensures Inv(Wait(s, w))
  {
    hide MemberInv, QueueInv, GroupInv, WalInv, TicketInv, LogInv, StoreInv, BaseLsn, MayMove;
    Waiting(s, w);
    SamePlace(s, w);
    var p := if s.slot[w].Empty? then SeekAsleep else SeekCheck;
    WaiterMay(s, w, p, s.slot[w]);
    MoveKeeps(s, w, p, s.slot[w]);
  }

  lemma FollowKeeps(s: State, w: nat)
    requires Inv(s) && w < |s.pc| && s.pc[w].FollowCheck?
    ensures Inv(Follow(s, w))
  {
    hide MemberInv, QueueInv, GroupInv, WalInv, TicketInv, LogInv, StoreInv, BaseLsn, MayMove;
    Waiting(s, w);
    SamePlace(s, w);
    match s.slot[w]
    case Empty =>
      WaiterMay(s, w, FollowAsleep, Empty);
      MoveKeeps(s, w, FollowAsleep, Empty);
    case ToldDone(lsn) =>
      WaiterMay(s, w, Done(lsn), Empty);
      MoveKeeps(s, w, Done(lsn), Empty);
    case ToldFollow => assert false;
  }

  // --- Steps of leaders between stages ---

  /** p' is a later or earlier position of the same leader with the same standing towards its members. */
  predicate SameStanding(p: Pc, p': Pc, size: nat) {
    p' == p || (Leading(p) && Leading(p') && (p'.MemInsert? ==> p'.next <= size)
                && forall j :: 0 <= j < size ==> PhaseOf(p', j) == PhaseOf(p, j))
  }

  predicate Committed(s: State, l: nat)
    requires Shape(s) && l < |s.pc|
  {
    s.group[l] != [] && (s.pc[l].Finishing? || s.pc[l].Done?)
  }

  /** Nothing about membership has changed but the positions of leaders. */
  predicate LeadersMoved(s: State, s': State)
    requires Shape(s)
  {
    && Shape(s') && |s'.pc| == |s.pc| && s'.slot == s.slot && s'.group == s.group
    && s'.head == s.head && s'.pos == s.pos && s'.sync.queue == s.sync.queue
    && (forall i :: 0 <= i < |s.pc| ==> SameStanding(s.pc[i], s'.pc[i], |s.group[i]|))
    && (forall l :: 0 <= l < |s.pc| && Committed(s, l) ==> CommittedLsn(s', l) == CommittedLsn(s, l))
  }

  lemma LeadersMovedPlaced(s: State, s': State, x: nat)
    requires Shape(s) && LeadersMoved(s, s') && x < |s.pc| && Placed(s, x)
    requires forall w :: 0 <= w < |s.pc| && Leading(s.pc[w]) ==> s.group[w] != [] && s.head[w] == w
    ensures Placed(s', x)
  {
    hide BaseLsn;
    var h, j := s.head[x], s.pos[x];
    if s.group[h] != [] {
      assert SameStanding(s.pc[h], s'.pc[h], |s.group[h]|);
      assert SameStanding(s.pc[x], s'.pc[x], |s.group[x]|);
      assert Committed(s, h) ==> CommittedLsn(s', h) == CommittedLsn(s, h);
    }
  }

  lemma LeadersMovedMembers(s: State, s': State)
    requires Members(s) && LeadersMoved(s, s')
    ensures Members(s')
  {
    assert MemberInv(s') by {
      hide Placed, QueueInv, GroupInv, BaseLsn;
      forall x | 0 <= x < |s.pc| && !s'.pc[x].Start? ensures Placed(s', x) {
        assert SameStanding(s.pc[x], s'.pc[x], |s.group[x]|);
        LeadersMovedPlaced(s, s', x);
      }
      forall x | 0 <= x < |s.pc| && Leading(s'.pc[x]) ensures s.group[x] != [] && s.head[x] == x
        ensures s'.pc[x].MemInsert? ==> s'.pc[x].next <= |s.group[x]|
      {
        assert SameStanding(s.pc[x], s'.pc[x], |s.group[x]|);
      }
    }
    LeadersMovedQueue(s, s');
  }

  lemma LeadersMovedQueue(s: State, s': State)
    requires Members(s) && LeadersMoved(s, s')
    ensures QueueInv(s') && GroupInv(s')
  {
    hide MemberInv, BaseLsn;
    forall i | 0 <= i < |s.pc| ensures s'.pc[i].Start? <==> s.pc[i].Start?
      ensures s.pc[i].SeekCheck? || s.pc[i].SeekFront? ==> s'.pc[i] == s.pc[i]
    {
      assert SameStanding(s.pc[i], s'.pc[i], |s.group[i]|);
    }
  }

  // --- Joining the queue and leading ---

  lemma PushPlaced(s: State, w: nat, x: nat)
    requires Members(s) && w < |s.pc| && s.pc[w].Start?
    requires x < |s.pc| && (x == w || !s.pc[x].Start?)
    ensures Placed(Push(s, w), x)
  {
    hide BaseLsn;
    if x != w {
      assert Placed(s, x);
    }
  }

  lemma PushQueue(s: State, w: nat)
    requires Members(s) && w < |s.pc| && s.pc[w].Start?
    ensures QueueInv(Push(s, w)) && GroupInv(Push(s, w))
  {
    hide BaseLsn, Placed;
  }

  lemma PushMembers(s: State, w: nat)
    requires Members(s) && w < |s.pc| && s.pc[w].Start?
    ensures Members(Push(s, w))
  {
    PushQueue(s, w);
    var s' := Push(s, w);
    forall x | 0 <= x < |s.pc| && !s'.pc[x].Start? ensures Placed(s', x) {
      PushPlaced(s, w, x);
    }
    hide BaseLsn, Placed, QueueInv, GroupInv;
  }

  lemma PushLog(s: State, w: nat)
    requires Shape(s) && GroupInv(s) && LogInv(s) && w < |s.pc| && s.pc[w].Start?
    ensures LogInv(Push(s, w))
  {
    var s' := Push(s, w);
    forall k | 0 <= k < |s.log|
      ensures RecordAt(s'.start, s'.log, s'.cuts, s'.order, s'.ticket, s'.head, s'.pos, s'.group, k)
    {
      assert RecordAt(s.start, s.log, s.cuts, s.order, s.ticket, s.head, s.pos, s.group, k);
    }
  }

  lemma PushKeeps(s: State, w: nat)
    requires Inv(s) && w < |s.pc| && s.pc[w].Start?
    ensures Inv(Push(s, w))
  {
    hide MemberInv, QueueInv, GroupInv, LogInv, WalStage, Tickets, Stored, AppendPos, ApplyPos;
    PushMembers(s, w);
    PushLog(s, w);
    var s' := Push(s, w);
    assert WalKinds(s'.pc) == WalKinds(s.pc);
    assert Kinds(s') == Kinds(s);
    assert Inserted(s') == Inserted(s);
  }

  lemma LeadMembers(s: State, w: nat)
    requires Members(s) && w < |s.pc| && s.pc[w].SeekFront?
    requires s.sync.queue != [] && s.sync.queue[0] == w
    ensures Members(Front(s, w))
  {
    hide BaseLsn;
    var s' := Front(s, w);
    forall x | 0 <= x < |s.pc| && !s'.pc[x].Start? ensures Placed(s', x) {
      assert Placed(s, x);
    }
  }

  /** A group formed by a leader without a ticket is not in the log. */
  lemma LeadLogged(start: nat, log: seq<Rec>, cuts: seq<nat>, order: seq<nat>, ticket: seq<nat>,
                   head: seq<nat>, pos: seq<nat>, group: seq<seq<nat>>, w: nat, q: seq<nat>)
    requires |cuts| == |order| && |ticket| == |head| == |pos| == |group| && w < |group|
    requires Logged(start, log, cuts, order, ticket, head, pos, group)
    requires forall t :: 0 <= t < |order| ==> order[t] != w
    ensures Logged(start, log, cuts, order, ticket, head, pos, group[w := q])
  {
    hide CutEnd;
    var group' := group[w := q];
    forall k | 0 <= k < |log|
      ensures RecordAt(start, log, cuts, order, ticket, head, pos, group', k)
    {
      assert RecordAt(start, log, cuts, order, ticket, head, pos, group, k);
    }
  }

  lemma Unticketed(s: State, w: nat)
    requires Shape(s) && TicketInv(s) && w < |s.pc| && Seeking(s.pc[w])
    ensures forall t :: 0 <= t < |s.order| ==> s.order[t] != w
  {
    assert Kinds(s)[w] == Before;
  }

  lemma FrontKeeps(s: State, w: nat)
    requires Inv(s) && w < |s.pc| && s.pc[w].SeekFront?
    ensures Inv(Front(s, w))
  {
    hide MemberInv, QueueInv, GroupInv, Logged, WalStage, Tickets, Stored, AppendPos, ApplyPos, MayMove, BaseLsn;
    var s' := Front(s, w);
    if s.sync.queue != [] && s.sync.queue[0] == w {
      LeadMembers(s, w);
      Unticketed(s, w);
      LeadLogged(s.start, s.log, s.cuts, s.order, s.ticket, s.head, s.pos, s.group, w, s.sync.queue);
      assert WalKinds(s'.pc) == WalKinds(s.pc);
      assert Kinds(s') == Kinds(s);
      assert Inserted(s') == Inserted(s);
    } else {
      Waiting(s, w);
      SamePlace(s, w);
      WaiterMay(s, w, SeekWait, s.slot[w]);
      MoveKeeps(s, w, SeekWait, s.slot[w]);
    }
  }

  // --- Telling the members ---

  /** The leader w tells the member at position k, moving to p; the member's slot becomes told. */
  function Told(s: State, w: nat, k: nat, p: Pc, told: Slot): State
    requires Shape(s) && w < |s.pc| && k < |s.group[w]| && s.group[w][k] < |s.pc|
  {
    var m := s.group[w][k];
    s.(slot := s.slot[m := told], pc := Notify(s.pc, m)[w := p])
  }

  predicate MayTell(s: State, w: nat, k: nat, p: Pc, told: Slot)
    requires Shape(s) && w < |s.pc|
  {
    || (s.pc[w] == Marking(k) && p == Marking(k + 1) && told == ToldFollow)
    || (s.pc[w] == Finishing(k) && p == Finishing(k + 1) && told == ToldDone(CommittedLsn(s, w)))
  }

  /** What w's leadership says about the member it is about to tell. */
  predicate Telling(s: State, w: nat, k: nat, p: Pc, told: Slot)
    requires Shape(s)
  {
    && w < |s.pc| && k < |s.group[w]| && s.group[w][k] < |s.pc| && MayTell(s, w, k, p, told)
    && s.head[s.group[w][k]] == w && s.pos[s.group[w][k]] == k && s.head[w] == w
    && Placed(s, w) && Placed(s, s.group[w][k])
  }

  lemma ToldMember(s: State, w: nat, k: nat, p: Pc, told: Slot)
    requires Shape(s) && Telling(s, w, k, p, told)
    ensures Placed(Told(s, w, k, p, told), s.group[w][k])
  {
    hide BaseLsn;
  }

  lemma ToldLeader(s: State, w: nat, k: nat, p: Pc, told: Slot)
    requires Shape(s) && Telling(s, w, k, p, told) && w != s.group[w][k]
    ensures Placed(Told(s, w, k, p, told), w)
  {
    hide BaseLsn;
  }

  lemma ToldOther(s: State, w: nat, k: nat, p: Pc, told: Slot, x: nat)
    requires Shape(s) && Telling(s, w, k, p, told) && x < |s.pc| && x != w && x != s.group[w][k] && Placed(s, x)
    ensures Placed(Told(s, w, k, p, told), x)
  {
    hide BaseLsn;
  }

  lemma ToldPlaced(s: State, w: nat, k: nat, p: Pc, told: Slot, x: nat)
    requires Members(s) && w < |s.pc| && k < |s.group[w]| && s.group[w][k] < |s.pc| && MayTell(s, w, k, p, told)
    requires x < |s.pc| && !s.pc[x].Start?
    ensures Placed(Told(s, w, k, p, told), x)
  {
    var m := s.group[w][k];
    assert s.head[m] == w && s.pos[m] == k && s.head[w] == w;
    assert Placed(s, x) && Placed(s, w) && Placed(s, m);
    hide MemberInv, QueueInv, GroupInv, Placed, Told, MayTell;
    if x == m {
      ToldMember(s, w, k, p, told);
    } else if x == w {
      ToldLeader(s, w, k, p, told);
    } else {
      ToldOther(s, w, k, p, told, x);
    }
  }

  lemma ToldQueue(s: State, w: nat, k: nat, p: Pc, told: Slot)
    requires Members(s) && w < |s.pc| && k < |s.group[w]| && s.group[w][k] < |s.pc| && MayTell(s, w, k, p, told)
    ensures QueueInv(Told(s, w, k, p, told)) && GroupInv(Told(s, w, k, p, told))
  {
    var m := s.group[w][k];
    assert s.head[m] == w;
    assert !s.pc[m].Start?;
    hide MemberInv, Placed, BaseLsn, Leading, Seeking;
  }

  /** What telling one member leaves alone about every writer. */
  lemma ToldAt(s: State, w: nat, k: nat, p: Pc, told: Slot, x: nat)
    requires Shape(s) && w < |s.pc| && k < |s.group[w]| && s.group[w][k] < |s.pc| && MayTell(s, w, k, p, told)
    requires x < |s.pc|
    ensures var s' := Told(s, w, k, p, told);
            && s'.pc[x].Start? == s.pc[x].Start? && Leading(s'.pc[x]) == Leading(s.pc[x])
            && (s'.pc[x].MemInsert? ==> s'.pc[x] == s.pc[x])
            && (x != s.group[w][k] ==> s'.slot[x] == s.slot[x])
  {
    hide BaseLsn;
  }

  lemma ToldRest(s: State, w: nat, k: nat, p: Pc, told: Slot)
    requires Members(s) && w < |s.pc| && k < |s.group[w]| && s.group[w][k] < |s.pc| && MayTell(s, w, k, p, told)
    requires forall x :: 0 <= x < |s.pc| && !s.pc[x].Start? ==> Placed(Told(s, w, k, p, told), x)
    ensures MemberInv(Told(s, w, k, p, told))
  {
    assert !s.pc[s.group[w][k]].Start?;
    hide QueueInv, GroupInv, Placed, BaseLsn, Woken, MayTell, Leading;
    forall x | 0 <= x < |s.pc|
      ensures var s' := Told(s, w, k, p, told);
              && s'.pc[x].Start? == s.pc[x].Start? && Leading(s'.pc[x]) == Leading(s.pc[x])
              && (s'.pc[x].MemInsert? ==> s'.pc[x] == s.pc[x])
              && (x != s.group[w][k] ==> s'.slot[x] == s.slot[x])
    {
      ToldAt(s, w, k, p, told, x);
    }
  }

  lemma ToldMembers(s: State, w: nat, k: nat, p: Pc, told: Slot)
    requires Members(s) && w < |s.pc| && k < |s.group[w]| && s.group[w][k] < |s.pc| && MayTell(s, w, k, p, told)
    ensures Members(Told(s, w, k, p, told))
  {
    forall x | 0 <= x < |s.pc| && !s.pc[x].Start? ensures Placed(Told(s, w, k, p, told), x) {
      ToldPlaced(s, w, k, p, told, x);
    }
    hide Placed, BaseLsn, QueueInv, GroupInv, MemberInv, MayTell;
    ToldQueue(s, w, k, p, told);
    ToldRest(s, w, k, p, told);
  }

  /** A member about to be told is the leader itself or waits without leading. */
  lemma MemberQuiet(s: State, w: nat, k: nat)
    requires Members(s) && w < |s.pc| && k < |s.group[w]| && (s.pc[w] == Marking(k) || s.pc[w] == Finishing(k))
    ensures s.group[w][k] < |s.pc|
    ensures var m := s.group[w][k]; m == w || SameStage(s.pc[m], Woken(s.pc[m]), |s.group[m]|)
  {
    hide BaseLsn, QueueInv;
    var m := s.group[w][k];
    assert s.head[m] == w && s.pos[m] == k && Placed(s, m);
  }

  lemma ToldQuiet(s: State, w: nat, k: nat, p: Pc, told: Slot)
    requires Members(s) && w < |s.pc| && k < |s.group[w]| && s.group[w][k] < |s.pc| && MayTell(s, w, k, p, told)
    ensures Quiet(s, Told(s, w, k, p, told))
  {
    MemberQuiet(s, w, k);
    hide Members, Woken, BaseLsn;
  }

  lemma ToldKeeps(s: State, w: nat, k: nat, p: Pc, told: Slot)
    requires Inv(s) && w < |s.pc| && k < |s.group[w]| && s.group[w][k] < |s.pc| && MayTell(s, w, k, p, told)
    ensures Inv(Told(s, w, k, p, told))
  {
    hide MemberInv, QueueInv, GroupInv, WalInv, TicketInv, LogInv, StoreInv, BaseLsn, Placed, MayTell, Quiet;
    ToldMembers(s, w, k, p, told);
    ToldQuiet(s, w, k, p, told);
    QuietKeeps(s, Told(s, w, k, p, told));
  }

  lemma MarkKeeps(s: State, w: nat)
    requires Inv(s) && w < |s.pc| && s.pc[w].Marking?
    ensures Inv(MarkNext(s, w))
  {
    hide QueueInv, WalInv, TicketInv, LogInv, StoreInv, BaseLsn, MayMove, Placed;
    var k := s.pc[w].next;
    if k < |s.group[w]| {
      ToldKeeps(s, w, k, Marking(k + 1), ToldFollow);
    } else {
      StandingMove(s, w, WalCheck);
    }
  }

  /** A leader's own move within a stage and with the same standing. */
  lemma StandingMove(s: State, w: nat, p: Pc)
    requires Inv(s) && w < |s.pc| && Leading(s.pc[w]) && !s.pc[w].Done?
    requires SameStanding(s.pc[w], p, |s.group[w]|) && SameStage(s.pc[w], p, |s.group[w]|)
    ensures Inv(s.(pc := s.pc[w := p]))
  {
    hide MemberInv, QueueInv, GroupInv, WalInv, TicketInv, LogInv, StoreInv, BaseLsn, SameStage, SameStanding, KindOf,
         Quiet;
    StandingMembers(s, w, p);
    StandingQuiet(s, w, p);
    QuietKeeps(s, s.(pc := s.pc[w := p]));
  }

  lemma StandingMembers(s: State, w: nat, p: Pc)
    requires Members(s) && w < |s.pc| && Leading(s.pc[w]) && SameStanding(s.pc[w], p, |s.group[w]|)
    ensures Members(s.(pc := s.pc[w := p]))
  {
    hide MemberInv, QueueInv, GroupInv, BaseLsn, SameStanding, PhaseOf, Leading;
    LeaderMembers(s, s.(pc := s.pc[w := p]), w, p);
  }

  lemma StandingQuiet(s: State, w: nat, p: Pc)
    requires Shape(s) && w < |s.pc| && SameStage(s.pc[w], p, |s.group[w]|)
    ensures Quiet(s, s.(pc := s.pc[w := p]))
  {
    hide KindOf, WalKindOf, InsertedBy;
  }

  // --- A leader's step, seen through the projections ---

  /** Leader w moves to p, anything outside membership may change. */
  predicate LeaderAt(s: State, s': State, w: nat, p: Pc)
    requires Shape(s)
  {
    && Shape(s') && w < |s.pc| && Leading(s.pc[w]) && SameStanding(s.pc[w], p, |s.group[w]|)
    && s'.pc == s.pc[w := p] && s'.slot == s.slot && s'.group == s.group
    && s'.head == s.head && s'.pos == s.pos && s'.sync.queue == s.sync.queue
    && s'.start == s.start && s'.cuts == s.cuts && s'.ticket == s.ticket
  }

  lemma LeaderMembers(s: State, s': State, w: nat, p: Pc)
    requires Members(s) && LeaderAt(s, s', w, p)
    ensures Members(s')
  {
    hide BaseLsn, MemberInv, QueueInv, GroupInv;
    assert LeadersMoved(s, s');
    LeadersMovedMembers(s, s');
  }

  lemma Projections(s: State, s': State, w: nat, p: Pc)
    requires Shape(s) && Shape(s') && w < |s.pc| && s'.pc == s.pc[w := p] && s'.group == s.group
    ensures Kinds(s)[w] == KindOf(s.pc[w], s.group[w] != [])
    ensures Inserted(s)[w] == InsertedBy(s.pc[w], |s.group[w]|)
    ensures WalKinds(s.pc)[w] == WalKindOf(s.pc[w])
    ensures Kinds(s') == Kinds(s)[w := KindOf(p, s.group[w] != [])]
    ensures Inserted(s') == Inserted(s)[w := InsertedBy(p, |s.group[w]|)]
    ensures WalKinds(s'.pc) == WalKinds(s.pc)[w := WalKindOf(p)]
  {}

  lemma Unmoved<T>(xs: seq<T>, w: nat)
    requires w < |xs|
    ensures xs[w := xs[w]] == xs
  {}

  // --- The WAL stage ---

  lemma TakeWalKeeps(s: State, w: nat)
    requires Inv(s) && w < |s.pc| && s.pc[w].WalCheck?
    ensures Inv(TakeWal(s, w))
  {
    hide MemberInv, QueueInv, GroupInv, Logged, Stored, ApplyPos, Tickets, BaseLsn, Kinds, Inserted, WalKinds;
    var s' := TakeWal(s, w);
    var p := if s.sync.walBusy then WalAsleep else WalDraw;
    LeaderMembers(s, s', w, p);
    Projections(s, s', w, p);
    Unmoved(Kinds(s), w);
    Unmoved(Inserted(s), w);
  }

  lemma DrawTickets(s: State, w: nat)
    requires Shape(s) && TicketInv(s) && w < |s.pc| && s.pc[w].WalDraw?
    ensures TicketInv(Draw(s, w))
  {
    assert Kinds(s)[w] == Before;
    assert Kinds(Draw(s, w)) == Kinds(s)[w := Holding];
  }

  /** Before drawing, a leader's ticket is nobody's. */
  lemma NotYetDrawn(s: State, w: nat)
    requires Shape(s) && TicketInv(s) && w < |s.pc| && s.pc[w].WalDraw?
    ensures forall t :: 0 <= t < |s.order| ==> s.order[t] != w
  {
    assert Kinds(s)[w] == Before;
  }

  /** The records of a drawn ticket lie within the log. */
  lemma CutsWithin(start: nat, log: seq<Rec>, cuts: seq<nat>, order: seq<nat>, ticket: seq<nat>,
                   head: seq<nat>, pos: seq<nat>, group: seq<seq<nat>>, t: nat)
    requires |cuts| == |order| && |ticket| == |head| == |pos| == |group| && t < |order|
    requires Logged(start, log, cuts, order, ticket, head, pos, group)
    ensures order[t] < |group| && cuts[t] + |group[order[t]]| <= |log|
  {
    hide RecordAt;
    assert t + 1 < |cuts| ==> cuts[t + 1] <= |log|;
  }

  lemma DrawRecord(start: nat, log: seq<Rec>, cuts: seq<nat>, order: seq<nat>, ticket: seq<nat>,
                   head: seq<nat>, pos: seq<nat>, group: seq<seq<nat>>, w: nat, k: nat)
    requires |cuts| == |order| && |ticket| == |head| == |pos| == |group| && w < |group|
    requires Logged(start, log, cuts, order, ticket, head, pos, group)
    requires forall t :: 0 <= t < |order| ==> order[t] != w
    requires forall j :: 0 <= j < |group[w]| ==>
               group[w][j] < |group| && head[group[w][j]] == w && pos[group[w][j]] == j
    requires k < |log| + |group[w]|
    ensures RecordAt(start, log + Batch(group[w], start + |log|), cuts + [|log|], order + [w], ticket[w := |order|],
                     head, pos, group, k)
  {
    if k < |log| {
      assert RecordAt(start, log, cuts, order, ticket, head, pos, group, k);
    }
  }

  lemma DrawCut(start: nat, log: seq<Rec>, cuts: seq<nat>, order: seq<nat>, ticket: seq<nat>,
                head: seq<nat>, pos: seq<nat>, group: seq<seq<nat>>, w: nat, t: nat)
    requires |cuts| == |order| && |ticket| == |head| == |pos| == |group| && w < |group|
    requires Logged(start, log, cuts, order, ticket, head, pos, group) && t <= |order|
    ensures var log', cuts', order' := log + Batch(group[w], start + |log|), cuts + [|log|], order + [w];
            && order'[t] < |group| && cuts'[t] <= |log'| && cuts'[t] + |group[order'[t]]| == CutEnd(cuts', log', t)
            && forall j :: 0 <= j < |group[order'[t]]| && cuts'[t] + j < |log'| ==>
                 log'[cuts'[t] + j].writer == group[order'[t]][j]
  {
    hide RecordAt;
    if t < |order| {
      CutsWithin(start, log, cuts, order, ticket, head, pos, group, t);
      assert cuts[t] + |group[order[t]]| == CutEnd(cuts, log, t);
    }
  }

  lemma DrawLogged(start: nat, log: seq<Rec>, cuts: seq<nat>, order: seq<nat>, ticket: seq<nat>,
                   head: seq<nat>, pos: seq<nat>, group: seq<seq<nat>>, w: nat)
    requires |cuts| == |order| && |ticket| == |head| == |pos| == |group| && w < |group|
    requires Logged(start, log, cuts, order, ticket, head, pos, group)
    requires forall t :: 0 <= t < |order| ==> order[t] != w
    requires forall j :: 0 <= j < |group[w]| ==>
               group[w][j] < |group| && head[group[w][j]] == w && pos[group[w][j]] == j
    ensures Logged(start, log + Batch(group[w], start + |log|), cuts + [|log|], order + [w], ticket[w := |order|],
                   head, pos, group)
  {
    assert (cuts + [|log|])[0] == 0;
    hide Logged, RecordAt, Batch, CutEnd;
    var log', cuts', order' := log + Batch(group[w], start + |log|), cuts + [|log|], order + [w];
    var ticket' := ticket[w := |order|];
    forall k | 0 <= k < |log'| ensures RecordAt(start, log', cuts', order', ticket', head, pos, group, k) {
      DrawRecord(start, log, cuts, order, ticket, head, pos, group, w, k);
    }
    forall t | 0 <= t < |order'|
      ensures order'[t] < |group| && cuts'[t] <= |log'| && cuts'[t] + |group[order'[t]]| == CutEnd(cuts', log', t)
      ensures forall j :: 0 <= j < |group[order'[t]]| && cuts'[t] + j < |log'| ==>
                log'[cuts'[t] + j].writer == group[order'[t]][j]
    {
      DrawCut(start, log, cuts, order, ticket, head, pos, group, w, t);
    }
    LoggedIntro(start, log', cuts', order', ticket', head, pos, group);
  }

  lemma LoggedIntro(start: nat, log: seq<Rec>, cuts: seq<nat>, order: seq<nat>, ticket: seq<nat>,
                    head: seq<nat>, pos: seq<nat>, group: seq<seq<nat>>)
    requires |cuts| == |order| && |ticket| == |head| == |pos| == |group|
    requires forall k :: 0 <= k < |log| ==> RecordAt(start, log, cuts, order, ticket, head, pos, group, k)
    requires forall t :: 0 <= t < |order| ==>
               order[t] < |group| && cuts[t] <= |log| && cuts[t] + |group[order[t]]| == CutEnd(cuts, log, t)
    requires forall t :: 0 <= t < |order| ==> forall j :: 0 <= j < |group[order[t]]| && cuts[t] + j < |log| ==>
                                                log[cuts[t] + j].writer == group[order[t]][j]
    requires cuts != [] && cuts[0] == 0
    ensures Logged(start, log, cuts, order, ticket, head, pos, group)
  {
    hide RecordAt, CutEnd;
  }

  lemma DrawStage(s: State, w: nat)
    requires Shape(s) && WalInv(s) && w < |s.pc| && s.pc[w].WalDraw?
    requires AppendPos(WalKinds(s.pc), s.owner, s.order, s.cuts, |s.log|, s.wals, s.appended)
    ensures var s' := Draw(s, w);
            WalInv(s') && AppendPos(WalKinds(s'.pc), s'.owner, s'.order, s'.cuts, |s'.log|, s'.wals, s'.appended)
  {
    Projections(s, Draw(s, w), w, WalLoad);
    hide WalKinds;
  }

  lemma DrawApply(s: State, w: nat)
    requires Shape(s) && TicketInv(s) && w < |s.pc| && s.pc[w].WalDraw?
    requires ApplyPos(Inserted(s), s.order, s.cuts, s.sync.ticketToMem, |s.log|, s.applied)
    ensures var s' := Draw(s, w);
            ApplyPos(Inserted(s'), s'.order, s'.cuts, s'.sync.ticketToMem, |s'.log|, s'.applied)
  {
    Projections(s, Draw(s, w), w, WalLoad);
    Unmoved(Inserted(s), w);
    hide Inserted, Kinds;
  }

  lemma DrawStored(s: State, w: nat)
    requires Shape(s) && Stored(s.wals, s.mems, s.log, s.appended, s.applied) && w < |s.pc|
    ensures var s' := Draw(s, w); Stored(s'.wals, s'.mems, s'.log, s'.appended, s'.applied)
  {
    hide Flatten;
    var s' := Draw(s, w);
    assert s'.log[..s.appended] == s.log[..s.appended] && s'.log[..s.applied] == s.log[..s.applied];
  }

  lemma DrawMembers(s: State, w: nat)
    requires Members(s) && TicketInv(s) && w < |s.pc| && s.pc[w].WalDraw?
    ensures Members(Draw(s, w))
  {
    var s' := Draw(s, w);
    hide MemberInv, QueueInv, GroupInv;
    forall l | 0 <= l < |s.pc| && Committed(s, l) ensures CommittedLsn(s', l) == CommittedLsn(s, l) {
      assert Kinds(s)[l] == After;
    }
    hide BaseLsn, TicketInv;
    assert LeadersMoved(s, s');
    LeadersMovedMembers(s, s');
  }

  lemma DrawKeeps(s: State, w: nat)
    requires Inv(s) && w < |s.pc| && s.pc[w].WalDraw?
    ensures Inv(Draw(s, w))
  {
    hide MemberInv, QueueInv, WalInv, TicketInv, Logged, Stored, AppendPos, ApplyPos, BaseLsn, Batch, WalKinds,
         Inserted;
    DrawMembers(s, w);
    DrawTickets(s, w);
    NotYetDrawn(s, w);
    DrawLogged(s.start, s.log, s.cuts, s.order, s.ticket, s.head, s.pos, s.group, w);
    DrawStage(s, w);
    DrawApply(s, w);
    DrawStored(s, w);
    hide GroupInv;
  }

  lemma LoadWalKeeps(s: State, w: nat)
    requires Inv(s) && w < |s.pc| && s.pc[w].WalLoad?
    ensures Inv(LoadWal(s, w))
  {
    hide MemberInv, QueueInv, GroupInv, Logged, Stored, ApplyPos, Tickets, BaseLsn, Kinds, Inserted, WalKinds;
    var s' := LoadWal(s, w);
    LeaderMembers(s, s', w, WalAppend(|s.wals| - 1));
    Projections(s, s', w, WalAppend(|s.wals| - 1));
    Unmoved(Kinds(s), w);
    Unmoved(Inserted(s), w);
  }

  lemma {:induction false} FlattenInto<T>(ss: seq<seq<T>>, f: nat, x: seq<T>)
    requires f < |ss| && forall i :: f < i < |ss| ==> ss[i] == []
    ensures Flatten(ss[f := ss[f] + x]) == Flatten(ss) + x
  {
    var n := |ss| - 1;
    var ss' := ss[f := ss[f] + x];
    if f == n {
      assert ss'[..n] == ss[..n];
      Associative(Flatten(ss[..n]), ss[n], x);
    } else {
      assert ss'[..n] == ss[..n][f := ss[..n][f] + x];
      FlattenInto(ss[..n], f, x);
      assert Flatten(ss[..n]) + [] == Flatten(ss[..n]);
      assert (Flatten(ss[..n]) + x) + [] == Flatten(ss[..n]) + x;
    }
  }

  /** Record j of ticket t's group. */
  lemma RecordOf(start: nat, log: seq<Rec>, cuts: seq<nat>, order: seq<nat>, ticket: seq<nat>,
                 head: seq<nat>, pos: seq<nat>, group: seq<seq<nat>>, t: nat, j: nat)
    requires |cuts| == |order| && |ticket| == |head| == |pos| == |group| && t < |order|
    requires Logged(start, log, cuts, order, ticket, head, pos, group)
    requires order[t] < |group| && j < |group[order[t]]|
    ensures cuts[t] + j < |log| && log[cuts[t] + j] == Rec(group[order[t]][j], start + cuts[t] + j)
  {
    CutsWithin(start, log, cuts, order, ticket, head, pos, group, t);
    hide CutEnd;
    assert RecordAt(start, log, cuts, order, ticket, head, pos, group, cuts[t] + j);
  }

  lemma SegmentRecord(s: State, t: nat, j: nat)
    requires Shape(s) && LogInv(s) && t < |s.order| && s.order[t] < |s.pc| && s.ticket[s.order[t]] == t
    requires j < |s.group[s.order[t]]|
    ensures s.cuts[t] + j < |s.log|
    ensures s.log[s.cuts[t] + j] == Rec(s.group[s.order[t]][j], CommittedLsn(s, s.order[t]) + j)
  {
    hide Logged;
    RecordOf(s.start, s.log, s.cuts, s.order, s.ticket, s.head, s.pos, s.group, t, j);
  }

  /** The records a leader writes are its segment of the log. */
  lemma SegmentIsBatch(s: State, t: nat)
    requires Shape(s) && LogInv(s) && t < |s.order| && s.order[t] < |s.pc| && s.ticket[s.order[t]] == t
    ensures var l := s.order[t];
            s.cuts[t] + |s.group[l]| <= |s.log|
            && Batch(s.group[l], CommittedLsn(s, l)) == s.log[s.cuts[t]..s.cuts[t] + |s.group[l]|]
  {
    CutsWithin(s.start, s.log, s.cuts, s.order, s.ticket, s.head, s.pos, s.group, t);
    hide BaseLsn, Logged;
    forall j | 0 <= j < |s.group[s.order[t]]|
      ensures s.log[s.cuts[t] + j] == Rec(s.group[s.order[t]][j], CommittedLsn(s, s.order[t]) + j)
    {
      SegmentRecord(s, t, j);
    }
  }

  /** The leader in flight holds the last ticket. */
  lemma InFlight(s: State, w: nat)
    requires Shape(s) && TicketInv(s) && WalInv(s) && w < |s.pc| && s.pc[w].WalAppend?
    requires AppendPos(WalKinds(s.pc), s.owner, s.order, s.cuts, |s.log|, s.wals, s.appended)
    ensures s.owner == Some(w) && s.order != [] && s.order[|s.order| - 1] == w && s.ticket[w] == |s.order| - 1
    ensures s.appended == s.cuts[|s.cuts| - 1] && s.pc[w].file < |s.wals|
    ensures forall f :: s.pc[w].file < f < |s.wals| ==> s.wals[f] == []
  {
    assert WalKinds(s.pc)[w] == Appending(s.pc[w].file);
    assert Kinds(s)[w] == Holding;
  }

  /** The WALs after the append, given where the leader in flight stands. */
  lemma AppendedWals(wals: seq<seq<Rec>>, f: nat, batch: seq<Rec>, log: seq<Rec>, appended: nat)
    requires f < |wals| && (forall i :: f < i < |wals| ==> wals[i] == [])
    requires appended <= |log| && Flatten(wals) == log[..appended] && batch == log[appended..]
    ensures Flatten(wals[f := wals[f] + batch]) == log[..|log|]
  {
    FlattenInto(wals, f, batch);
    hide Flatten;
    assert log[..appended] + log[appended..] == log == log[..|log|];
  }

  lemma LastSegment(s: State, w: nat)
    requires Shape(s) && LogInv(s) && s.order != [] && s.order[|s.order| - 1] == w && w < |s.pc|
    requires s.ticket[w] == |s.order| - 1
    ensures var cut := s.cuts[|s.cuts| - 1];
            && cut <= |s.log| && Batch(s.group[w], CommittedLsn(s, w)) == s.log[cut..]
            && cut + |s.group[w]| == |s.log|
  {
    var t := |s.order| - 1;
    hide BaseLsn, RecordAt, Batch;
    SegmentIsBatch(s, t);
    assert s.cuts[t] + |s.group[w]| == CutEnd(s.cuts, s.log, t) == |s.log|;
    hide Logged;
    assert s.log[s.cuts[t]..|s.log|] == s.log[s.cuts[t]..];
  }

  lemma AppendStored(s: State, w: nat)
    requires Shape(s) && TicketInv(s) && StoreInv(s) && WalInv(s) && LogInv(s) && w < |s.pc| && s.pc[w].WalAppend?
    ensures var s' := Append(s, w);
            && s'.appended == |s.log| && Stored(s'.wals, s'.mems, s'.log, s'.appended, s'.applied)
            && |s'.wals| == |s.wals| && s.pc[w].file < |s.wals|
  {
    hide TicketInv, WalInv, LogInv, AppendPos, ApplyPos, Flatten, BaseLsn, Batch;
    InFlight(s, w);
    LastSegment(s, w);
    AppendedWals(s.wals, s.pc[w].file, Batch(s.group[w], CommittedLsn(s, w)), s.log, s.appended);
  }

  lemma AppendKeeps(s: State, w: nat)
    requires Inv(s) && w < |s.pc| && s.pc[w].WalAppend?
    ensures Inv(Append(s, w))
  {
    hide MemberInv, QueueInv, GroupInv, Logged, Stored, ApplyPos, Tickets, BaseLsn, Kinds, Inserted, WalKinds;
    var s' := Append(s, w);
    AppendStored(s, w);
    LeaderMembers(s, s', w, WalRelease);
    Projections(s, s', w, WalRelease);
    Unmoved(Kinds(s), w);
    Unmoved(Inserted(s), w);
  }

  lemma ReleaseWalStage(s: State, w: nat)
    requires Shape(s) && WalInv(s) && w < |s.pc| && s.pc[w].WalRelease?
    requires AppendPos(WalKinds(s.pc), s.owner, s.order, s.cuts, |s.log|, s.wals, s.appended)
    ensures var s' := ReleaseWal(s, w);
            WalInv(s') && AppendPos(WalKinds(s'.pc), s'.owner, s'.order, s'.cuts, |s'.log|, s'.wals, s'.appended)
  {
    var kinds, kinds' := WalKinds(s.pc), WalKinds(ReleaseWal(s, w).pc);
    assert kinds[w] == Inside;
    forall i | 0 <= i < |s.pc|
      ensures kinds'[i] == if i == w || kinds[i].Dozing? then Outside else kinds[i]
    {}
    hide WalKinds;
  }

  lemma ReleaseWalKeeps(s: State, w: nat)
    requires Inv(s) && w < |s.pc| && s.pc[w].WalRelease?
    ensures Inv(ReleaseWal(s, w))
  {
    hide MemberInv, QueueInv, GroupInv, Logged, Stored, AppendPos, ApplyPos, Tickets, WalInv, BaseLsn;
    var s' := ReleaseWal(s, w);
    assert LeadersMoved(s, s');
    LeadersMovedMembers(s, s');
    assert Kinds(s') == Kinds(s);
    assert Inserted(s') == Inserted(s);
    hide LeadersMoved, Kinds, Inserted, WalKinds;
    ReleaseWalStage(s, w);
  }

  // --- The memtable stage ---

  /** A ticket holder may go to sleep, wake up or enter the stage as its ticket allows. */
  lemma Rekind(kinds: seq<Kind>, ticket: seq<nat>, order: seq<nat>, toMem: nat, w: nat, k: Kind)
    requires Tickets(kinds, ticket, order, toMem) && w < |kinds|
    requires kinds[w] != Before && kinds[w] != After && k != Before && k != After
    requires (k == Entered ==> ticket[w] == toMem) && (k == Sleeping ==> ticket[w] != toMem)
    ensures Tickets(kinds[w := k], ticket, order, toMem)
  {}

  lemma EnterMemKeeps(s: State, w: nat)
    requires Inv(s) && w < |s.pc| && s.pc[w].MemCheck?
    ensures Inv(EnterMem(s, w))
  {
    hide MemberInv, QueueInv, GroupInv, Logged, Stored, AppendPos, ApplyPos, Tickets, WalStage, BaseLsn, Kinds,
         Inserted, WalKinds;
    var s' := EnterMem(s, w);
    var p := if s.sync.ticketToMem == s.ticket[w] then MemInsert(0) else MemAsleep;
    LeaderMembers(s, s', w, p);
    Projections(s, s', w, p);
    Unmoved(Inserted(s), w);
    Unmoved(WalKinds(s.pc), w);
    Rekind(Kinds(s), s.ticket, s.order, s.sync.ticketToMem, w, KindOf(p, s.group[w] != []));
  }

  /** Who is in the memtable stage, and how far the log has been applied. */
  lemma InStage(s: State, w: nat)
    requires Shape(s) && TicketInv(s) && w < |s.pc| && InMem(s.pc[w])
    requires ApplyPos(Inserted(s), s.order, s.cuts, s.sync.ticketToMem, |s.log|, s.applied)
    ensures var t := s.sync.ticketToMem;
            && s.ticket[w] == t < |s.order| && s.order[t] == w
            && s.applied == s.cuts[t] + InsertedBy(s.pc[w], |s.group[w]|)
  {
    assert Kinds(s)[w] == Entered;
  }

  lemma InsertedMems(mems: seq<seq<Rec>>, r: Rec, log: seq<Rec>, applied: nat)
    requires mems != [] && applied < |log| && Flatten(mems) == log[..applied] && r == log[applied]
    ensures Flatten(mems[|mems| - 1 := mems[|mems| - 1] + [r]]) == log[..applied + 1]
  {
    FlattenInto(mems, |mems| - 1, [r]);
    hide Flatten;
    assert log[..applied] + [log[applied]] == log[..applied + 1];
  }

  lemma InsertStored(s: State, w: nat, full: bool)
    requires Shape(s) && TicketInv(s) && LogInv(s) && w < |s.pc| && s.pc[w].MemInsert? && s.pc[w].next < |s.group[w]|
    requires Stored(s.wals, s.mems, s.log, s.appended, s.applied)
    requires ApplyPos(Inserted(s), s.order, s.cuts, s.sync.ticketToMem, |s.log|, s.applied)
    ensures var s' := InsertNext(s, w, full); Stored(s'.wals, s'.mems, s'.log, s'.appended, s'.applied)
  {
    hide TicketInv, LogInv, Flatten, BaseLsn, Inserted, ApplyPos;
    var k := s.pc[w].next;
    InStage(s, w);
    SegmentRecord(s, s.sync.ticketToMem, k);
    InsertedMems(s.mems, Rec(s.group[w][k], CommittedLsn(s, w) + k), s.log, s.applied);
  }

  lemma InsertApply(s: State, w: nat, full: bool)
    requires Shape(s) && TicketInv(s) && w < |s.pc| && s.pc[w].MemInsert? && s.pc[w].next < |s.group[w]|
    requires ApplyPos(Inserted(s), s.order, s.cuts, s.sync.ticketToMem, |s.log|, s.applied)
    ensures var s' := InsertNext(s, w, full);
            ApplyPos(Inserted(s'), s'.order, s'.cuts, s'.sync.ticketToMem, |s'.log|, s'.applied)
  {
    InStage(s, w);
    Projections(s, InsertNext(s, w, full), w, MemInsert(s.pc[w].next + 1));
    hide TicketInv, BaseLsn, Inserted;
  }

  lemma InsertOneKeeps(s: State, w: nat, full: bool)
    requires Inv(s) && w < |s.pc| && s.pc[w].MemInsert? && s.pc[w].next < |s.group[w]|
    ensures Inv(InsertNext(s, w, full))
  {
    hide MemberInv, QueueInv, GroupInv, Logged, Stored, AppendPos, ApplyPos, Tickets, WalStage, BaseLsn, Kinds,
         Inserted, WalKinds;
    var s' := InsertNext(s, w, full);
    var p := MemInsert(s.pc[w].next + 1);
    LeaderMembers(s, s', w, p);
    Projections(s, s', w, p);
    Unmoved(Kinds(s), w);
    Unmoved(WalKinds(s.pc), w);
    InsertStored(s, w, full);
    InsertApply(s, w, full);
  }

  lemma InsertEndKeeps(s: State, w: nat, full: bool)
    requires Inv(s) && w < |s.pc| && s.pc[w].MemInsert? && s.pc[w].next == |s.group[w]|
    ensures Inv(InsertNext(s, w, full))
  {
    hide MemberInv, QueueInv, GroupInv, WalInv, TicketInv, LogInv, StoreInv, BaseLsn;
    StandingMove(s, w, if full then MemRotate else MemRelease);
  }

  lemma InsertKeeps(s: State, w: nat, full: bool)
    requires Inv(s) && w < |s.pc| && s.pc[w].MemInsert?
    ensures Inv(InsertNext(s, w, full))
  {
    hide QueueInv, GroupInv, WalInv, TicketInv, LogInv, StoreInv, BaseLsn, Placed, InsertNext;
    if s.pc[w].next < |s.group[w]| {
      InsertOneKeeps(s, w, full);
    } else {
      InsertEndKeeps(s, w, full);
    }
  }

  lemma FlattenRotated<T>(ss: seq<seq<T>>)
    ensures Flatten(ss + [[]]) == Flatten(ss)
  {
    assert (ss + [[]])[..|ss|] == ss;
    assert Flatten(ss) + [] == Flatten(ss);
  }

  lemma RotateAppendPos(kinds: seq<WalKind>, owner: Option<nat>, order: seq<nat>, cuts: seq<nat>, logSize: nat,
                        wals: seq<seq<Rec>>, appended: nat)
    requires |cuts| == |order| && AppendPos(kinds, owner, order, cuts, logSize, wals, appended)
    ensures AppendPos(kinds, owner, order, cuts, logSize, wals + [[]], appended)
  {}

  lemma RotateKeeps(s: State, w: nat)
    requires Inv(s) && w < |s.pc| && s.pc[w].MemRotate?
    ensures Inv(Rotate(s, w))
  {
    hide MemberInv, QueueInv, GroupInv, Logged, AppendPos, ApplyPos, Tickets, WalStage, BaseLsn, Kinds, Inserted,
         WalKinds, Flatten;
    var s' := Rotate(s, w);
    LeaderMembers(s, s', w, MemRelease);
    Projections(s, s', w, MemRelease);
    Unmoved(Kinds(s), w);
    Unmoved(WalKinds(s.pc), w);
    Unmoved(Inserted(s), w);
    FlattenRotated(s.wals);
    FlattenRotated(s.mems);
    RotateAppendPos(WalKinds(s.pc), s.owner, s.order, s.cuts, |s.log|, s.wals, s.appended);
  }

  /** The stage passes to the next ticket. */
  lemma NextTicket(kinds: seq<Kind>, kinds': seq<Kind>, ticket: seq<nat>, order: seq<nat>, toMem: nat, w: nat)
    requires Tickets(kinds, ticket, order, toMem) && w < |kinds| == |kinds'| && kinds[w] == Entered
    requires forall i :: 0 <= i < |kinds| ==>
               kinds'[i] == if i == w then After else if kinds[i] == Sleeping then Holding else kinds[i]
    ensures Tickets(kinds', ticket, order, toMem + 1)
  {}

  lemma ReleaseKinds(s: State, w: nat)
    requires Shape(s) && w < |s.pc| && s.pc[w].MemRelease? && s.group[w] != []
    ensures var s' := ReleaseTicket(s, w);
            && WalKinds(s'.pc) == WalKinds(s.pc)
            && Kinds(s)[w] == Entered
            && (forall i :: 0 <= i < |s.pc| ==>
                  Kinds(s')[i] == if i == w then After else if Kinds(s)[i] == Sleeping then Holding else Kinds(s)[i])
            && (forall i :: 0 <= i < |s.pc| && i != w ==> Inserted(s')[i] == Inserted(s)[i])
            && (forall i :: 0 <= i < |s.pc| && Kinds(s)[i] != Entered ==> Inserted(s)[i] == 0)
  {}

  lemma NextApply(inserted: seq<nat>, inserted': seq<nat>, kinds: seq<Kind>, ticket: seq<nat>, order: seq<nat>,
                  cuts: seq<nat>,
                  toMem: nat, log: seq<Rec>, applied: nat, size: nat)
    requires |cuts| == |order| && |inserted| == |inserted'| == |kinds| && Tickets(kinds, ticket, order, toMem)
    requires toMem < |order|
    requires applied == cuts[toMem] + size && cuts[toMem] + size == CutEnd(cuts, log, toMem)
    requires forall i :: 0 <= i < |kinds| && i != order[toMem] ==> inserted'[i] == inserted[i]
    requires forall i :: 0 <= i < |kinds| && kinds[i] != Entered ==> inserted[i] == 0
    ensures ApplyPos(inserted', order, cuts, toMem + 1, |log|, applied)
  {
    if toMem + 1 < |order| {
      assert ticket[order[toMem + 1]] == toMem + 1;
    }
  }

  lemma ReleaseApply(s: State, w: nat)
    requires Shape(s) && TicketInv(s) && LogInv(s) && w < |s.pc| && s.pc[w].MemRelease? && s.group[w] != []
    requires ApplyPos(Inserted(s), s.order, s.cuts, s.sync.ticketToMem, |s.log|, s.applied)
    ensures var s' := ReleaseTicket(s, w);
            && TicketInv(s')
            && ApplyPos(Inserted(s'), s'.order, s'.cuts, s'.sync.ticketToMem, |s'.log|, s'.applied)
  {
    var t := s.sync.ticketToMem;
    var s' := ReleaseTicket(s, w);
    InStage(s, w);
    ReleaseKinds(s, w);
    CutOf(s, t);
    hide Kinds, Inserted, LogInv, Tickets, ApplyPos, WakeMem, CutEnd;
    NextTicket(Kinds(s), Kinds(s'), s.ticket, s.order, t, w);
    NextApply(Inserted(s), Inserted(s'), Kinds(s), s.ticket, s.order, s.cuts, t, s.log, s.applied, |s.group[w]|);
  }

  lemma CutOf(s: State, t: nat)
    requires Shape(s) && LogInv(s) && t < |s.order|
    ensures s.order[t] < |s.group| && s.cuts[t] + |s.group[s.order[t]]| == CutEnd(s.cuts, s.log, t)
  {
    hide RecordAt, CutEnd;
  }

  lemma ReleaseMembers(s: State, w: nat)
    requires Members(s) && w < |s.pc| && s.pc[w].MemRelease?
    ensures Members(ReleaseTicket(s, w)) && s.group[w] != []
  {
    assert s.group[w] != [];
    hide MemberInv, QueueInv, GroupInv, BaseLsn;
    assert LeadersMoved(s, ReleaseTicket(s, w));
    LeadersMovedMembers(s, ReleaseTicket(s, w));
  }

  lemma ReleaseTicketKeeps(s: State, w: nat)
    requires Inv(s) && w < |s.pc| && s.pc[w].MemRelease?
    ensures Inv(ReleaseTicket(s, w))
  {
    hide MemberInv, QueueInv, GroupInv, Logged, Stored, AppendPos, ApplyPos, TicketInv, WalStage, BaseLsn, Kinds,
         Inserted, WalKinds, WakeMem;
    ReleaseMembers(s, w);
    ReleaseKinds(s, w);
    ReleaseApply(s, w);
  }

  lemma FinishKeeps(s: State, w: nat)
    requires Inv(s) && w < |s.pc| && s.pc[w].Finishing?
    ensures Inv(FinishNext(s, w))
  {
    hide MemberInv, QueueInv, WalInv, TicketInv, LogInv, StoreInv, BaseLsn, Placed, MayMove;
    var k := s.pc[w].next;
    if k < |s.group[w]| {
      MemberQuiet(s, w, k);
      ToldKeeps(s, w, k, Finishing(k + 1), ToldDone(CommittedLsn(s, w)));
    } else {
      FinishMay(s, w);
      SamePlace(s, w);
      MoveKeeps(s, w, Done(CommittedLsn(s, w)), s.slot[w]);
    }
  }

  lemma FinishMay(s: State, w: nat)
    requires Members(s) && w < |s.pc| && s.pc[w].Finishing? && s.pc[w].next >= |s.group[w]|
    ensures MayMove(s, w, Done(CommittedLsn(s, w)), s.slot[w])
  {
    assert Placed(s, w) && s.head[w] == w && s.group[w] != [];
    hide BaseLsn, MemberInv, GroupInv;
  }

  // --- Spurious wake-ups, and every step at once ---

  lemma WalWakeStage(s: State, w: nat)
    requires Shape(s) && WalInv(s) && w < |s.pc| && s.pc[w].WalAsleep?
    requires AppendPos(WalKinds(s.pc), s.owner, s.order, s.cuts, |s.log|, s.wals, s.appended)
    ensures var s' := SpuriousWake(s, w);
            WalInv(s') && AppendPos(WalKinds(s'.pc), s'.owner, s'.order, s'.cuts, |s'.log|, s'.wals, s'.appended)
  {
    Projections(s, SpuriousWake(s, w), w, WalCheck);
    hide WalKinds;
  }

  lemma WalInvOf(s: State, s': State)
    requires WalInv(s) && WalKinds(s'.pc) == WalKinds(s.pc) && s'.sync == s.sync && s'.owner == s.owner
    ensures WalInv(s')
  {}

  lemma LeaderWakeKeeps(s: State, w: nat)
    requires Inv(s) && w < |s.pc| && (s.pc[w].WalAsleep? || s.pc[w].MemAsleep?)
    ensures Inv(SpuriousWake(s, w))
  {
    hide MemberInv, QueueInv, GroupInv, Logged, Stored, AppendPos, ApplyPos, Tickets, WalInv, BaseLsn, Kinds, Inserted,
         WalKinds;
    var s' := SpuriousWake(s, w);
    var p := Woken(s.pc[w]);
    LeaderMembers(s, s', w, p);
    Projections(s, s', w, p);
    Unmoved(Inserted(s), w);
    if s.pc[w].WalAsleep? {
      Unmoved(Kinds(s), w);
      WalWakeStage(s, w);
    } else {
      Unmoved(WalKinds(s.pc), w);
      WalInvOf(s, s');
      Rekind(Kinds(s), s.ticket, s.order, s.sync.ticketToMem, w, Holding);
    }
  }

  lemma WakeKeeps(s: State, w: nat)
    requires Inv(s) && w < |s.pc|
    ensures Inv(SpuriousWake(s, w))
  {
    hide MemberInv, QueueInv, GroupInv, WalInv, TicketInv, LogInv, StoreInv, BaseLsn, MayMove;
    SamePlace(s, w);
    if s.pc[w].SeekAsleep? || s.pc[w].FollowAsleep? {
      var p := Woken(s.pc[w]);
      Waiting(s, w);
      WaiterMay(s, w, p, s.slot[w]);
      MoveKeeps(s, w, p, s.slot[w]);
    } else if Asleep(s.pc[w]) {
      LeaderWakeKeeps(s, w);
    }
  }

  /** Every step of every writer keeps the invariant. */
  lemma StepKeeps(s: State, w: nat, full: bool)
    requires Inv(s) && CanStep(s, w)
    ensures Inv(Step(s, w, full))
  {
    hide MemberInv, QueueInv, GroupInv, WalInv, TicketInv, LogInv, StoreInv, Push, Check, Front, Wait, MarkNext,
         TakeWal,
         Draw, LoadWal, Append, ReleaseWal, EnterMem, InsertNext, Rotate, ReleaseTicket, FinishNext, Follow;
    match s.pc[w]
    case Start => PushKeeps(s, w);
    case SeekCheck => CheckKeeps(s, w);
    case SeekFront => FrontKeeps(s, w);
    case SeekWait => WaitKeeps(s, w);
    case Marking(_) => MarkKeeps(s, w);
    case WalCheck => TakeWalKeeps(s, w);
    case WalDraw => DrawKeeps(s, w);
    case WalLoad => LoadWalKeeps(s, w);
    case WalAppend(_) => AppendKeeps(s, w);
    case WalRelease => ReleaseWalKeeps(s, w);
    case MemCheck => EnterMemKeeps(s, w);
    case MemInsert(_) => InsertKeeps(s, w, full);
    case MemRotate => RotateKeeps(s, w);
    case MemRelease => ReleaseTicketKeeps(s, w);
    case Finishing(_) => FinishKeeps(s, w);
    case FollowCheck => FollowKeeps(s, w);
    case _ =>
  }
}
