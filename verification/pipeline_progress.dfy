/** Real-time order, absence of deadlock, and termination of the write protocol. */
module PipelineProgress {
  import opened Codec
  import opened WritePipeline
  import opened PipelineProofs
  import opened PipelineTheorems

  // --- What a step never takes back ---

  /** The log only grows, membership is decided once, and a finished put stays finished. */
  predicate Extends(s: State, s': State)
    requires Shape(s) && Shape(s')
  {
    && |s'.pc| == |s.pc| && s'.start == s.start && s.log <= s'.log
    && forall w :: 0 <= w < |s.pc| && !s.pc[w].Start? ==>
         && !s'.pc[w].Start? && s'.head[w] == s.head[w] && s'.pos[w] == s.pos[w]
         && (s.pc[w].Done? ==> s'.pc[w] == s.pc[w])
  }

  lemma StepExtends(s: State, w: nat, full: bool)
    requires Shape(s) && CanStep(s, w)
    ensures Shape(Step(s, w, full)) && Extends(s, Step(s, w, full))
  {
    hide BaseLsn, Batch, Flatten, CommittedLsn, Push, Check, Front, Wait, MarkNext, TakeWal, Draw, LoadWal, Append,
      ReleaseWal, EnterMem, InsertNext, Rotate, ReleaseTicket, FinishNext, Follow, Extends, Shape;
    match s.pc[w]
    case Start => PushExtends(s, w);
    case Marking(_) => TellExtends(s, w);
    case Finishing(_) => TellExtends(s, w);
    case WalDraw => DrawExtends(s, w);
    case WalRelease => StageExtends(s, w, full);
    case MemRelease => StageExtends(s, w, full);
    case WalAppend(_) => StageExtends(s, w, full);
    case MemInsert(_) => StageExtends(s, w, full);
    case MemRotate => StageExtends(s, w, full);
    case _ => LookExtends(s, w, full);
  }

  lemma PushExtends(s: State, w: nat)
    requires Shape(s) && w < |s.pc| && s.pc[w].Start?
    ensures Shape(Push(s, w)) && Extends(s, Push(s, w))
  {
  }

  lemma TellExtends(s: State, w: nat)
    requires Shape(s) && w < |s.pc|
    ensures s.pc[w].Marking? ==> Shape(MarkNext(s, w)) && Extends(s, MarkNext(s, w))
    ensures s.pc[w].Finishing? ==> Shape(FinishNext(s, w)) && Extends(s, FinishNext(s, w))
  {
    hide BaseLsn;
  }

  lemma DrawExtends(s: State, w: nat)
    requires Shape(s) && w < |s.pc| && s.pc[w].WalDraw?
    ensures Shape(Draw(s, w)) && Extends(s, Draw(s, w))
  {
  }

  lemma StageExtends(s: State, w: nat, full: bool)
    requires Shape(s) && w < |s.pc|
    ensures s.pc[w].WalAppend? ==> Shape(Append(s, w)) && Extends(s, Append(s, w))
    ensures s.pc[w].WalRelease? ==> Shape(ReleaseWal(s, w)) && Extends(s, ReleaseWal(s, w))
    ensures s.pc[w].MemInsert? ==> Shape(InsertNext(s, w, full)) && Extends(s, InsertNext(s, w, full))
    ensures s.pc[w].MemRotate? ==> Shape(Rotate(s, w)) && Extends(s, Rotate(s, w))
    ensures s.pc[w].MemRelease? ==> Shape(ReleaseTicket(s, w)) && Extends(s, ReleaseTicket(s, w))
  {
    hide BaseLsn, Batch;
  }

  /** The remaining steps look at a slot, a flag or a counter and move the stepping writer. */
  predicate Looking(p: Pc) {
    p.SeekCheck? || p.SeekFront? || p.SeekWait? || p.WalCheck? || p.WalLoad? || p.MemCheck? || p.FollowCheck?
  }

  lemma LookExtends(s: State, w: nat, full: bool)
    requires Shape(s) && CanStep(s, w) && Looking(s.pc[w])
    ensures Shape(Step(s, w, full)) && Extends(s, Step(s, w, full))
  {
  }

  lemma AppendFile(s: State, w: nat)
    requires Inv(s) && w < |s.pc| && s.pc[w].WalAppend?
    ensures s.pc[w].file < |s.wals|
  {
    hide MemberInv, QueueInv, GroupInv, LogInv, WalInv, TicketInv, Stored, ApplyPos;
    assert WalKinds(s.pc)[w] == Appending(s.pc[w].file);
  }

  lemma WakeExtends(s: State, w: nat)
    requires Shape(s) && w < |s.pc|
    ensures Shape(SpuriousWake(s, w)) && Extends(s, SpuriousWake(s, w))
  {
  }

  lemma NextExtends(s: State, s': State)
    requires Inv(s) && Next(s, s')
    ensures Inv(s') && Extends(s, s')
  {
    hide Inv, Step, SpuriousWake, Shape, Extends;
    NextKeepsInv(s, s');
    var w: nat, full: bool :| StepsTo(s, w, full, s');
    if CanStep(s, w) && s' == Step(s, w, full) {
      StepExtends(s, w, full);
    } else {
      WakeExtends(s, w);
    }
  }

  lemma {:induction false} RunExtends(run: seq<State>, n: nat, start: nat, i: nat, j: nat)
    requires IsRun(run, n, start) && i <= j < |run|
    ensures Inv(run[i]) && Inv(run[j]) && Extends(run[i], run[j])
    decreases j - i
  {
    hide MemberInv, QueueInv, GroupInv, WalInv, TicketInv, LogInv, StoreInv, Init;
    RunKeepsInv(run, n, start, i);
    if i < j {
      assert Next(run[i], run[i + 1]);
      NextExtends(run[i], run[i + 1]);
      RunExtends(run, n, start, i + 1, j);
    }
  }

  /** Real-time order: a put that has returned before another is called has the smaller LSN. */
  lemma RealTimeOrder(run: seq<State>, n: nat, start: nat, i: nat, j: nat, w: nat, v: nat, k: nat) returns (kw: nat)
    requires IsRun(run, n, start) && i <= j < |run|
    requires w < |run[i].pc| && run[i].pc[w].Done?
    requires v < |run[i].pc| && run[i].pc[v].Start?
    requires k < |run[j].log| && run[j].log[k].writer == v
    ensures kw < |run[j].log| && run[j].log[kw].writer == w && run[j].log[kw].lsn < run[j].log[k].lsn
  {
    hide MemberInv, QueueInv, GroupInv, LogInv, WalInv, TicketInv, StoreInv, Init, Next, Flatten;
    RunExtends(run, n, start, i, j);
    kw := OkMeansStored(run[i], w);
    StoredBelow(run[i], kw);
    assert k >= |run[i].log| by {
      if k < |run[i].log| {
        RecordedIsCalled(run[i], k);
      }
    }
    AppliedIsPrefix(run[j]);
  }

  lemma StoredBelow(s: State, k: nat)
    requires Inv(s) && k < |Flatten(s.mems)|
    ensures k < |s.log|
  {
    hide MemberInv, QueueInv, GroupInv, WalInv, TicketInv, LogInv, AppendPos, ApplyPos, Flatten;
  }

  lemma RecordedIsCalled(s: State, k: nat)
    requires Inv(s) && k < |s.log|
    ensures s.log[k].writer < |s.pc| && !s.pc[s.log[k].writer].Start?
  {
    hide MemberInv, QueueInv, WalInv, TicketInv, StoreInv;
    assert RecordAt(s.start, s.log, s.cuts, s.order, s.ticket, s.head, s.pos, s.group, k);
  }

  // --- No lost wake-up, no deadlock ---

  lemma WalSleeperHasOwner(s: State, w: nat) returns (v: nat)
    requires Inv(s) && w < |s.pc| && s.pc[w].WalAsleep?
    ensures CanStep(s, v)
  {
    hide MemberInv, QueueInv, GroupInv, TicketInv, LogInv, StoreInv;
    assert WalKinds(s.pc)[w] == Dozing;
    v := s.owner.value;
    assert WalKinds(s.pc)[v] == WalKindOf(s.pc[v]);
  }

  lemma MemSleeperHasHolder(s: State, w: nat) returns (v: nat)
    requires Inv(s) && w < |s.pc| && s.pc[w].MemAsleep?
    ensures CanStep(s, v)
  {
    hide MemberInv, QueueInv, GroupInv, WalInv, LogInv, StoreInv;
    assert Kinds(s)[w] == Sleeping;
    v := s.order[s.sync.ticketToMem];
    assert Kinds(s)[v] == KindOf(s.pc[v], s.group[v] != []);
  }

  /** Every sleeper waits for someone: the WAL's owner, the lowest ticket's holder, the head of the
      queue, or its own leader. So while any put is unfinished, some writer can step. */
  lemma NoDeadlock(s: State, w: nat) returns (v: nat)
    requires Inv(s) && w < |s.pc| && !s.pc[w].Done?
    ensures CanStep(s, v)
  {
    hide QueueInv, GroupInv, WalInv, TicketInv, LogInv, StoreInv, BaseLsn;
    if CanStep(s, w) {
      v := w;
    } else if s.pc[w].WalAsleep? {
      v := WalSleeperHasOwner(s, w);
    } else if s.pc[w].MemAsleep? {
      v := MemSleeperHasHolder(s, w);
    } else {
      assert Placed(s, w);
      var h := s.head[w];
      if s.group[h] == [] {
        v := QueueHeadIsAwake(s);
      } else {
        assert h != w;
        GroupStartsWithLeader(s, h);
        assert Placed(s, h);
        if s.pc[h].WalAsleep? {
          v := WalSleeperHasOwner(s, h);
        } else if s.pc[h].MemAsleep? {
          v := MemSleeperHasHolder(s, h);
        } else {
          v := h;
        }
      }
    }
  }

  /** The head of a non-empty queue never sleeps before it leads. */
  lemma QueueHeadIsAwake(s: State) returns (v: nat)
    requires Inv(s) && s.sync.queue != []
    ensures v == s.sync.queue[0] && CanStep(s, v) && (s.pc[v].SeekCheck? || s.pc[v].SeekFront?)
  {
    v := s.sync.queue[0];
  }

  // --- Ranking ---

  function Left(size: nat, done: nat): nat { if done < size then size - done else 0 }

  /** Work left for a writer at p leading a group of the given size, before it can only sleep or look. */
  function Work(p: Pc, size: nat): nat {
    match p
    case Start => 16
    case SeekCheck => 12
    case SeekFront => 12
    case SeekWait => 12
    case SeekAsleep => 12
    case Marking(k) => 11 + 2 * size + Left(size, k)
    case WalCheck => 10 + 2 * size
    case WalAsleep => 10 + 2 * size
    case WalDraw => 9 + 2 * size
    case WalLoad => 8 + 2 * size
    case WalAppend(_) => 7 + 2 * size
    case WalRelease => 6 + 2 * size
    case MemCheck => 5 + 2 * size
    case MemAsleep => 5 + 2 * size
    case MemInsert(k) => 4 + size + Left(size, k)
    case MemRotate => 3 + size
    case MemRelease => 2 + size
    case Finishing(k) => 1 + Left(size, k)
    case FollowCheck => 1
    case FollowAsleep => 1
    case Done(_) => 0
  }

  /** Looks left before sleeping, or before seeing a told slot. */
  function Looks(p: Pc, sl: Slot): (r: nat)
    ensures r <= 3
  {
    match p
    case SeekCheck => if sl.Empty? then 3 else 1
    case SeekFront => if sl.Empty? then 2 else 3
    case SeekWait => if sl.Empty? then 1 else 2
    case WalCheck => 1
    case MemCheck => 1
    case FollowCheck => 1
    case _ => 0
  }

  function Sum(ws: seq<nat>): nat {
    if ws == [] then 0 else Sum(ws[..|ws| - 1]) + ws[|ws| - 1]
  }

  function Works(s: State): (r: seq<nat>)
    requires Shape(s)
    ensures |r| == |s.pc|
  {
    seq(|s.pc|, i requires 0 <= i < |s.pc| => Work(s.pc[i], |s.group[i]|))
  }

  function AllLooks(s: State): (r: seq<nat>)
    requires Shape(s)
    ensures |r| == |s.pc|
    ensures forall i :: 0 <= i < |r| ==> r[i] <= 3
  {
    seq(|s.pc|, i requires 0 <= i < |s.pc| => Looks(s.pc[i], s.slot[i]))
  }

  /** Work left overall; a queued writer still costs its future leader three visits. */
  function TotalWork(s: State): nat
    requires Shape(s)
  {
    3 * |s.sync.queue| + Sum(Works(s))
  }

  /** One number: work first, looks second. */
  function Rank(s: State): nat
    requires Shape(s)
  {
    Times(TotalWork(s), 3 * |s.pc| + 1) + Sum(AllLooks(s))
  }

  function Times(a: nat, b: nat): nat
  {
    assert a * b >= 0;
    a * b
  }

  lemma {:induction false} SumAt(ws: seq<nat>, ws': seq<nat>, w: nat)
    requires |ws| == |ws'| && w < |ws| && forall i :: 0 <= i < |ws| && i != w ==> ws'[i] == ws[i]
    ensures Sum(ws') + ws[w] == Sum(ws) + ws'[w]
  {
    var n := |ws| - 1;
    if w < n {
      SumAt(ws[..n], ws'[..n], w);
    } else {
      assert ws'[..n] == ws[..n];
    }
  }

  lemma {:induction false} SumBound(ws: seq<nat>)
    requires forall i :: 0 <= i < |ws| ==> ws[i] <= 3
    ensures Sum(ws) <= 3 * |ws|
  {
    if ws != [] {
      SumBound(ws[..|ws| - 1]);
    }
  }

  lemma RankDrops(s: State, s': State)
    requires Shape(s) && Shape(s') && |s'.pc| == |s.pc|
    requires TotalWork(s') < TotalWork(s) || (TotalWork(s') == TotalWork(s) && Sum(AllLooks(s')) < Sum(AllLooks(s)))
    ensures Rank(s') < Rank(s)
  {
    SumBound(AllLooks(s'));
    hide TotalWork, AllLooks, Shape, Sum;
    if TotalWork(s') < TotalWork(s) {
      FirstDigit(TotalWork(s), TotalWork(s'), 3 * |s.pc| + 1, Sum(AllLooks(s)), Sum(AllLooks(s')));
    }
  }

  lemma FirstDigit(a: nat, b: nat, c: nat, x: nat, y: nat)
    requires b < a && y < c
    ensures b * c + y < a * c + x
  {
    assert (a - b - 1) * c >= 0;
    assert a * c == b * c + c + (a - b - 1) * c;
  }

  /** The step's effect on the weights: the stepping writer's drops, the others' stays. */
  lemma WorkDrops(s: State, s': State, w: nat)
    requires Shape(s) && Shape(s') && |s'.pc| == |s.pc| && w < |s.pc|
    requires forall i :: 0 <= i < |s.pc| && i != w ==> Works(s')[i] == Works(s)[i]
    requires 3 * |s'.sync.queue| + Works(s')[w] < 3 * |s.sync.queue| + Works(s)[w]
    ensures Rank(s') < Rank(s)
  {
    SumAt(Works(s), Works(s'), w);
    hide Works;
    RankDrops(s, s');
  }

  /** A look: work stays, the stepping writer has fewer looks left. */
  lemma LooksDrop(s: State, s': State, w: nat)
    requires Shape(s) && Shape(s') && |s'.pc| == |s.pc| && w < |s.pc| && s'.sync.queue == s.sync.queue
    requires forall i :: 0 <= i < |s.pc| ==> Works(s')[i] == Works(s)[i]
    requires forall i :: 0 <= i < |s.pc| && i != w ==> AllLooks(s')[i] == AllLooks(s)[i]
    requires AllLooks(s')[w] < AllLooks(s)[w]
    ensures Rank(s') < Rank(s)
  {
    assert Works(s') == Works(s);
    SumAt(AllLooks(s), AllLooks(s'), w);
    hide Works, AllLooks;
    RankDrops(s, s');
  }

  lemma PushDrops(s: State, w: nat)
    requires Shape(s) && w < |s.pc| && s.pc[w].Start?
    ensures Rank(Push(s, w)) < Rank(s)
  {
    hide AllLooks, Rank;
    WorkDrops(s, Push(s, w), w);
  }

  lemma SeekDrops(s: State, w: nat)
    requires Shape(s) && w < |s.pc|
    ensures s.pc[w].SeekCheck? ==> Rank(Check(s, w)) < Rank(s)
    ensures s.pc[w].SeekFront? && Front(s, w).pc[w].SeekWait? ==> Rank(Front(s, w)) < Rank(s)
    ensures s.pc[w].SeekWait? ==> Rank(Wait(s, w)) < Rank(s)
  {
    hide Rank;
    if s.pc[w].SeekCheck? {
      if s.slot[w].Empty? {
        LooksDrop(s, Check(s, w), w);
      } else {
        hide AllLooks;
        WorkDrops(s, Check(s, w), w);
      }
    } else if s.pc[w].SeekFront? && Front(s, w).pc[w].SeekWait? {
      LooksDrop(s, Front(s, w), w);
    } else if s.pc[w].SeekWait? {
      LooksDrop(s, Wait(s, w), w);
    }
  }

  /** Draining the queue pays for the visits the leader will make to its members. */
  lemma LeadDrops(s: State, w: nat)
    requires Shape(s) && w < |s.pc| && s.pc[w].SeekFront? && s.sync.queue != [] && s.sync.queue[0] == w
    ensures Rank(Front(s, w)) < Rank(s)
  {
    hide AllLooks, Rank;
    WorkDrops(s, Front(s, w), w);
  }

  lemma MarkDrops(s: State, w: nat)
    requires Shape(s) && w < |s.pc| && s.pc[w].Marking?
    ensures Shape(MarkNext(s, w)) && Rank(MarkNext(s, w)) < Rank(s)
  {
    hide AllLooks, Rank;
    WorkDrops(s, MarkNext(s, w), w);
  }

  lemma FinishDrops(s: State, w: nat)
    requires Shape(s) && w < |s.pc| && s.pc[w].Finishing?
    ensures Shape(FinishNext(s, w)) && Rank(FinishNext(s, w)) < Rank(s)
  {
    hide AllLooks, Rank, BaseLsn;
    WorkDrops(s, FinishNext(s, w), w);
  }

  lemma TakeWalDrops(s: State, w: nat)
    requires Shape(s) && w < |s.pc| && s.pc[w].WalCheck?
    ensures Rank(TakeWal(s, w)) < Rank(s)
  {
    hide Rank;
    if s.sync.walBusy {
      LooksDrop(s, TakeWal(s, w), w);
    } else {
      hide AllLooks;
      WorkDrops(s, TakeWal(s, w), w);
    }
  }

  lemma DrawDrops(s: State, w: nat)
    requires Shape(s) && w < |s.pc| && s.pc[w].WalDraw?
    ensures Rank(Draw(s, w)) < Rank(s)
  {
    hide Rank, AllLooks, Batch;
    WorkDrops(s, Draw(s, w), w);
  }

  lemma WalDrops(s: State, w: nat)
    requires Shape(s) && w < |s.pc|
    requires s.pc[w].WalAppend? ==> s.pc[w].file < |s.wals|
    ensures s.pc[w].WalLoad? ==> Rank(LoadWal(s, w)) < Rank(s)
    ensures s.pc[w].WalAppend? ==> Rank(Append(s, w)) < Rank(s)
    ensures s.pc[w].WalRelease? ==> Rank(ReleaseWal(s, w)) < Rank(s)
  {
    hide Rank, AllLooks, BaseLsn, Batch;
    if s.pc[w].WalLoad? {
      WorkDrops(s, LoadWal(s, w), w);
    } else if s.pc[w].WalAppend? {
      WorkDrops(s, Append(s, w), w);
    } else if s.pc[w].WalRelease? {
      WorkDrops(s, ReleaseWal(s, w), w);
    }
  }

  lemma EnterMemDrops(s: State, w: nat)
    requires Shape(s) && w < |s.pc| && s.pc[w].MemCheck?
    ensures Rank(EnterMem(s, w)) < Rank(s)
  {
    hide Rank;
    if s.sync.ticketToMem != s.ticket[w] {
      LooksDrop(s, EnterMem(s, w), w);
    } else {
      hide AllLooks;
      WorkDrops(s, EnterMem(s, w), w);
    }
  }

  lemma MemDrops(s: State, w: nat, full: bool)
    requires Shape(s) && w < |s.pc|
    ensures s.pc[w].MemInsert? ==> Rank(InsertNext(s, w, full)) < Rank(s)
    ensures s.pc[w].MemRotate? ==> Rank(Rotate(s, w)) < Rank(s)
    ensures s.pc[w].MemRelease? ==> Rank(ReleaseTicket(s, w)) < Rank(s)
  {
    hide Rank, AllLooks, BaseLsn;
    if s.pc[w].MemInsert? {
      WorkDrops(s, InsertNext(s, w, full), w);
    } else if s.pc[w].MemRotate? {
      WorkDrops(s, Rotate(s, w), w);
    } else if s.pc[w].MemRelease? {
      WorkDrops(s, ReleaseTicket(s, w), w);
    }
  }

  lemma FollowDrops(s: State, w: nat)
    requires Shape(s) && w < |s.pc| && s.pc[w].FollowCheck? && !s.slot[w].ToldFollow?
    ensures Rank(Follow(s, w)) < Rank(s)
  {
    hide Rank;
    if s.slot[w].Empty? {
      LooksDrop(s, Follow(s, w), w);
    } else {
      hide AllLooks;
      WorkDrops(s, Follow(s, w), w);
    }
  }

  lemma FollowerSlot(s: State, w: nat)
    requires Inv(s) && w < |s.pc| && s.pc[w].FollowCheck?
    ensures !s.slot[w].ToldFollow?
  {
    hide QueueInv, GroupInv, WalInv, TicketInv, LogInv, StoreInv, BaseLsn;
    assert Placed(s, w);
  }

  lemma InvShape(s: State)
    requires Inv(s)
    ensures Shape(s)
  {
    hide Shape;
  }

  /** Every step of every writer brings the end nearer. */
  lemma StepDropsRank(s: State, w: nat, full: bool)
    requires Inv(s) && Shape(s) && CanStep(s, w)
    ensures Shape(Step(s, w, full)) && Rank(Step(s, w, full)) < Rank(s)
  {
    hide Rank, Inv, Shape, CommittedLsn, Push, Check, Wait, MarkNext, TakeWal, Draw, LoadWal, Append,
      ReleaseWal, EnterMem, InsertNext, Rotate, ReleaseTicket, FinishNext, Follow, Extends;
    if s.pc[w].WalAppend? {
      AppendFile(s, w);
    }
    StepExtends(s, w, full);
    match s.pc[w]
    case Start => PushDrops(s, w);
    case SeekCheck => SeekDrops(s, w);
    case SeekWait => SeekDrops(s, w);
    case SeekFront => FrontDrops(s, w);
    case Marking(_) => MarkDrops(s, w);
    case Finishing(_) => FinishDrops(s, w);
    case FollowCheck =>
      FollowerSlot(s, w);
      FollowDrops(s, w);
    case WalCheck => TakeWalDrops(s, w);
    case WalDraw => DrawDrops(s, w);
    case MemCheck => EnterMemDrops(s, w);
    case MemInsert(_) => MemDrops(s, w, full);
    case MemRotate => MemDrops(s, w, full);
    case MemRelease => MemDrops(s, w, full);
    case _ => WalDrops(s, w);
  }

  lemma FrontDrops(s: State, w: nat)
    requires Shape(s) && w < |s.pc| && s.pc[w].SeekFront?
    ensures Shape(Front(s, w)) && Rank(Front(s, w)) < Rank(s)
  {
    hide Rank;
    if s.sync.queue != [] && s.sync.queue[0] == w {
      LeadDrops(s, w);
    } else {
      SeekDrops(s, w);
    }
  }

  /** A spurious wake-up costs at most three more looks. */
  lemma WakeRank(s: State, w: nat)
    requires Shape(s) && w < |s.pc|
    ensures Shape(SpuriousWake(s, w)) && Rank(SpuriousWake(s, w)) <= Rank(s) + 3
  {
    var s' := SpuriousWake(s, w);
    assert Works(s') == Works(s);
    SumAt(AllLooks(s), AllLooks(s'), w);
    hide Works, AllLooks, Sum;
  }

  // --- Whole schedules ---

  /** One scheduled move: a step of a writer, or a spurious wake-up. */
  datatype Move = Go(w: nat, full: bool) | Wake(w: nat)

  predicate Allowed(s: State, m: Move)
    requires Shape(s)
  {
    if m.Go? then CanStep(s, m.w) else m.w < |s.pc|
  }

  function Apply(s: State, m: Move): State
    requires Shape(s) && Allowed(s, m)
  {
    if m.Go? then Step(s, m.w, m.full) else SpuriousWake(s, m.w)
  }

  ghost predicate Follows(run: seq<State>, moves: seq<Move>, n: nat, start: nat) {
    && |run| == |moves| + 1 && run[0] == Init(n, start)
    && forall i :: 0 <= i < |moves| ==>
         Shape(run[i]) && Allowed(run[i], moves[i]) && run[i + 1] == Apply(run[i], moves[i])
  }

  function Gos(moves: seq<Move>): nat {
    if moves == [] then 0 else Gos(moves[..|moves| - 1]) + if moves[|moves| - 1].Go? then 1 else 0
  }

  lemma InitRank(n: nat, start: nat)
    ensures Shape(Init(n, start)) && Rank(Init(n, start)) == 16 * n * (3 * n + 1)
  {
    var s := Init(n, start);
    assert Works(s) == seq(n, _ => 16) && AllLooks(s) == seq(n, _ => 0);
    SumConstant(16, n);
    SumConstant(0, n);
  }

  lemma {:induction false} SumConstant(c: nat, n: nat)
    ensures Sum(seq(n, _ => c)) == c * n
  {
    if n > 0 {
      SumConstant(c, n - 1);
      assert seq(n, _ => c)[..n - 1] == seq(n - 1, _ => c);
    }
  }

  lemma {:induction false} MovesRank(run: seq<State>, moves: seq<Move>, n: nat, start: nat, i: nat)
    requires Follows(run, moves, n, start) && i <= |moves|
    ensures Inv(run[i]) && Shape(run[i])
    ensures Rank(run[i]) + Gos(moves[..i]) <= 16 * n * (3 * n + 1) + 3 * (i - Gos(moves[..i]))
    ensures Gos(moves[..i]) <= i
  {
    hide Inv, Step, SpuriousWake, Shape, Rank, Init, CanStep;
    if i == 0 {
      InitInv(n, start);
      InitRank(n, start);
    } else {
      MovesRank(run, moves, n, start, i - 1);
      var s, m := run[i - 1], moves[i - 1];
      assert Shape(s) && Allowed(s, m) && run[i] == Apply(s, m);
      assert moves[..i][..i - 1] == moves[..i - 1];
      if m.Go? {
        StepKeeps(s, m.w, m.full);
        StepDropsRank(s, m.w, m.full);
      } else {
        WakeKeeps(s, m.w);
        WakeRank(s, m.w);
      }
    }
  }

  /** Termination: among n writers at most 16n(3n + 1) steps are taken, plus three for every spurious
      wake-up; and a run in which nobody can step has finished every put. */
  lemma RunsAreBounded(run: seq<State>, moves: seq<Move>, n: nat, start: nat)
    requires Follows(run, moves, n, start)
    ensures Gos(moves) <= 16 * n * (3 * n + 1) + 3 * (|moves| - Gos(moves))
    ensures (forall w :: !CanStep(run[|moves|], w)) <==>
              (forall w :: 0 <= w < |run[|moves|].pc| ==> run[|moves|].pc[w].Done?)
  {
    hide Inv, Rank, Apply, Allowed, Shape, Init;
    MovesRank(run, moves, n, start, |moves|);
    assert moves[..|moves|] == moves;
    var s := run[|moves|];
    if forall w :: !CanStep(s, w) {
      forall w: nat | w < |s.pc| ensures s.pc[w].Done? {
        if !s.pc[w].Done? {
          var v := NoDeadlock(s, w);
        }
      }
    }
  }
}
