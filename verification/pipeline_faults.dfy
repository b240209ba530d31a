/** Runs in which WAL writes and rotations may fail: what every put is told, and what an Ok still means. */
module PipelineFaults {
  import opened Codec
  import opened WritePipeline
  import opened PipelineProofs
  import PipelineTheorems
  import opened PipelineProgress
  import opened PipelineLimits

  /** The protocol's state, the leaders whose WAL write failed, those whose rotation failed, and the writers that
      were handed an error. */
  datatype Faulty = Faulty(s: State, failed: set<nat>, unrotated: set<nat>, errors: set<nat>)

  datatype FaultyMove = Sound(move: Move) | FailWrite(w: nat) | FailRotate(w: nat)

  /** What a put returns. */
  datatype Outcome = Pending | Returned(lsn: nat) | Failed

  /** The member a failed leader's guard is about to tell: it gets an error in place of an LSN. */
  function Erred(f: Faulty, m: Move): set<nat> {
    if m.Go? && m.w in f.failed && m.w < |f.s.pc| && m.w < |f.s.group| && f.s.pc[m.w].Finishing?
       && f.s.pc[m.w].next < |f.s.group[m.w]|
    then {f.s.group[m.w][f.s.pc[m.w].next]} else {}
  }

  predicate FaultyNext(f: Faulty, m: FaultyMove, f': Faulty)
    requires Shape(f.s)
  {
    match m
    case Sound(mv) =>
      Allowed(f.s, mv) && f' == f.(s := Apply(f.s, mv), errors := f.errors + Erred(f, mv))
    case FailWrite(w) =>
      w < |f.s.pc| && (f.s.pc[w].WalLoad? || f.s.pc[w].WalAppend?)
      && f' == f.(s := Abort(f.s, w), failed := f.failed + {w})
    case FailRotate(w) =>
      w < |f.s.pc| && f.s.pc[w].MemRotate?
      && f' == f.(s := f.s.(pc := f.s.pc[w := MemRelease]), unrotated := f.unrotated + {w})
  }

  ghost predicate IsFaultyRun(run: seq<Faulty>, moves: seq<FaultyMove>, n: nat, start: nat) {
    && |run| == |moves| + 1 && run[0] == Faulty(Init(n, start), {}, {}, {})
    && forall i :: 0 <= i < |moves| ==> Shape(run[i].s) && FaultyNext(run[i], moves[i], run[i + 1])
  }

  function OutcomeOf(f: Faulty, w: nat): Outcome
    requires w < |f.s.pc|
  {
    if !f.s.pc[w].Done? then Pending
    else if w in f.errors || w in f.unrotated then Failed
    else Returned(f.s.pc[w].lsn)
  }

  // --- Membership, whatever fails ---

  /** Leaders' tickets have been issued. */
  predicate Bounded(s: State)
    requires Shape(s)
  {
    forall l :: 0 <= l < |s.pc| && (Ticketed(s.pc[l]) || Committed(s, l)) ==> s.ticket[l] < |s.cuts|
  }

  predicate Base(s: State) {
    Members(s) && Bounded(s)
  }

  lemma MoveBase(s: State, w: nat, p: Pc, sl: Slot)
    requires Base(s) && w < |s.pc| && MayMove(s, w, p, sl)
    requires !Ticketed(p) && (p.Finishing? || p.Done? ==> s.group[w] == [] || s.pc[w].Finishing?)
    ensures Base(Moved(s, w, p, sl))
  {
    hide Placed, MemberInv, QueueInv, GroupInv, SameStage;
    MoveMembers(s, w, p, sl);
    MoveQueue(s, w, p, sl);
  }

  lemma WaiterBase(s: State, w: nat)
    requires Base(s) && w < |s.pc| && (s.pc[w].SeekCheck? || s.pc[w].SeekWait? || s.pc[w].FollowCheck?)
    ensures s.pc[w].SeekCheck? ==> Base(Check(s, w))
    ensures s.pc[w].SeekWait? ==> Base(Wait(s, w))
    ensures s.pc[w].FollowCheck? ==> Base(Follow(s, w))
  {
    hide MayMove, BaseLsn, Bounded;
    Waiting(s, w);
    SamePlace(s, w);
    hide MemberInv, QueueInv, GroupInv;
    if s.pc[w].SeekWait? {
      var p := if s.slot[w].Empty? then SeekAsleep else SeekCheck;
      WaiterMay(s, w, p, s.slot[w]);
      MoveBase(s, w, p, s.slot[w]);
    } else {
      var p := match s.slot[w]
        case Empty => if s.pc[w].SeekCheck? then SeekFront else FollowAsleep
        case ToldFollow => FollowCheck
        case ToldDone(lsn) => Done(lsn);
      WaiterMay(s, w, p, Empty);
      MoveBase(s, w, p, Empty);
    }
  }

  lemma PushBase(s: State, w: nat)
    requires Base(s) && w < |s.pc| && s.pc[w].Start?
    ensures Base(Push(s, w))
  {
    PushMembers(s, w);
    hide MemberInv, QueueInv, GroupInv;
  }

  lemma FrontBase(s: State, w: nat)
    requires Base(s) && w < |s.pc| && s.pc[w].SeekFront?
    ensures Base(Front(s, w))
  {
    if s.sync.queue != [] && s.sync.queue[0] == w {
      LeadMembers(s, w);
      hide MemberInv, QueueInv, GroupInv;
    } else {
      Waiting(s, w);
      SamePlace(s, w);
      hide MemberInv, QueueInv, GroupInv, MayMove, BaseLsn, Bounded;
      WaiterMay(s, w, SeekWait, s.slot[w]);
      MoveBase(s, w, SeekWait, s.slot[w]);
    }
  }

  lemma ToldBase(s: State, w: nat, k: nat, p: Pc, told: Slot)
    requires Base(s) && w < |s.pc| && k < |s.group[w]| && s.group[w][k] < |s.pc| && MayTell(s, w, k, p, told)
    ensures Base(Told(s, w, k, p, told))
  {
    ToldMembers(s, w, k, p, told);
    hide MemberInv, QueueInv, GroupInv, BaseLsn;
  }

  lemma TellBase(s: State, w: nat)
    requires Base(s) && w < |s.pc| && (s.pc[w].Marking? || s.pc[w].Finishing?)
    ensures Base(if s.pc[w].Marking? then MarkNext(s, w) else FinishNext(s, w))
  {
    hide BaseLsn, Bounded, MayMove, Placed, MemberInv, QueueInv, GroupInv;
    var k := s.pc[w].next;
    if k < |s.group[w]| {
      MemberQuiet(s, w, k);
      if s.pc[w].Marking? {
        ToldBase(s, w, k, Marking(k + 1), ToldFollow);
      } else {
        ToldBase(s, w, k, Finishing(k + 1), ToldDone(CommittedLsn(s, w)));
      }
    } else {
      EndBase(s, w);
    }
  }

  lemma EndBase(s: State, w: nat)
    requires Base(s) && w < |s.pc| && (s.pc[w].Marking? || s.pc[w].Finishing?) && s.pc[w].next >= |s.group[w]|
    ensures Base(if s.pc[w].Marking? then MarkNext(s, w) else FinishNext(s, w))
  {
    hide BaseLsn, Bounded, MayMove, Placed, MemberInv, QueueInv, GroupInv;
    if s.pc[w].Marking? {
      LeaderBase(s, MarkNext(s, w), w, WalCheck);
    } else {
      FinishMay(s, w);
      SamePlace(s, w);
      MoveBase(s, w, Done(CommittedLsn(s, w)), s.slot[w]);
    }
  }

  lemma LeaderBase(s: State, s': State, w: nat, p: Pc)
    requires Base(s) && LeaderAt(s, s', w, p)
    requires Ticketed(p) || p.Finishing? || p.Done? ==> Ticketed(s.pc[w]) || Committed(s, w)
    ensures Base(s')
  {
    hide MemberInv, QueueInv, GroupInv, BaseLsn, SameStanding;
    LeaderMembers(s, s', w, p);
  }

  lemma DrawBase(s: State, w: nat)
    requires Base(s) && w < |s.pc| && s.pc[w].WalDraw?
    ensures Base(Draw(s, w))
  {
    hide MemberInv, QueueInv, GroupInv, Batch;
    var s' := Draw(s, w);
    forall l | 0 <= l < |s.pc| && Committed(s, l) ensures CommittedLsn(s', l) == CommittedLsn(s, l) {}
    assert LeadersMoved(s, s');
    LeadersMovedMembers(s, s');
  }

  lemma ReleaseWalBase(s: State, w: nat)
    requires Base(s) && w < |s.pc| && s.pc[w].WalRelease?
    ensures Base(ReleaseWal(s, w))
  {
    hide MemberInv, QueueInv, GroupInv, BaseLsn;
    assert LeadersMoved(s, ReleaseWal(s, w));
    LeadersMovedMembers(s, ReleaseWal(s, w));
  }

  lemma ReleaseTicketBase(s: State, w: nat)
    requires Base(s) && w < |s.pc| && s.pc[w].MemRelease?
    ensures Base(ReleaseTicket(s, w))
  {
    hide MemberInv, QueueInv, GroupInv, BaseLsn;
    ReleaseMembers(s, w);
  }

  lemma AbortBase(s: State, w: nat)
    requires Base(s) && w < |s.pc| && (s.pc[w].WalLoad? || s.pc[w].WalAppend?)
    ensures Base(Abort(s, w)) && s.group[w] != []
  {
    assert s.group[w] != [];
    hide MemberInv, QueueInv, GroupInv, BaseLsn;
    assert LeadersMoved(s, Abort(s, w));
    LeadersMovedMembers(s, Abort(s, w));
  }

  lemma InsertBase(s: State, w: nat, full: bool)
    requires Base(s) && w < |s.pc| && s.pc[w].MemInsert?
    ensures Base(InsertNext(s, w, full))
  {
    hide QueueInv, GroupInv, BaseLsn, Placed;
    assert s.pc[w].next <= |s.group[w]|;
    hide MemberInv;
    LeaderBase(s, InsertNext(s, w, full), w, InsertNext(s, w, full).pc[w]);
  }

  lemma StageBase(s: State, w: nat)
    requires Base(s) && w < |s.pc|
    ensures s.pc[w].WalCheck? ==> Base(TakeWal(s, w))
    ensures s.pc[w].WalLoad? ==> Base(LoadWal(s, w))
    ensures s.pc[w].MemCheck? ==> Base(EnterMem(s, w))
    ensures s.pc[w].MemRotate? ==> Base(Rotate(s, w)) && Base(s.(pc := s.pc[w := MemRelease]))
  {
    hide MemberInv, QueueInv, GroupInv, BaseLsn, Bounded;
    if s.pc[w].WalCheck? {
      LeaderBase(s, TakeWal(s, w), w, TakeWal(s, w).pc[w]);
    } else if s.pc[w].WalLoad? {
      LeaderBase(s, LoadWal(s, w), w, LoadWal(s, w).pc[w]);
    } else if s.pc[w].MemCheck? {
      LeaderBase(s, EnterMem(s, w), w, EnterMem(s, w).pc[w]);
    } else if s.pc[w].MemRotate? {
      LeaderBase(s, Rotate(s, w), w, MemRelease);
      LeaderBase(s, s.(pc := s.pc[w := MemRelease]), w, MemRelease);
    }
  }

  lemma AppendBase(s: State, w: nat)
    requires Base(s) && w < |s.pc| && s.pc[w].WalAppend?
    ensures Base(Append(s, w))
  {
    hide MemberInv, QueueInv, GroupInv, BaseLsn, Bounded, Batch;
    if s.pc[w].file < |s.wals| {
      LeaderBase(s, Append(s, w), w, WalRelease);
    }
  }

  lemma WakeBase(s: State, w: nat)
    requires Base(s) && w < |s.pc|
    ensures Base(SpuriousWake(s, w))
  {
    SamePlace(s, w);
    var p := Woken(s.pc[w]);
    if s.pc[w].SeekAsleep? || s.pc[w].FollowAsleep? {
      Waiting(s, w);
      hide MemberInv, QueueInv, GroupInv, BaseLsn, Bounded, MayMove;
      WaiterMay(s, w, p, s.slot[w]);
      MoveBase(s, w, p, s.slot[w]);
    } else if Asleep(s.pc[w]) {
      hide MemberInv, QueueInv, GroupInv, BaseLsn, Bounded;
      LeaderBase(s, SpuriousWake(s, w), w, p);
    }
  }

  lemma StepBase(s: State, w: nat, full: bool)
    requires Base(s) && CanStep(s, w)
    ensures Base(Step(s, w, full))
  {
    hide MemberInv, QueueInv, GroupInv, Bounded, Push, Check, Front, Wait, MarkNext, TakeWal, Draw, LoadWal, Append,
         ReleaseWal, EnterMem, InsertNext, Rotate, ReleaseTicket, FinishNext, Follow;
    match s.pc[w]
    case Start => PushBase(s, w);
    case SeekCheck => WaiterBase(s, w);
    case SeekFront => FrontBase(s, w);
    case SeekWait => WaiterBase(s, w);
    case Marking(_) => TellBase(s, w);
    case WalDraw => DrawBase(s, w);
    case WalAppend(_) => AppendBase(s, w);
    case WalRelease => ReleaseWalBase(s, w);
    case MemInsert(_) => InsertBase(s, w, full);
    case MemRelease => ReleaseTicketBase(s, w);
    case Finishing(_) => TellBase(s, w);
    case FollowCheck => WaiterBase(s, w);
    case _ => StageBase(s, w);
  }

  // --- Who is told an error ---

  /** Its leader has told it the outcome, or has returned. */
  predicate Completed(s: State, x: nat)
    requires Shape(s)
  {
    && x < |s.pc| && !s.pc[x].Start? && s.head[x] < |s.pc| && s.group[s.head[x]] != []
    && PhaseOf(s.pc[s.head[x]], s.pos[x]).Completed?
  }

  /** The member a finishing leader tells next. */
  predicate Tells(s: State, w: nat, x: nat)
    requires Shape(s)
  {
    w < |s.pc| && s.pc[w].Finishing? && s.pc[w].next < |s.group[w]| && s.group[w][s.pc[w].next] == x
  }

  lemma PushCompletes(s: State, w: nat, x: nat)
    requires Base(s) && w < |s.pc| && s.pc[w].Start?
    ensures Completed(Push(s, w), x) <==> Completed(s, x)
  {
    hide Placed, Bounded;
  }

  lemma FrontCompletes(s: State, w: nat, x: nat)
    requires Base(s) && w < |s.pc| && s.pc[w].SeekFront?
    ensures Completed(Front(s, w), x) <==> Completed(s, x)
  {
    Waiting(s, w);
    hide Placed, Bounded, MemberInv, QueueInv, GroupInv;
  }

  /** A writer outside the leaders moves no phase. */
  lemma MovedCompletes(s: State, w: nat, p: Pc, sl: Slot, x: nat)
    requires Shape(s) && w < |s.pc| && s.group[w] == [] && !s.pc[w].Start? && !p.Start?
    ensures Completed(Moved(s, w, p, sl), x) <==> Completed(s, x)
  {}

  lemma WaiterCompletes(s: State, w: nat, x: nat)
    requires Base(s) && w < |s.pc| && (s.pc[w].SeekCheck? || s.pc[w].SeekWait? || s.pc[w].FollowCheck?)
    ensures var s' := if s.pc[w].SeekCheck? then Check(s, w)
                      else if s.pc[w].SeekWait? then Wait(s, w)
                      else Follow(s, w);
            Shape(s') && (Completed(s', x) <==> Completed(s, x))
  {
    Waiting(s, w);
    SamePlace(s, w);
    hide Placed, Bounded, MemberInv, QueueInv, GroupInv, Completed;
    var s' := if s.pc[w].SeekCheck? then Check(s, w) else if s.pc[w].SeekWait? then Wait(s, w) else Follow(s, w);
    assert s' == Moved(s, w, s'.pc[w], s'.slot[w]) && !s'.pc[w].Start?;
    MovedCompletes(s, w, s'.pc[w], s'.slot[w], x);
  }

  /** What is known of a writer already in a group. */
  lemma InGroup(s: State, x: nat)
    requires Base(s) && x < |s.pc| && !s.pc[x].Start? && s.head[x] < |s.pc| && s.group[s.head[x]] != []
    ensures s.pos[x] < |s.group[s.head[x]]| && s.group[s.head[x]][s.pos[x]] == x
  {
    assert Placed(s, x);
  }

  /** What is known of a member of a group. */
  lemma OfGroup(s: State, l: nat, j: nat)
    requires Base(s) && l < |s.pc| && j < |s.group[l]|
    ensures var x := s.group[l][j]; x < |s.pc| && !s.pc[x].Start? && s.head[x] == l && s.pos[x] == j
  {
    hide MemberInv, QueueInv, Bounded;
  }

  /** Only the positions of writers have changed, none of them to or from the start. */
  predicate SamePlaces(s: State, s': State)
    requires Shape(s)
  {
    && Shape(s') && |s'.pc| == |s.pc| && s'.group == s.group && s'.head == s.head && s'.pos == s.pos
    && forall i :: 0 <= i < |s.pc| ==> (s'.pc[i].Start? <==> s.pc[i].Start?)
  }

  lemma SameCompletes(s: State, s': State, w: nat, x: nat)
    requires Base(s) && SamePlaces(s, s')
    requires forall l, j :: 0 <= l < |s.pc| && 0 <= j < |s.group[l]| ==>
               (PhaseOf(s'.pc[l], j).Completed? <==>
                  PhaseOf(s.pc[l], j).Completed? || (l == w && Tells(s, l, s.group[l][j])))
    ensures Completed(s', x) <==> Completed(s, x) || Tells(s, w, x)
  {
    hide MemberInv, QueueInv, GroupInv, Bounded, PhaseOf;
    if x < |s.pc| && !s.pc[x].Start? && s.head[x] < |s.pc| && s.group[s.head[x]] != [] {
      InGroup(s, x);
    }
    if Tells(s, w, x) {
      OfGroup(s, w, s.pc[w].next);
    }
  }

  lemma TellCompletes(s: State, w: nat, x: nat)
    requires Base(s) && w < |s.pc| && (s.pc[w].Marking? || s.pc[w].Finishing?)
    ensures s.pc[w].Marking? ==> (Completed(MarkNext(s, w), x) <==> Completed(s, x) || Tells(s, w, x))
    ensures s.pc[w].Finishing? ==> (Completed(FinishNext(s, w), x) <==> Completed(s, x) || Tells(s, w, x))
  {
    var s' := if s.pc[w].Marking? then MarkNext(s, w) else FinishNext(s, w);
    forall l, j | 0 <= l < |s.pc| && 0 <= j < |s.group[l]|
      ensures PhaseOf(s'.pc[l], j).Completed? <==>
                PhaseOf(s.pc[l], j).Completed? || (l == w && Tells(s, l, s.group[l][j]))
    {
      OfGroup(s, l, j);
      TellPhase(s, w, l, j);
    }
    hide Base, PhaseOf, BaseLsn, Tells;
    SameCompletes(s, s', w, x);
  }

  lemma TellPhase(s: State, w: nat, l: nat, j: nat)
    requires Base(s) && w < |s.pc| && (s.pc[w].Marking? || s.pc[w].Finishing?)
    requires l < |s.pc| && j < |s.group[l]|
    ensures var s' := if s.pc[w].Marking? then MarkNext(s, w) else FinishNext(s, w);
            PhaseOf(s'.pc[l], j).Completed? <==>
                  PhaseOf(s.pc[l], j).Completed? || (l == w && Tells(s, l, s.group[l][j]))
  {
    hide MemberInv, QueueInv, GroupInv, Bounded, BaseLsn;
    if l == w && s.pc[w].Finishing? && s.pc[w].next < |s.group[w]| {
      OfGroup(s, l, j);
      OfGroup(s, l, s.pc[w].next);
    }
  }

  /** Between forming its group and telling it the outcome. */
  predicate Staged(p: Pc) {
    p.WalCheck? || p.WalAsleep? || p.WalDraw? || Ticketed(p) || p == Finishing(0)
  }

  /** A step in a stage moves its writer on and at most wakes others that sleep before a stage. */
  predicate StageMoves(s: State, s': State, w: nat)
    requires Shape(s)
  {
    && SamePlaces(s, s') && w < |s.pc| && Staged(s.pc[w]) && !s.pc[w].Finishing? && Staged(s'.pc[w])
    && forall i :: 0 <= i < |s.pc| && i != w ==>
         s'.pc[i] == s.pc[i] || (s.pc[i].WalAsleep? && s'.pc[i].WalCheck?) || (s.pc[i].MemAsleep? && s'.pc[i].MemCheck?)
  }

  lemma StageStep(s: State, w: nat, full: bool)
    requires Shape(s) && CanStep(s, w) && Leading(s.pc[w]) && !s.pc[w].Marking? && !s.pc[w].Finishing?
    ensures StageMoves(s, Step(s, w, full), w)
  {
    hide BaseLsn, Batch;
    if s.pc[w].WalRelease? {
      assert Step(s, w, full) == ReleaseWal(s, w);
    } else if s.pc[w].MemRelease? {
      assert Step(s, w, full) == ReleaseTicket(s, w);
    } else {
      SimpleStep(s, w, full);
    }
  }

  lemma SimpleStep(s: State, w: nat, full: bool)
    requires Shape(s) && CanStep(s, w) && Leading(s.pc[w]) && !s.pc[w].Marking? && !s.pc[w].Finishing?
    requires !s.pc[w].WalRelease? && !s.pc[w].MemRelease?
    ensures var s' := Step(s, w, full);
            SamePlaces(s, s') && Staged(s'.pc[w]) && Staged(s.pc[w]) && s'.pc == s.pc[w := s'.pc[w]]
  {
    hide BaseLsn, Batch;
  }

  lemma StagePhases(s: State, s': State, w: nat, x: nat)
    requires Base(s) && StageMoves(s, s', w)
    ensures Completed(s', x) <==> Completed(s, x)
  {
    hide MemberInv, QueueInv, GroupInv, Bounded;
    forall l: nat, j: nat | l < |s.pc| ensures PhaseOf(s'.pc[l], j).Completed? <==> PhaseOf(s.pc[l], j).Completed? {
      assert l == w || s'.pc[l] == s.pc[l] || s.pc[l].WalAsleep? || s.pc[l].MemAsleep?;
    }
    hide Staged;
    assert !Tells(s, w, x);
    SameCompletes(s, s', w, x);
  }

  lemma StageCompletes(s: State, w: nat, full: bool, x: nat)
    requires Base(s) && CanStep(s, w) && Leading(s.pc[w]) && !s.pc[w].Marking? && !s.pc[w].Finishing?
    ensures Shape(Step(s, w, full)) && (Completed(Step(s, w, full), x) <==> Completed(s, x))
  {
    hide MemberInv, QueueInv, GroupInv, Bounded, Step, StageMoves, Completed;
    StageStep(s, w, full);
    StepExtends(s, w, full);
    StagePhases(s, Step(s, w, full), w, x);
  }

  /** Exactly the member told joins the completed. */
  lemma StepCompletes(s: State, w: nat, full: bool, x: nat)
    requires Base(s) && CanStep(s, w)
    ensures Base(Step(s, w, full)) && (Completed(Step(s, w, full), x) <==> Completed(s, x) || Tells(s, w, x))
  {
    hide MemberInv, QueueInv, GroupInv, Bounded, Completed, Push, Check, Front, Wait, MarkNext, FinishNext, Follow;
    StepBase(s, w, full);
    match s.pc[w]
    case Start => PushCompletes(s, w, x);
    case SeekFront => FrontCompletes(s, w, x);
    case SeekCheck => WaiterCompletes(s, w, x);
    case SeekWait => WaiterCompletes(s, w, x);
    case FollowCheck => WaiterCompletes(s, w, x);
    case Marking(_) => TellCompletes(s, w, x);
    case Finishing(_) => TellCompletes(s, w, x);
    case _ => StageCompletes(s, w, full, x);
  }

  lemma OtherCompletes(s: State, w: nat, x: nat)
    requires Base(s) && w < |s.pc|
    ensures Completed(SpuriousWake(s, w), x) <==> Completed(s, x)
    ensures s.pc[w].WalLoad? || s.pc[w].WalAppend? ==> (Completed(Abort(s, w), x) <==> Completed(s, x))
    ensures s.pc[w].MemRotate? ==> (Completed(s.(pc := s.pc[w := MemRelease]), x) <==> Completed(s, x))
  {
    hide MemberInv, QueueInv, GroupInv, Bounded;
  }

  /** Failed leaders are past the stage they failed in. */
  predicate PastFailure(s: State, failed: set<nat>)
    requires Shape(s)
  {
    forall l: nat :: l in failed ==> l < |s.pc| && (s.pc[l].MemRelease? || s.pc[l].Finishing? || s.pc[l].Done?)
  }

  /** The errors handed out are those of the completed members of failed groups. */
  ghost predicate ErrorsOk(f: Faulty)
    requires Shape(f.s)
  {
    forall x: nat :: x in f.errors <==> Completed(f.s, x) && f.s.head[x] in f.failed
  }

  lemma StepPast(s: State, failed: set<nat>, w: nat, full: bool)
    requires Base(s) && CanStep(s, w) && PastFailure(s, failed)
    ensures Base(Step(s, w, full)) && PastFailure(Step(s, w, full), failed)
  {
    StepBase(s, w, full);
    hide Base, Step;
    forall l: nat | l in failed ensures l < |Step(s, w, full).pc| && Past(Step(s, w, full).pc[l]) {
      PastStays(s, w, full, l);
    }
  }

  predicate Past(p: Pc) { p.MemRelease? || p.Finishing? || p.Done? }

  lemma PastStays(s: State, w: nat, full: bool, l: nat)
    requires Base(s) && CanStep(s, w) && l < |s.pc| && Past(s.pc[l])
    ensures |Step(s, w, full).pc| == |s.pc| && Past(Step(s, w, full).pc[l])
  {
    hide MemberInv, QueueInv, GroupInv, Bounded, BaseLsn, Batch;
    if l == w {
      if s.pc[w].Finishing? {
        hide Shape;
      } else {
        assert Step(s, w, full) == ReleaseTicket(s, w);
      }
    } else {
      OtherStays(s, w, full, l);
    }
  }

  /** A step moves other writers only by waking them. */
  lemma OtherStays(s: State, w: nat, full: bool, l: nat)
    requires Shape(s) && CanStep(s, w) && l < |s.pc| && l != w
    ensures var s' := Step(s, w, full);
            |s'.pc| == |s.pc| && (s'.pc[l] == s.pc[l] || (Asleep(s.pc[l]) && s'.pc[l] == Woken(s.pc[l])))
  {
    hide BaseLsn, Batch;
    if Leading(s.pc[w]) && !s.pc[w].Marking? && !s.pc[w].Finishing? {
      hide Step, Shape;
      StageStep(s, w, full);
    } else if s.pc[w].Marking? || s.pc[w].Finishing? {
      hide Shape;
      assert Step(s, w, full) == if s.pc[w].Marking? then MarkNext(s, w) else FinishNext(s, w);
    } else {
      hide Shape;
      assert Step(s, w, full).pc == s.pc[w := Step(s, w, full).pc[w]];
    }
  }

  /** Membership, failures and errors fit together. */
  ghost predicate FaultyInv(f: Faulty) {
    Base(f.s) && PastFailure(f.s, f.failed) && ErrorsOk(f)
  }

  /** Whether x has been handed an error is as it should be. */
  ghost predicate ErrorOk(f: Faulty, x: nat)
    requires Shape(f.s)
  {
    x in f.errors <==> Completed(f.s, x) && f.s.head[x] in f.failed
  }

  lemma SoundError(f: Faulty, w: nat, full: bool, f': Faulty, x: nat)
    requires FaultyInv(f) && CanStep(f.s, w) && FaultyNext(f, Sound(Go(w, full)), f')
    ensures Shape(f'.s) && ErrorOk(f', x)
  {
    assert ErrorOk(f, x);
    hide MemberInv, QueueInv, GroupInv, Bounded, Step, PastFailure, ErrorsOk, PhaseOf;
    StepExtends(f.s, w, full);
    StepCompletes(f.s, w, full, x);
    if Tells(f.s, w, x) {
      OfGroup(f.s, w, f.s.pc[w].next);
    }
  }

  lemma FailError(f: Faulty, m: FaultyMove, f': Faulty, x: nat)
    requires FaultyInv(f) && FaultyNext(f, m, f') && (m.Sound? ==> m.move.Wake?)
    ensures Shape(f'.s) && ErrorOk(f', x)
  {
    assert ErrorOk(f, x);
    hide MemberInv, QueueInv, GroupInv, Bounded, Step, PastFailure, ErrorsOk;
    var w := match m case Sound(mv) => mv.w case FailWrite(w) => w case FailRotate(w) => w;
    OtherCompletes(f.s, w, x);
  }

  lemma SoundErrors(f: Faulty, w: nat, full: bool, f': Faulty)
    requires FaultyInv(f) && CanStep(f.s, w) && FaultyNext(f, Sound(Go(w, full)), f')
    ensures Shape(f'.s) && ErrorsOk(f')
  {
    StepExtends(f.s, w, full);
    hide FaultyInv, Step, Completed, FaultyNext;
    forall x: nat ensures ErrorOk(f', x) {
      SoundError(f, w, full, f', x);
    }
    AllErrorsOk(f');
  }

  lemma AllErrorsOk(f: Faulty)
    requires Shape(f.s) && forall x: nat :: ErrorOk(f, x)
    ensures ErrorsOk(f)
  {
    forall x: nat ensures x in f.errors <==> Completed(f.s, x) && f.s.head[x] in f.failed {
      assert ErrorOk(f, x);
    }
  }

  lemma FailErrors(f: Faulty, m: FaultyMove, f': Faulty)
    requires FaultyInv(f) && FaultyNext(f, m, f') && (m.Sound? ==> m.move.Wake?)
    ensures Shape(f'.s) && ErrorsOk(f') && PastFailure(f'.s, f'.failed)
  {
    assert Shape(f'.s) && PastFailure(f'.s, f'.failed) by { hide Base, Step; BaseShape(f.s); }
    hide FaultyInv, FaultyNext, PastFailure, Completed;
    forall x: nat ensures ErrorOk(f', x) {
      FailError(f, m, f', x);
    }
    AllErrorsOk(f');
  }

  lemma FaultyNextKeeps(f: Faulty, m: FaultyMove, f': Faulty)
    requires FaultyInv(f) && FaultyNext(f, m, f')
    ensures FaultyInv(f')
  {
    hide Base, PastFailure, ErrorsOk, Step, Erred, Abort;
    BaseShape(f.s);
    match m
    case Sound(mv) =>
      if mv.Go? {
        StepBase(f.s, mv.w, mv.full);
        StepPast(f.s, f.failed, mv.w, mv.full);
        SoundErrors(f, mv.w, mv.full, f');
      } else {
        WakeBase(f.s, mv.w);
        FailErrors(f, m, f');
      }
    case FailWrite(w) =>
      AbortBase(f.s, w);
      FailErrors(f, m, f');
    case FailRotate(w) =>
      StageBase(f.s, w);
      FailErrors(f, m, f');
  }

  lemma BaseShape(s: State)
    requires Base(s)
    ensures Shape(s)
  {
    hide Shape;
  }

  // --- What is stored ---

  predicate In(files: seq<seq<Rec>>, r: Rec) {
    exists i :: 0 <= i < |files| && r in files[i]
  }

  /** Files are only appended to, and added. */
  predicate Grown(a: seq<seq<Rec>>, b: seq<seq<Rec>>) {
    |a| <= |b| && forall i :: 0 <= i < |a| ==> a[i] <= b[i]
  }

  lemma InGrown(a: seq<seq<Rec>>, b: seq<seq<Rec>>, r: Rec)
    requires Grown(a, b) && In(a, r)
    ensures In(b, r)
  {
    var i :| 0 <= i < |a| && r in a[i];
    assert r in b[i];
  }

  /** The first k records of a group committed from this LSN on. */
  predicate HasUpTo(files: seq<seq<Rec>>, g: seq<nat>, lsn: nat, k: nat) {
    forall j :: 0 <= j < k && j < |g| ==> In(files, Rec(g[j], lsn + j))
  }

  /** The leader at p has written its group to the WAL. */
  predicate WalDone(p: Pc) {
    p.WalRelease? || p.MemCheck? || p.MemAsleep? || InMem(p) || p.Finishing? || p.Done?
  }

  /** How many of its group it has inserted. */
  function MemDone(p: Pc, size: nat): nat {
    if p.MemInsert? then p.next
    else if p.MemRotate? || p.MemRelease? || p.Finishing? || p.Done? then size
    else 0
  }

  /** What a leader's position says of its group is in the WALs and memtables. */
  predicate Kept(s: State, l: nat)
    requires Shape(s) && l < |s.pc|
  {
    var g := s.group[l];
    g != [] ==>
      && (WalDone(s.pc[l]) ==> HasUpTo(s.wals, g, CommittedLsn(s, l), |g|))
      && HasUpTo(s.mems, g, CommittedLsn(s, l), MemDone(s.pc[l], |g|))
  }

  lemma HasGrown(a: seq<seq<Rec>>, b: seq<seq<Rec>>, g: seq<nat>, lsn: nat, k: nat, m: nat)
    requires Grown(a, b) && HasUpTo(a, g, lsn, k) && (m <= k || |g| <= k)
    ensures HasUpTo(b, g, lsn, m)
  {
    hide Grown, In;
    forall j | 0 <= j < m && j < |g| ensures In(b, Rec(g[j], lsn + j)) {
      InGrown(a, b, Rec(g[j], lsn + j));
    }
  }

  lemma StepGrown(s: State, w: nat, full: bool)
    requires Shape(s) && CanStep(s, w)
    ensures var s' := Step(s, w, full); Grown(s.wals, s'.wals) && Grown(s.mems, s'.mems)
  {
    hide BaseLsn, Batch;
    match s.pc[w]
    case Marking(_) =>
    case Finishing(_) =>
    case WalRelease =>
    case MemRelease =>
    case _ =>
  }

  /** The group of a leader that goes on, with the same LSN and no more claimed than before. */
  lemma KeptOn(s: State, s': State, l: nat)
    requires Shape(s) && Shape(s') && l < |s.pc| == |s'.pc| && Kept(s, l) && s'.group[l] == s.group[l]
    requires Grown(s.wals, s'.wals) && Grown(s.mems, s'.mems)
    requires WalDone(s'.pc[l]) ==> WalDone(s.pc[l])
    requires var was := MemDone(s.pc[l], |s.group[l]|); MemDone(s'.pc[l], |s.group[l]|) <= was || |s.group[l]| <= was
    requires WalDone(s.pc[l]) ==> CommittedLsn(s', l) == CommittedLsn(s, l)
    ensures Kept(s', l)
  {
    hide Grown, HasUpTo, CommittedLsn;
    var g := s.group[l];
    if g != [] && WalDone(s.pc[l]) {
      HasGrown(s.wals, s'.wals, g, CommittedLsn(s, l), |g|, |g|);
      HasGrown(s.mems, s'.mems, g, CommittedLsn(s, l), MemDone(s.pc[l], |g|), MemDone(s'.pc[l], |g|));
    }
    assert WalDone(s'.pc[l]) || MemDone(s'.pc[l], |g|) == 0;
    NothingClaimed(s'.mems, g, CommittedLsn(s', l));
  }

  lemma NothingClaimed(files: seq<seq<Rec>>, g: seq<nat>, lsn: nat)
    ensures HasUpTo(files, g, lsn, 0)
  {}

  /** A committed LSN never changes. */
  lemma SameLsn(s: State, w: nat, full: bool, l: nat)
    requires Base(s) && CanStep(s, w) && l < |s.pc| && s.group[l] != [] && WalDone(s.pc[l])
    ensures Shape(Step(s, w, full)) && CommittedLsn(Step(s, w, full), l) == CommittedLsn(s, l)
  {
    hide MemberInv, QueueInv, GroupInv, Batch;
    StepExtends(s, w, full);
    assert s.ticket[l] < |s.cuts|;
    hide Bounded, Extends, CommittedLsn;
    if s.pc[w].WalDraw? {
      assert Step(s, w, full) == Draw(s, w) && l != w;
      DrawLsn(s, w, l);
    } else {
      assert Step(s, w, full).cuts == s.cuts && Step(s, w, full).ticket == s.ticket
             && Step(s, w, full).start == s.start by {
        OnlyDrawCuts(s, w, full);
      }
      SameCuts(s, Step(s, w, full), l);
    }
  }

  lemma SameCuts(s: State, s': State, l: nat)
    requires l < |s.ticket| && s'.cuts == s.cuts && s'.ticket == s.ticket && s'.start == s.start
    ensures CommittedLsn(s', l) == CommittedLsn(s, l)
  {}

  lemma DrawLsn(s: State, w: nat, l: nat)
    requires Shape(s) && w < |s.pc| && l < |s.pc| && l != w && s.ticket[l] < |s.cuts|
    ensures CommittedLsn(Draw(s, w), l) == CommittedLsn(s, l)
  {
    hide Batch;
  }

  lemma OnlyDrawCuts(s: State, w: nat, full: bool)
    requires Shape(s) && CanStep(s, w) && !s.pc[w].WalDraw?
    ensures var s' := Step(s, w, full); s'.cuts == s.cuts && s'.ticket == s.ticket && s'.start == s.start
  {
    hide BaseLsn, Batch, Shape;
  }

  lemma AppendKept(s: State, w: nat)
    requires Base(s) && w < |s.pc| && s.pc[w].WalAppend? && Kept(s, w)
    ensures Kept(Append(s, w), w)
  {
    hide MemberInv, QueueInv, GroupInv, BaseLsn, Bounded;
    var s', f, g, lsn := Append(s, w), s.pc[w].file, s.group[w], CommittedLsn(s, w);
    if f < |s.wals| {
      forall j | 0 <= j < |g| ensures In(s'.wals, Rec(g[j], lsn + j)) {
        assert Batch(g, lsn)[j] == Rec(g[j], lsn + j);
        assert Rec(g[j], lsn + j) in s'.wals[f];
      }
    }
  }

  lemma InsertKept(s: State, w: nat, full: bool)
    requires Base(s) && w < |s.pc| && s.pc[w].MemInsert? && s.pc[w].next < |s.group[w]| && Kept(s, w)
    ensures Kept(InsertNext(s, w, full), w)
  {
    hide MemberInv, QueueInv, GroupInv, BaseLsn, Bounded, In;
    var s', k, g, lsn := InsertNext(s, w, full), s.pc[w].next, s.group[w], CommittedLsn(s, w);
    var last := |s.mems| - 1;
    forall j | 0 <= j < k + 1 ensures In(s'.mems, Rec(g[j], lsn + j)) {
      if j < k {
        InGrown(s.mems, s'.mems, Rec(g[j], lsn + j));
      } else {
        InLast(s'.mems, Rec(g[k], lsn + k));
      }
    }
  }

  lemma InLast(files: seq<seq<Rec>>, r: Rec)
    requires files != [] && r in files[|files| - 1]
    ensures In(files, r)
  {}

  lemma StepKept(s: State, w: nat, full: bool, l: nat)
    requires Base(s) && CanStep(s, w) && l < |s.pc| && Kept(s, l)
    ensures Shape(Step(s, w, full)) && |Step(s, w, full).pc| == |s.pc| && Kept(Step(s, w, full), l)
  {
    hide Base, Step, Kept, CommittedLsn;
    BaseShape(s);
    StepExtends(s, w, full);
    StepGrown(s, w, full);
    if s.group[l] != [] && WalDone(s.pc[l]) { SameLsn(s, w, full, l); }
    if l != w {
      OtherStays(s, w, full, l);
      OtherGroup(s, w, full, l);
      OtherKept(s, Step(s, w, full), l);
    } else {
      OwnKept(s, w, full);
    }
  }

  lemma OtherGroup(s: State, w: nat, full: bool, l: nat)
    requires Shape(s) && CanStep(s, w) && l < |s.pc| && l != w
    ensures |Step(s, w, full).group| == |s.group| && Step(s, w, full).group[l] == s.group[l]
  {
    hide BaseLsn, Batch;
  }

  lemma OtherKept(s: State, s': State, l: nat)
    requires Shape(s) && Shape(s') && l < |s.pc| == |s'.pc| && Kept(s, l) && s'.group[l] == s.group[l]
    requires s'.pc[l] == s.pc[l] || (Asleep(s.pc[l]) && s'.pc[l] == Woken(s.pc[l]))
    requires Grown(s.wals, s'.wals) && Grown(s.mems, s'.mems)
    requires s.group[l] != [] && WalDone(s.pc[l]) ==> CommittedLsn(s', l) == CommittedLsn(s, l)
    ensures Kept(s', l)
  {
    hide Grown, HasUpTo, CommittedLsn;
    if s.group[l] != [] { KeptOn(s, s', l); }
  }

  lemma OwnKept(s: State, w: nat, full: bool)
    requires Base(s) && CanStep(s, w) && Kept(s, w)
    requires var s' := Step(s, w, full);
             && Shape(s') && |s'.pc| == |s.pc| && Grown(s.wals, s'.wals) && Grown(s.mems, s'.mems)
             && (s.group[w] != [] && WalDone(s.pc[w]) ==> CommittedLsn(s', w) == CommittedLsn(s, w))
    ensures Kept(Step(s, w, full), w)
  {
    assert Leading(s.pc[w]) ==> s.group[w] != [];
    hide MemberInv, QueueInv, GroupInv, Bounded, Kept, CommittedLsn, Grown, Batch;
    match s.pc[w]
    case WalAppend(_) => AppendKept(s, w);
    case MemInsert(k) =>
      if k < |s.group[w]| {
        InsertKept(s, w, full);
      } else {
        KeptOn(s, Step(s, w, full), w);
      }
    case Finishing(_) =>
      assert Step(s, w, full).pc[w].Finishing? || Step(s, w, full).pc[w].Done?;
      KeptOn(s, Step(s, w, full), w);
    case MemCheck => KeptOn(s, Step(s, w, full), w);
    case MemRotate => KeptOn(s, Step(s, w, full), w);
    case MemRelease => KeptOn(s, Step(s, w, full), w);
    case WalRelease => KeptOn(s, Step(s, w, full), w);
    case _ => EarlyKept(s, w, full);
  }

  /** Nothing is claimed of a group before its WAL write. */
  lemma EarlyKept(s: State, w: nat, full: bool)
    requires Base(s) && CanStep(s, w) && Shape(Step(s, w, full)) && |Step(s, w, full).pc| == |s.pc|
    requires !WalDone(s.pc[w]) && !s.pc[w].WalAppend?
    ensures Kept(Step(s, w, full), w)
  {
    if s.pc[w].SeekCheck? || s.pc[w].FollowCheck? { Waiting(s, w); }
    hide MemberInv, QueueInv, GroupInv, Bounded, CommittedLsn, HasUpTo, Step;
    EarlyPc(s, w, full);
    var s' := Step(s, w, full);
    NothingClaimed(s'.mems, s'.group[w], CommittedLsn(s', w));
  }

  lemma EarlyPc(s: State, w: nat, full: bool)
    requires Shape(s) && CanStep(s, w) && Shape(Step(s, w, full)) && |Step(s, w, full).pc| == |s.pc|
    requires !WalDone(s.pc[w]) && !s.pc[w].WalAppend?
             && (s.pc[w].SeekCheck? || s.pc[w].FollowCheck? ==> s.group[w] == [])
    ensures var s' := Step(s, w, full);
            s'.group[w] == [] || (!WalDone(s'.pc[w]) && MemDone(s'.pc[w], |s'.group[w]|) == 0)
  {
    hide BaseLsn, Batch;
  }

  /** Every group whose WAL write did not fail is stored as far as its leader has come. */
  ghost predicate AllKept(f: Faulty)
    requires Shape(f.s)
  {
    forall l :: 0 <= l < |f.s.pc| && l !in f.failed ==> Kept(f.s, l)
  }

  lemma FaultyKept(f: Faulty, m: FaultyMove, f': Faulty)
    requires Base(f.s) && AllKept(f) && FaultyNext(f, m, f')
    ensures Shape(f'.s) && AllKept(f')
  {
    hide Base, Step, Kept, Erred;
    BaseShape(f.s);
    match m
    case Sound(mv) =>
      if mv.Go? {
        StepExtends(f.s, mv.w, mv.full);
        forall l | 0 <= l < |f'.s.pc| && l !in f'.failed ensures Kept(f'.s, l) {
          StepKept(f.s, mv.w, mv.full, l);
        }
      } else {
        forall l | 0 <= l < |f'.s.pc| && l !in f'.failed ensures Kept(f'.s, l) {
          WakeKept(f.s, mv.w, l);
        }
      }
    case FailWrite(w) =>
      forall l | 0 <= l < |f'.s.pc| && l !in f'.failed ensures Kept(f'.s, l) {
        AbortKept(f.s, w, l);
      }
    case FailRotate(w) =>
      forall l | 0 <= l < |f'.s.pc| && l !in f'.failed ensures Kept(f'.s, l) {
        UnrotatedKept(f.s, w, l);
      }
  }

  lemma WakeKept(s: State, w: nat, l: nat)
    requires Shape(s) && w < |s.pc| && l < |s.pc| && Kept(s, l)
    ensures Kept(SpuriousWake(s, w), l)
  {
    hide HasUpTo;
    SameCuts(s, SpuriousWake(s, w), l);
    hide CommittedLsn;
  }

  lemma AbortKept(s: State, w: nat, l: nat)
    requires Shape(s) && w < |s.pc| && l < |s.pc| && l != w && Kept(s, l)
    ensures Kept(Abort(s, w), l)
  {
    hide HasUpTo;
    SameCuts(s, Abort(s, w), l);
    hide CommittedLsn;
  }

  lemma UnrotatedKept(s: State, w: nat, l: nat)
    requires Shape(s) && w < |s.pc| && s.pc[w].MemRotate? && l < |s.pc| && Kept(s, l)
    ensures Kept(s.(pc := s.pc[w := MemRelease]), l)
  {
    hide HasUpTo;
    SameCuts(s, s.(pc := s.pc[w := MemRelease]), l);
    hide CommittedLsn;
  }

  // --- Runs ---

  lemma FaultyInit(n: nat, start: nat)
    ensures var f := Faulty(Init(n, start), {}, {}, {}); FaultyInv(f) && AllKept(f)
  {
    InitInv(n, start);
    hide Placed, QueueInv, GroupInv, BaseLsn;
  }

  lemma {:induction false} FaultyRunKeeps(run: seq<Faulty>, moves: seq<FaultyMove>, n: nat, start: nat, i: nat)
    requires IsFaultyRun(run, moves, n, start) && i < |run|
    ensures FaultyInv(run[i]) && Shape(run[i].s) && AllKept(run[i])
  {
    hide FaultyNext, FaultyInv, Shape, AllKept, Init;
    if i == 0 {
      FaultyInit(n, start);
      FaultyShape(run[0]);
    } else {
      FaultyRunKeeps(run, moves, n, start, i - 1);
      assert FaultyNext(run[i - 1], moves[i - 1], run[i - 1 + 1]);
      FaultyNextKeeps(run[i - 1], moves[i - 1], run[i]);
      FaultyShape(run[i - 1]);
      FaultyShape(run[i]);
      FaultyKept(run[i - 1], moves[i - 1], run[i]);
    }
  }

  lemma FaultyShape(f: Faulty)
    requires FaultyInv(f)
    ensures Base(f.s) && Shape(f.s)
  {
    hide Shape;
  }

  /** What a returned put knows of its leader. */
  lemma ReturnedFrom(s: State, w: nat)
    requires Base(s) && w < |s.pc| && s.pc[w].Done?
    ensures var h := s.head[w];
            && h < |s.pc| && Completed(s, w) && s.pos[w] < |s.group[h]| && s.group[h][s.pos[w]] == w
            && (s.pc[h].Finishing? || s.pc[h].Done?) && s.pc[w].lsn == CommittedLsn(s, h)
  {
    assert Placed(s, w);
    hide MemberInv, QueueInv, GroupInv, Bounded, BaseLsn;
  }

  /** Whatever fails: a put gets an error exactly when its group's WAL write failed, or it led its group and its
      rotation failed; and every put whose group's WAL write did not fail is, once it returns, in a WAL and in a
      memtable, under the LSN its leader committed plus its place in the group. */
  lemma OutcomeIff(run: seq<Faulty>, moves: seq<FaultyMove>, n: nat, start: nat, i: nat, w: nat)
    requires IsFaultyRun(run, moves, n, start) && i < |run| && w < |run[i].s.pc| && run[i].s.pc[w].Done?
    ensures var f := run[i];
            && Shape(f.s)
            && (OutcomeOf(f, w).Failed? <==> f.s.head[w] in f.failed || w in f.unrotated)
            && (f.s.head[w] !in f.failed ==>
                  && In(f.s.wals, Rec(w, f.s.pc[w].lsn + f.s.pos[w]))
                  && In(f.s.mems, Rec(w, f.s.pc[w].lsn + f.s.pos[w])))
  {
    hide IsFaultyRun, Base, Completed, In, CommittedLsn;
    FaultyRunKeeps(run, moves, n, start, i);
    var f := run[i];
    ReturnedFrom(f.s, w);
    if f.s.head[w] !in f.failed {
      assert Kept(f.s, f.s.head[w]);
    }
  }

  // --- The WAL stage stays exclusive ---

  /** What a step may do to one writer's standing towards the WAL stage when it neither enters nor leaves it. */
  predicate SameWal(p: Pc, p': Pc) {
    WalKindOf(p') == WalKindOf(p) || (p.WalAsleep? && p'.WalCheck?)
  }

  lemma WalFrame(s: State, s': State)
    requires WalInv(s) && |s'.pc| == |s.pc| && s'.owner == s.owner && s'.sync.walBusy == s.sync.walBusy
    requires forall i :: 0 <= i < |s.pc| ==> SameWal(s.pc[i], s'.pc[i])
    ensures WalInv(s')
  {
    forall i | 0 <= i < |s.pc|
      ensures WalKinds(s'.pc)[i] == WalKinds(s.pc)[i] || (WalKinds(s.pc)[i].Dozing? && WalKinds(s'.pc)[i].Outside?)
    {
      assert SameWal(s.pc[i], s'.pc[i]);
    }
    hide WalKinds;
  }

  lemma OwnerMoves(s: State, s': State, w: nat)
    requires WalInv(s) && w < |s.pc| && s'.owner == s.owner && s'.sync.walBusy == s.sync.walBusy
    requires |s'.pc| == |s.pc| && s'.pc == s.pc[w := s'.pc[w]]
    requires InWal(s.pc[w]) && InWal(s'.pc[w])
    ensures WalInv(s')
  {
    assert WalKinds(s'.pc) == WalKinds(s.pc)[w := WalKindOf(s'.pc[w])];
    assert WalKinds(s.pc)[w] == WalKindOf(s.pc[w]);
    hide WalKinds;
  }

  lemma TakerKeepsWal(s: State, w: nat)
    requires Shape(s) && WalInv(s) && w < |s.pc| && s.pc[w].WalCheck?
    ensures WalInv(TakeWal(s, w))
  {
    var s' := TakeWal(s, w);
    assert WalKinds(s'.pc) == WalKinds(s.pc)[w := WalKindOf(s'.pc[w])];
    assert WalKinds(s.pc)[w] == WalKindOf(s.pc[w]);
    hide WalKinds;
  }

  /** Its user leaves the WAL, having written or failed, and wakes everyone who waits for it. */
  lemma LeaverKeepsWal(s: State, s': State, w: nat, p: Pc)
    requires WalInv(s) && w < |s.pc| && InWal(s.pc[w]) && (p.MemCheck? || p.MemRelease?)
    requires s'.pc == WakeWal(s.pc)[w := p] && s'.owner.None? && !s'.sync.walBusy
    ensures WalInv(s')
  {
    assert WalKinds(s.pc)[w] == WalKindOf(s.pc[w]);
    forall i | 0 <= i < |s.pc|
      ensures WalKinds(s'.pc)[i] == if i == w || WalKinds(s.pc)[i].Dozing? then Outside else WalKinds(s.pc)[i]
    {}
    hide WalKinds;
  }

  lemma StepKeepsWal(s: State, w: nat, full: bool)
    requires Shape(s) && WalInv(s) && CanStep(s, w)
    ensures WalInv(Step(s, w, full))
  {
    hide WalInv, BaseLsn, Batch;
    match s.pc[w]
    case WalCheck => TakerKeepsWal(s, w);
    case WalDraw => OwnerMoves(s, Draw(s, w), w);
    case WalLoad => OwnerMoves(s, LoadWal(s, w), w);
    case WalAppend(_) => OwnerAppends(s, w);
    case WalRelease => LeaverKeepsWal(s, ReleaseWal(s, w), w, MemCheck);
    case _ => OutsideKeepsWal(s, w, full);
  }

  lemma OwnerAppends(s: State, w: nat)
    requires Shape(s) && WalInv(s) && w < |s.pc| && s.pc[w].WalAppend?
    ensures WalInv(Append(s, w))
  {
    hide WalInv, BaseLsn, Batch;
    if s.pc[w].file < |s.wals| {
      OwnerMoves(s, Append(s, w), w);
    }
  }

  lemma StepOutside(s: State, w: nat, full: bool)
    requires Shape(s) && CanStep(s, w) && !s.pc[w].WalCheck? && !InWal(s.pc[w])
    ensures var s' := Step(s, w, full);
            && |s'.pc| == |s.pc| && s'.owner == s.owner && s'.sync.walBusy == s.sync.walBusy
            && SameWal(s.pc[w], s'.pc[w])
  {
    hide BaseLsn, Batch;
  }

  lemma OutsideKeepsWal(s: State, w: nat, full: bool)
    requires Shape(s) && WalInv(s) && CanStep(s, w) && !s.pc[w].WalCheck? && !InWal(s.pc[w])
    ensures WalInv(Step(s, w, full))
  {
    var s' := Step(s, w, full);
    StepOutside(s, w, full);
    hide WalInv, Step, SameWal;
    forall i | 0 <= i < |s.pc| ensures SameWal(s.pc[i], s'.pc[i]) {
      if i != w {
        OtherStays(s, w, full, i);
        WokenSameWal(s.pc[i]);
      }
    }
    WalFrame(s, s');
  }

  lemma WokenSameWal(p: Pc)
    ensures SameWal(p, p) && SameWal(p, Woken(p))
  {}

  lemma FaultyKeepsWal(f: Faulty, m: FaultyMove, f': Faulty)
    requires Shape(f.s) && WalInv(f.s) && FaultyNext(f, m, f')
    ensures WalInv(f'.s)
  {
    hide WalInv, Step, Erred, Shape;
    match m
    case Sound(mv) =>
      if mv.Go? {
        StepKeepsWal(f.s, mv.w, mv.full);
      } else {
        WokenSameWal(f.s.pc[mv.w]);
        WalFrame(f.s, f'.s);
      }
    case FailWrite(w) => LeaverKeepsWal(f.s, f'.s, w, MemRelease);
    case FailRotate(w) => WalFrame(f.s, f'.s);
  }

  /** Whatever fails, at most one leader is ever in the WAL stage. */
  lemma {:induction false} WalStaysExclusive(run: seq<Faulty>, moves: seq<FaultyMove>, n: nat, start: nat, i: nat)
    requires IsFaultyRun(run, moves, n, start) && i < |run|
    ensures WalInv(run[i].s)
    ensures var s := run[i].s;
            forall a, b :: 0 <= a < |s.pc| && 0 <= b < |s.pc| && InWal(s.pc[a]) && InWal(s.pc[b]) ==> a == b
  {
    if i == 0 {
      InitInv(n, start);
    } else {
      WalStaysExclusive(run, moves, n, start, i - 1);
      assert FaultyNext(run[i - 1], moves[i - 1], run[i - 1 + 1]);
      FaultyKeepsWal(run[i - 1], moves[i - 1], run[i]);
    }
    hide IsFaultyRun, FaultyNext, Init, Inv;
    OneUser(run[i].s);
  }

  lemma OneUser(s: State)
    requires WalInv(s)
    ensures forall a, b :: 0 <= a < |s.pc| && 0 <= b < |s.pc| && InWal(s.pc[a]) && InWal(s.pc[b]) ==> a == b
  {
    assert forall a :: 0 <= a < |s.pc| ==> WalKinds(s.pc)[a] == WalKindOf(s.pc[a]);
    hide WalKinds;
  }

  // --- Stranded leaders ---

  lemma StuckNext(f: Faulty, h: nat, m: FaultyMove, f': Faulty)
    requires Shape(f.s) && Stuck(f.s, h) && FaultyNext(f, m, f')
    ensures Shape(f'.s) && Stuck(f'.s, h)
  {
    hide Step, Erred;
    match m
    case Sound(mv) =>
      if mv.Go? {
        StuckStays(f.s, h, mv.w, mv.full);
      }
    case _ =>
  }

  /** Once its turn is skipped, a leader never enters the memtable stage again, whatever happens: its put
      and those of its followers never return. */
  lemma {:induction false} StuckForever(run: seq<Faulty>, moves: seq<FaultyMove>, h: nat, i: nat)
    requires |run| == |moves| + 1 && i < |run| && Shape(run[0].s) && Stuck(run[0].s, h)
    requires forall k :: 0 <= k < |moves| && Shape(run[k].s) ==> FaultyNext(run[k], moves[k], run[k + 1])
    ensures Shape(run[i].s) && Stuck(run[i].s, h)
  {
    hide FaultyNext, Stuck, Shape;
    if i > 0 {
      StuckForever(run, moves, h, i - 1);
      StuckNext(run[i - 1], h, moves[i - 1], run[i]);
    }
  }

  predicate TwoInside(s: State) {
    exists x, y :: 0 <= x < y < |s.pc| && InMem(s.pc[x]) && InMem(s.pc[y])
  }

  // --- Broken exclusion, reached by a run ---

  ghost predicate FaultyReachable(f: Faulty, n: nat, start: nat) {
    exists run, moves :: IsFaultyRun(run, moves, n, start) && run[|moves|] == f
  }

  lemma FaultyReach(f: Faulty, n: nat, start: nat, m: FaultyMove, f': Faulty)
    requires FaultyReachable(f, n, start) && Shape(f.s) && FaultyNext(f, m, f')
    ensures FaultyReachable(f', n, start)
  {
    hide FaultyNext, Shape, Init;
    var run, moves :| IsFaultyRun(run, moves, n, start) && run[|moves|] == f;
    var run', moves' := run + [f'], moves + [m];
    forall i | 0 <= i < |moves'| ensures Shape(run'[i].s) && FaultyNext(run'[i], moves'[i], run'[i + 1]) {
      if i < |moves| {
        assert run'[i] == run[i] && run'[i + 1] == run[i + 1] && moves'[i] == moves[i];
      }
    }
    assert IsFaultyRun(run', moves', n, start);
  }

  /** A run in which nothing fails. */
  lemma {:induction false} SoundIsFaulty(run: seq<State>, n: nat, start: nat)
    requires PipelineTheorems.IsRun(run, n, start)
    ensures FaultyReachable(Faulty(run[|run| - 1], {}, {}, {}), n, start)
  {
    hide Init;
    var k := |run| - 1;
    if k == 0 {
      var f := Faulty(Init(n, start), {}, {}, {});
      var moves: seq<FaultyMove> := [];
      assert IsFaultyRun([f], moves, n, start) && [f][|moves|] == f;
    } else {
      hide PipelineTheorems.Next;
      forall i | 0 <= i < k - 1 ensures PipelineTheorems.Next(run[..k][i], run[..k][i + 1]) {
        assert PipelineTheorems.Next(run[i], run[i + 1]);
      }
      SoundIsFaulty(run[..k], n, start);
      assert PipelineTheorems.Next(run[k - 1], run[k - 1 + 1]);
      SoundStep(run[k - 1], run[k], n, start);
    }
  }

  lemma SoundStep(s: State, s': State, n: nat, start: nat)
    requires FaultyReachable(Faulty(s, {}, {}, {}), n, start) && PipelineTheorems.Next(s, s')
    ensures FaultyReachable(Faulty(s', {}, {}, {}), n, start)
  {
    hide FaultyReachable, Step, Shape;
    var w: nat, full: bool :| PipelineTheorems.StepsTo(s, w, full, s');
    var m := if CanStep(s, w) && s' == Step(s, w, full) then Go(w, full) else Wake(w);
    FaultyReach(Faulty(s, {}, {}, {}), n, start, Sound(m), Faulty(s', {}, {}, {}));
  }

  /** What s becomes when w, alone in its group, goes from its call of put to waiting for the memtable stage. */
  function Waited(s: State, w: nat): State
    requires Shape(s) && w < |s.pc|
  {
    var last := |s.wals| - 1;
    AtWal(s, w).(sync := s.sync.(nextTicket := s.sync.nextTicket + 1, nextLsn := s.sync.nextLsn + 1), owner := None,
                 pc := s.pc[w := MemCheck], wals := s.wals[last := s.wals[last] + [Rec(w, s.sync.nextLsn)]],
                 appended := s.appended + 1)
  }

  /** w has not called put and the way to the WAL is free. */
  predicate Fresh(s: State, w: nat)
    requires Shape(s)
  {
    w < |s.pc| && s.pc[w].Start? && s.slot[w].Empty? && s.group[w] == [] && s.sync.queue == [] && !s.sync.walBusy
  }

  lemma ReachWaited(s: State, n: nat, start: nat, w: nat)
    requires Reachable(s, n, start) && Shape(s) && Fresh(s, w)
    requires forall i :: 0 <= i < |s.pc| ==> !s.pc[i].WalAsleep?
    ensures Reachable(Waited(s, w), n, start)
  {
    hide Reachable, AtWal;
    ReachWal(s, n, start, w);
    AtWalIs(s, w);
    var s1 := AtWal(s, w);
    WriteOne(s1, w, s.sync.nextLsn);
    var s2 := Reach(s1, n, start, w, false);
    var s3 := Reach(s2, n, start, w, false);
    assert s3.pc == s.pc[w := MemCheck];
    assert s3 == Waited(s, w);
  }

  lemma AtWalIs(s: State, w: nat)
    requires Shape(s) && w < |s.pc|
    ensures var s1 := AtWal(s, w);
            && Shape(s1) && s1.pc == s.pc[w := WalAppend(|s.wals| - 1)] && s1.group[w] == [w] && s1.wals == s.wals
            && CommittedLsn(s1, w) == s.sync.nextLsn && s1.appended == s.appended && s1.owner == Some(w)
            && s1.sync == s.sync.(walBusy := true, nextTicket := s.sync.nextTicket + 1, nextLsn := s.sync.nextLsn + 1)
  {}

  /** Three writers: the first inserting, the second waiting, the third about to write the WAL. */
  lemma ReachThree(start: nat) returns (s: State)
    ensures Reachable(s, 3, start) && Shape(s)
    ensures s.pc == [MemInsert(0), MemCheck, WalAppend(0)] && s.ticket == [0, 1, 2] && s.sync.ticketToMem == 0
  {
    hide Reachable, AtWal, Waited;
    var s0 := Init(3, start);
    ReachInit(3, start);
    assert Fresh(s0, 0);
    ReachWaited(s0, 3, start, 0);
    FirstWaited(s0, start);
    var s1 := Waited(s0, 0);
    var s2 := Reach(s1, 3, start, 0, false);
    assert s2.pc == [MemInsert(0), Start, Start];
    ReachWaited(s2, 3, start, 1);
    SecondWaited(s2);
    var s3 := Waited(s2, 1);
    ReachWal(s3, 3, start, 2);
    s := AtWal(s3, 2);
    ThirdAtWal(s3);
  }

  lemma FirstWaited(s: State, start: nat)
    requires s == Init(3, start)
    ensures var s1 := Waited(s, 0);
            && Shape(s1) && s1.pc == [MemCheck, Start, Start] && s1.slot == [ToldFollow, Empty, Empty]
            && s1.group == [[0], [], []] && s1.ticket == [0, 0, 0] && |s1.wals| == 1
            && s1.sync == Sync([], false, 0, 1, start + 1)
  {}

  lemma SecondWaited(s: State)
    requires Shape(s) && s.pc == [MemInsert(0), Start, Start] && s.slot == [ToldFollow, Empty, Empty]
    requires s.group == [[0], [], []] && s.ticket == [0, 0, 0] && |s.wals| == 1
    requires s.sync == Sync([], false, 0, 1, s.sync.nextLsn)
    ensures var s1 := Waited(s, 1);
            && Shape(s1) && s1.pc == [MemInsert(0), MemCheck, Start] && s1.slot == [ToldFollow, ToldFollow, Empty]
            && s1.group == [[0], [1], []] && s1.ticket == [0, 1, 0] && |s1.wals| == 1
            && s1.sync == Sync([], false, 0, 2, s.sync.nextLsn + 1)
  {}

  lemma ThirdAtWal(s: State)
    requires Shape(s) && s.pc == [MemInsert(0), MemCheck, Start] && s.ticket == [0, 1, 0] && |s.wals| == 1
    requires s.sync == Sync([], false, 0, 2, s.sync.nextLsn)
    ensures var s1 := AtWal(s, 2);
            Shape(s1) && s1.pc == [MemInsert(0), MemCheck, WalAppend(0)] && s1.ticket == [0, 1, 2]
                && s1.sync.ticketToMem == 0
  {}

  /** Exclusion does fail: with one leader inserting, a failure two tickets later lets a second one in. */
  lemma FailureLetsTwoIn(start: nat) returns (f: Faulty)
    ensures FaultyReachable(f, 3, start) && TwoInside(f.s)
  {
    hide FaultyReachable, Reachable;
    var s := ReachThree(start);
    var f0 := Faulty(s, {}, {}, {});
    ReachableIsFaulty(s, 3, start);
    var f1 := f0.(s := Abort(s, 2), failed := {2});
    FaultyReach(f0, 3, start, FailWrite(2), f1);
    assert f1.s.pc == [MemInsert(0), MemCheck, MemRelease];
    var f2 := f1.(s := ReleaseTicket(f1.s, 2));
    FaultyReach(f1, 3, start, Sound(Go(2, false)), f2);
    assert f2.s.pc == [MemInsert(0), MemCheck, Finishing(0)];
    f := f2.(s := EnterMem(f2.s, 1));
    FaultyReach(f2, 3, start, Sound(Go(1, false)), f);
    assert f.s.pc == [MemInsert(0), MemInsert(0), Finishing(0)];
    assert InMem(f.s.pc[0]) && InMem(f.s.pc[1]);
  }

  lemma ReachableIsFaulty(s: State, n: nat, start: nat)
    requires Reachable(s, n, start)
    ensures FaultyReachable(Faulty(s, {}, {}, {}), n, start)
  {
    hide FaultyReachable;
    var run :| PipelineTheorems.IsRun(run, n, start) && run[|run| - 1] == s;
    SoundIsFaulty(run, n, start);
  }
}
