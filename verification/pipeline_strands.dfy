/** What a failed WAL write does to the groups around it, over every continuation of the run. */
module PipelineStrands {
  import opened Codec
  import opened WritePipeline
  import opened PipelineProofs
  import opened PipelineProgress
  import opened PipelineLimits
  import opened PipelineFaults
  import PipelineTheorems

  // --- Tickets, as a step changes them ---

  /** The ticket book: each writer's standing, its ticket, who drew each, and whose turn it is. */
  datatype Book = Book(kinds: seq<Kind>, ticket: seq<nat>, order: seq<nat>, toMem: nat)

  function BookOf(s: State): Book
    requires Shape(s)
  {
    Book(Kinds(s), s.ticket, s.order, s.sync.ticketToMem)
  }

  predicate InOrder(b: Book) { Tickets(b.kinds, b.ticket, b.order, b.toMem) }

  /** Nothing but sleepers woken. */
  predicate Stays(b: Book, b': Book) {
    && b' == b.(kinds := b'.kinds) && |b'.kinds| == |b.kinds|
    && forall i :: 0 <= i < |b.kinds| ==>
         b'.kinds[i] == b.kinds[i] || (b.kinds[i] == Sleeping && b'.kinds[i] == Holding)
  }

  predicate Draws(b: Book, v: nat, b': Book) {
    && v < |b.kinds| == |b.ticket| && b.kinds[v] == Before
    && b' == Book(b.kinds[v := Holding], b.ticket[v := |b.order|], b.order + [v], b.toMem)
  }

  predicate Enters(b: Book, v: nat, b': Book) {
    && v < |b.kinds| == |b.ticket| && b.kinds[v] == Holding
    && b' == b.(kinds := b.kinds[v := if b.ticket[v] == b.toMem then Entered else Sleeping])
  }

  predicate Leaves(b: Book, v: nat, b': Book) {
    && v < |b.kinds| && b.kinds[v] == Entered && b' == b.(kinds := b'.kinds, toMem := b.toMem + 1)
    && |b'.kinds| == |b.kinds|
    && forall i :: 0 <= i < |b.kinds| ==>
         b'.kinds[i] == if i == v then After else if b.kinds[i] == Sleeping then Holding else b.kinds[i]
  }

  predicate BookStep(b: Book, v: nat, b': Book) {
    Stays(b, b') || Draws(b, v, b') || Enters(b, v, b') || Leaves(b, v, b')
  }

  lemma KindAt(s: State, i: nat)
    requires Shape(s) && i < |s.pc|
    ensures Kinds(s)[i] == KindOf(s.pc[i], s.group[i] != [])
  {}

  lemma QuietBook(s: State, s': State)
    requires Shape(s) && Shape(s') && |s'.pc| == |s.pc| && s'.ticket == s.ticket && s'.order == s.order
    requires s'.sync.ticketToMem == s.sync.ticketToMem
    requires forall i :: 0 <= i < |s.pc| ==>
               || KindOf(s'.pc[i], s'.group[i] != []) == KindOf(s.pc[i], s.group[i] != [])
               || (s.pc[i].MemAsleep? && s'.pc[i].MemCheck?)
    ensures Stays(BookOf(s), BookOf(s'))
  {
    forall i | 0 <= i < |s.pc|
      ensures Kinds(s')[i] == Kinds(s)[i] || (Kinds(s)[i] == Sleeping && Kinds(s')[i] == Holding)
    {
      KindAt(s, i);
      KindAt(s', i);
    }
  }

  /** The step touches no ticket, and the stepping writer's standing stays. */
  predicate Bookless(s: State, w: nat, s': State)
    requires Shape(s) && w < |s.pc|
  {
    && |s'.pc| == |s.pc| && |s'.group| == |s.group| && s'.ticket == s.ticket && s'.order == s.order
    && s'.sync.ticketToMem == s.sync.ticketToMem
    && KindOf(s'.pc[w], s'.group[w] != []) == KindOf(s.pc[w], s.group[w] != [])
  }

  lemma BooklessBook(s: State, w: nat, full: bool)
    requires Shape(s) && CanStep(s, w) && Shape(Step(s, w, full)) && Bookless(s, w, Step(s, w, full))
    ensures Stays(BookOf(s), BookOf(Step(s, w, full)))
  {
    var s' := Step(s, w, full);
    hide Step;
    forall i | 0 <= i < |s.pc|
      ensures KindOf(s'.pc[i], s'.group[i] != []) == KindOf(s.pc[i], s.group[i] != [])
              || (s.pc[i].MemAsleep? && s'.pc[i].MemCheck?)
    {
      if i != w {
        OtherStays(s, w, full, i);
        OtherGroup(s, w, full, i);
      }
    }
    QuietBook(s, s');
  }

  lemma WaiterBook(s: State, w: nat, full: bool)
    requires Base(s) && CanStep(s, w) && !Leading(s.pc[w])
    ensures Shape(Step(s, w, full)) && Stays(BookOf(s), BookOf(Step(s, w, full)))
  {
    StepExtends(s, w, full);
    if !s.pc[w].Start? { Waiting(s, w); } else { assert s.group[w] == []; }
    hide Members, Bounded, Extends, BookOf, Stays;
    WaiterOnly(s, w, full);
    hide Step, Shape;
    BooklessBook(s, w, full);
  }

  lemma WaiterOnly(s: State, w: nat, full: bool)
    requires Shape(s) && CanStep(s, w) && !Leading(s.pc[w]) && s.group[w] == []
    ensures Bookless(s, w, Step(s, w, full))
  {}

  lemma TellerBook(s: State, w: nat, full: bool)
    requires Base(s) && CanStep(s, w) && (s.pc[w].Marking? || s.pc[w].Finishing?)
    ensures Shape(Step(s, w, full)) && Stays(BookOf(s), BookOf(Step(s, w, full)))
  {
    StepExtends(s, w, full);
    assert s.group[w] != [];
    hide Members, Bounded, Extends, BookOf, Stays;
    TellerOnly(s, w, full);
    hide Step, Shape;
    BooklessBook(s, w, full);
  }

  lemma TellerOnly(s: State, w: nat, full: bool)
    requires Shape(s) && CanStep(s, w) && (s.pc[w].Marking? || s.pc[w].Finishing?) && s.group[w] != []
    ensures Bookless(s, w, Step(s, w, full))
  {
    hide BaseLsn;
  }

  lemma LeaderBook(s: State, s': State, w: nat)
    requires Shape(s) && Shape(s') && w < |s.pc| == |s'.pc| && s'.pc == s.pc[w := s'.pc[w]] && s'.group == s.group
    ensures BookOf(s').kinds == BookOf(s).kinds[w := KindOf(s'.pc[w], s.group[w] != [])]
    ensures BookOf(s).kinds[w] == KindOf(s.pc[w], s.group[w] != [])
  {
    Projections(s, s', w, s'.pc[w]);
  }

  lemma StageBook(s: State, w: nat, full: bool)
    requires Base(s) && CanStep(s, w) && Leading(s.pc[w]) && !s.pc[w].Marking? && !s.pc[w].Finishing?
    requires !s.pc[w].WalRelease? && !s.pc[w].MemRelease?
    ensures Shape(Step(s, w, full)) && BookStep(BookOf(s), w, BookOf(Step(s, w, full)))
  {
    StepExtends(s, w, full);
    assert s.group[w] != [];
    hide MemberInv, QueueInv, GroupInv, Bounded, Extends, BaseLsn, Batch;
    var s' := Step(s, w, full);
    SimpleStep(s, w, full);
    LeaderBook(s, s', w);
    hide Kinds, SamePlaces;
    Unmoved(BookOf(s).kinds, w);
  }

  lemma ReleaserBook(s: State, w: nat, full: bool)
    requires Base(s) && CanStep(s, w) && (s.pc[w].WalRelease? || s.pc[w].MemRelease?)
    ensures Shape(Step(s, w, full)) && BookStep(BookOf(s), w, BookOf(Step(s, w, full)))
  {
    assert s.group[w] != [];
    hide MemberInv, QueueInv, GroupInv, Bounded, BaseLsn;
    if s.pc[w].WalRelease? {
      assert Step(s, w, full) == ReleaseWal(s, w);
      hide Step;
      QuietBook(s, ReleaseWal(s, w));
    } else {
      assert Step(s, w, full) == ReleaseTicket(s, w);
      hide Step;
      ReleaseKinds(s, w);
      hide Kinds;
      assert Leaves(BookOf(s), w, BookOf(ReleaseTicket(s, w)));
    }
  }

  lemma StepBook(s: State, w: nat, full: bool)
    requires Base(s) && CanStep(s, w)
    ensures Base(Step(s, w, full)) && BookStep(BookOf(s), w, BookOf(Step(s, w, full)))
  {
    hide Base, Step, Shape, BookOf;
    BaseShape(s);
    StepBase(s, w, full);
    BaseShape(Step(s, w, full));
    if !Leading(s.pc[w]) {
      WaiterBook(s, w, full);
    } else if s.pc[w].Marking? || s.pc[w].Finishing? {
      TellerBook(s, w, full);
    } else if s.pc[w].WalRelease? || s.pc[w].MemRelease? {
      ReleaserBook(s, w, full);
    } else {
      StageBook(s, w, full);
    }
  }

  lemma MoveBook(s: State, m: Move)
    requires Base(s) && Shape(s) && Allowed(s, m)
    ensures Base(Apply(s, m)) && BookStep(BookOf(s), m.w, BookOf(Apply(s, m)))
  {
    hide Base, Step, Shape, BookOf;
    if m.Go? {
      StepBook(s, m.w, m.full);
    } else {
      WakeBase(s, m.w);
      BaseShape(SpuriousWake(s, m.w));
      WakeBook(s, m.w);
    }
  }

  lemma WakeBook(s: State, w: nat)
    requires Shape(s) && w < |s.pc| && Shape(SpuriousWake(s, w))
    ensures Stays(BookOf(s), BookOf(SpuriousWake(s, w)))
  {
    QuietBook(s, SpuriousWake(s, w));
  }

  // --- One ticket dropped too early ---

  /** w's ticket is gone although its turn has not come, and x has been left behind the turn. */
  predicate Behind(b: Book, w: nat, x: nat) {
    && |b.ticket| == |b.kinds| && w < |b.kinds| && x < |b.kinds| && x != w
    && b.kinds[w] == After && b.toMem <= b.ticket[w] < |b.order|
    && b.kinds[x] != Before && b.kinds[x] != After && b.ticket[x] < b.toMem
    && (forall t :: 0 <= t < |b.order| ==>
          b.order[t] < |b.kinds| && b.kinds[b.order[t]] != Before && b.ticket[b.order[t]] == t)
    && (forall l :: 0 <= l < |b.kinds| && b.kinds[l] != Before ==>
          && b.ticket[l] < |b.order| && b.order[b.ticket[l]] == l
          && (b.kinds[l] == After <==> l == w || (b.ticket[l] < b.toMem && l != x))
          && (b.kinds[l] == Entered ==> l == x || b.ticket[l] == b.toMem))
  }

  lemma OrderKept(b: Book, v: nat, b': Book)
    requires InOrder(b) && BookStep(b, v, b')
    ensures InOrder(b')
  {
    if Leaves(b, v, b') {
      NextTicket(b.kinds, b'.kinds, b.ticket, b.order, b.toMem, v);
    }
  }

  /** Only x's leaving, or that of the leader in turn, changes who is behind. */
  lemma BehindKept(b: Book, w: nat, x: nat, v: nat, b': Book)
    requires Behind(b, w, x) && BookStep(b, v, b') && !(Leaves(b, v, b') && v == x)
    ensures Behind(b', w, x)
  {
    if Leaves(b, v, b') {
      assert b.ticket[v] == b.toMem && b.ticket[v] != b.ticket[w];
    } else if Draws(b, v, b') {
      BehindDraws(b, w, x, v, b');
    } else {
      hide Draws, Leaves;
    }
  }

  lemma BehindDraws(b: Book, w: nat, x: nat, v: nat, b': Book)
    requires Behind(b, w, x) && Draws(b, v, b')
    ensures Behind(b', w, x)
  {
    assert forall t :: 0 <= t < |b.order| ==> b'.order[t] == b.order[t] && b.order[t] != v;
  }

  /** When x leaves, the next in line is behind, or nobody is if the next ticket was the dropped one. */
  lemma BehindPasses(b: Book, w: nat, x: nat, b': Book)
    requires Behind(b, w, x) && Leaves(b, x, b')
    ensures b.toMem == b.ticket[w] ==> InOrder(b')
    ensures b.toMem < b.ticket[w] ==> Behind(b', w, b.order[b.toMem])
  {
    var y := b.order[b.toMem];
    assert b.kinds[y] != Before && b.ticket[y] == b.toMem;
  }

  /** x is behind, but in the stage, and only the dropped ticket is next. */
  predicate LastBehind(b: Book, w: nat, x: nat) {
    Behind(b, w, x) && b.kinds[x] == Entered && b.toMem == b.ticket[w]
  }

  ghost predicate Harmless(b: Book, w: nat) {
    InOrder(b) || exists x: nat :: LastBehind(b, w, x)
  }

  lemma HarmlessKept(b: Book, w: nat, v: nat, b': Book)
    requires Harmless(b, w) && BookStep(b, v, b')
    ensures Harmless(b', w)
  {
    hide InOrder, BookStep, LastBehind;
    if InOrder(b) {
      OrderKept(b, v, b');
    } else {
      var x: nat :| LastBehind(b, w, x);
      LastBehindKept(b, w, x, v, b');
    }
  }

  lemma LastBehindKept(b: Book, w: nat, x: nat, v: nat, b': Book)
    requires LastBehind(b, w, x) && BookStep(b, v, b')
    ensures LastBehind(b', w, x) || InOrder(b')
  {
    if Leaves(b, v, b') && v == x {
      hide *;
      assert Behind(b, w, x) && b.toMem == b.ticket[w] by { LastBehindIs(b, w, x); }
      BehindPasses(b, w, x, b');
    } else {
      if v != x { NoneLeaves(b, w, x, v, b'); }
      BehindKept(b, w, x, v, b');
    }
  }

  lemma LastBehindIs(b: Book, w: nat, x: nat)
    requires LastBehind(b, w, x)
    ensures Behind(b, w, x) && w < |b.ticket| && b.toMem == b.ticket[w]
  {}

  lemma NoneLeaves(b: Book, w: nat, x: nat, v: nat, b': Book)
    requires LastBehind(b, w, x) && v != x
    ensures !Leaves(b, v, b')
  {}

  // --- What the books say of leaders ---

  predicate Waits(p: Pc) { p.MemCheck? || p.MemAsleep? }

  lemma WaitingKind(s: State, l: nat)
    requires Shape(s) && l < |s.pc|
    ensures Waits(s.pc[l]) ==> Kinds(s)[l] == Holding || Kinds(s)[l] == Sleeping
    ensures InMem(s.pc[l]) <==> Kinds(s)[l] == Entered
  {}

  ghost predicate SomeStuck(s: State)
    requires Shape(s)
  {
    exists h: nat :: Stuck(s, h)
  }

  lemma HarmlessMeans(s: State, w: nat)
    requires Shape(s) && Harmless(BookOf(s), w)
    ensures !SomeStuck(s) && !TwoInside(s)
  {
    var b := BookOf(s);
    forall l: nat | l < |s.pc|
      ensures Waits(s.pc[l]) ==> b.kinds[l] == Holding || b.kinds[l] == Sleeping
      ensures InMem(s.pc[l]) <==> b.kinds[l] == Entered
    {
      WaitingKind(s, l);
    }
    hide Kinds, KindOf, InMem;
    if !InOrder(b) {
      var x: nat :| LastBehind(b, w, x);
      assert forall l :: 0 <= l < |b.kinds| && b.kinds[l] == Entered ==> l == x || b.ticket[l] == b.ticket[w];
    }
  }

  /** x, left behind, still waits: it is stuck, and so is the turn, at the dropped ticket at the latest. */
  predicate Jammed(s: State, w: nat, x: nat)
    requires Shape(s)
  {
    Behind(BookOf(s), w, x) && Stuck(s, x)
  }

  lemma JamKept(s: State, w: nat, x: nat, m: Move)
    requires Base(s) && Shape(s) && Jammed(s, w, x) && Allowed(s, m)
    ensures Base(Apply(s, m)) && Jammed(Apply(s, m), w, x)
  {
    WaitingKind(s, x);
    hide Base, Step, Shape, Kinds, Behind, BookStep;
    MoveBook(s, m);
    BehindKept(BookOf(s), w, x, m.w, BookOf(Apply(s, m))) by {
      assert BookOf(s).kinds[x] != Entered;
    }
    if m.Go? { StuckStays(s, x, m.w, m.full); }
  }

  lemma JamMeans(s: State, w: nat, x: nat)
    requires Shape(s) && Jammed(s, w, x)
    ensures w < |s.pc| && s.sync.ticketToMem <= s.ticket[w] && !TwoInside(s)
    ensures forall l :: 0 <= l < |s.pc| && InMem(s.pc[l]) ==> s.ticket[l] < s.ticket[w]
  {
    var b := BookOf(s);
    forall l: nat | l < |s.pc| ensures InMem(s.pc[l]) <==> b.kinds[l] == Entered {
      WaitingKind(s, l);
    }
    WaitingKind(s, x);
    hide Kinds, KindOf, InMem;
    forall l | 0 <= l < |s.pc| && b.kinds[l] == Entered
      ensures l != x && s.ticket[l] == b.toMem && s.ticket[l] != s.ticket[w]
    {}
  }

  // --- Continuations ---

  /** A run without further failures, from s on. */
  ghost predicate Continues(run: seq<State>, moves: seq<Move>, s: State) {
    && |run| == |moves| + 1 && run[0] == s
    && forall i :: 0 <= i < |moves| ==>
         Shape(run[i]) && Allowed(run[i], moves[i]) && run[i + 1] == Apply(run[i], moves[i])
  }

  ghost predicate CanReach(s: State, e: State) {
    exists run, moves :: Continues(run, moves, s) && run[|moves|] == e
  }

  lemma ReachesItself(s: State)
    ensures CanReach(s, s)
  {
    var moves: seq<Move> := [];
    assert Continues([s], moves, s) && [s][|moves|] == s;
  }

  lemma ReachesNext(s: State, e: State, m: Move)
    requires CanReach(s, e) && Shape(e) && Allowed(e, m)
    ensures CanReach(s, Apply(e, m))
  {
    hide Shape, Allowed, Apply;
    var run, moves :| Continues(run, moves, s) && run[|moves|] == e;
    var run', moves' := run + [Apply(e, m)], moves + [m];
    forall i | 0 <= i < |moves'|
      ensures Shape(run'[i]) && Allowed(run'[i], moves'[i]) && run'[i + 1] == Apply(run'[i], moves'[i])
    {
      if i < |moves| {
        assert run'[i] == run[i] && run'[i + 1] == run[i + 1] && moves'[i] == moves[i];
      }
    }
    assert Continues(run', moves', s) && run'[|moves'|] == Apply(e, m);
  }

  lemma {:induction false} HarmlessForever(run: seq<State>, moves: seq<Move>, s: State, w: nat, i: nat)
    requires Continues(run, moves, s) && i < |run| && Base(s) && Shape(s) && Harmless(BookOf(s), w)
    ensures Base(run[i]) && Shape(run[i]) && Harmless(BookOf(run[i]), w)
  {
    hide Base, Shape, Allowed, Apply, BookOf, Harmless, BookStep;
    if i > 0 {
      HarmlessForever(run, moves, s, w, i - 1);
      assert run[i] == run[i - 1 + 1] && Allowed(run[i - 1], moves[i - 1]);
      MoveBook(run[i - 1], moves[i - 1]);
      BaseShape(run[i]);
      HarmlessKept(BookOf(run[i - 1]), w, moves[i - 1].w, BookOf(run[i]));
    }
  }

  lemma {:induction false} JamForever(run: seq<State>, moves: seq<Move>, s: State, w: nat, x: nat, i: nat)
    requires Continues(run, moves, s) && i < |run| && Base(s) && Shape(s) && Jammed(s, w, x)
    ensures Base(run[i]) && Shape(run[i]) && Jammed(run[i], w, x)
    ensures |run[i].ticket| == |s.ticket| && w < |s.ticket| && run[i].ticket[w] == s.ticket[w]
  {
    if i > 0 {
      hide Base, Shape, Allowed, Apply, Jammed;
      JamForever(run, moves, s, w, x, i - 1);
      assert run[i] == run[i - 1 + 1] && Allowed(run[i - 1], moves[i - 1]);
      JamKept(run[i - 1], w, x, moves[i - 1]);
      JamTicket(run[i - 1], w, x, moves[i - 1]);
      BaseShape(run[i]);
    }
  }

  lemma JamTicket(s: State, w: nat, x: nat, m: Move)
    requires Base(s) && Shape(s) && Jammed(s, w, x) && Allowed(s, m)
    ensures |Apply(s, m).ticket| == |s.ticket| && w < |s.ticket| && Apply(s, m).ticket[w] == s.ticket[w]
  {
    hide Base, Step, Shape, Kinds;
    MoveBook(s, m);
  }

  // --- A failed group drops its ticket ---

  /** The holder of the ticket whose turn it is. */
  function TurnOf(s: State): nat {
    if s.sync.ticketToMem < |s.order| then s.order[s.sync.ticketToMem] else 0
  }

  /** The holder of ticket t waits for the memtable stage or is in it. */
  predicate Arrived(s: State, t: nat) {
    t < |s.order| && s.order[t] < |s.pc| && (Waits(s.pc[s.order[t]]) || InMem(s.pc[s.order[t]]))
  }

  /** w's WAL write has failed and its ticket is about to be dropped: tickets are otherwise in order, and every
      leader that took the WAL before it has arrived at the memtable stage. */
  predicate Dropping(s: State, w: nat)
    requires Shape(s)
  {
    && Base(s) && Aborting(s, w) && forall t :: s.sync.ticketToMem <= t < s.ticket[w] ==> Arrived(s, t)
  }

  /** The failure of a WAL write leads there. */
  lemma FailureIsDropping(s: State, w: nat)
    requires Inv(s) && w < |s.pc| && (s.pc[w].WalLoad? || s.pc[w].WalAppend?)
    ensures Shape(Abort(s, w)) && Dropping(Abort(s, w), w)
  {
    hide MemberInv, QueueInv, GroupInv, LogInv, StoreInv;
    AbortStarts(s, w);
    TicketsBound(s);
    AbortBase(s, w);
    assert Kinds(s)[w] == Holding && WalKinds(s.pc)[w] == WalKindOf(s.pc[w]);
    hide Base, Aborting;
    forall t | s.sync.ticketToMem <= t < s.ticket[w] ensures Arrived(Abort(s, w), t) {
      var h := s.order[t];
      assert Kinds(s)[h] == KindOf(s.pc[h], s.group[h] != []) && WalKinds(s.pc)[h] == WalKindOf(s.pc[h]);
      hide Kinds, WalKinds;
      assert s.owner == Some(w);
    }
  }

  lemma TicketsBound(s: State)
    requires Inv(s)
    ensures Base(s)
  {
    hide MemberInv, QueueInv, GroupInv, WalInv, LogInv, StoreInv;
    forall l | 0 <= l < |s.pc| && (Ticketed(s.pc[l]) || Committed(s, l)) ensures s.ticket[l] < |s.cuts| {
      assert Kinds(s)[l] == KindOf(s.pc[l], s.group[l] != []);
    }
    hide Kinds;
  }

  function Held(b: Book, w: nat): Book
    requires w < |b.kinds|
  {
    b.(kinds := b.kinds[w := Holding])
  }

  lemma HeldStep(b: Book, w: nat, v: nat, b': Book)
    requires w < |b.kinds| == |b'.kinds| && v != w && BookStep(b, v, b')
    requires b.kinds[w] == Entered && b'.kinds[w] == Entered
    ensures BookStep(Held(b, w), v, Held(b', w))
  {
    if Draws(b, v, b') || Enters(b, v, b') {
      assert b'.kinds[w := Holding] == b.kinds[w := Holding][v := b'.kinds[v]];
    }
  }

  /** And it stays so, whatever other writers do, until the ticket is dropped. */
  lemma DroppingStays(s: State, w: nat, m: Move)
    requires Shape(s) && Dropping(s, w) && Allowed(s, m) && m.w != w
    ensures Shape(Apply(s, m)) && Dropping(Apply(s, m), w)
  {
    var s' := Apply(s, m);
    hide Base, Step, Shape, BookStep, Arrived;
    MoveBook(s, m);
    BaseShape(s');
    OthersStay(s, w, m);
    HeldStep(BookOf(s), w, m.w, BookOf(s')) by {
      KindAt(s, w);
      KindAt(s', w);
      BooksSized(s, s');
    }
    OrderKept(Held(BookOf(s), w), m.w, Held(BookOf(s'), w));
    assert Aborting(s', w);
    forall t | s'.sync.ticketToMem <= t < s'.ticket[w] ensures Arrived(s', t) {
      ArrivedStays(s, w, m, t);
    }
  }

  lemma BooksSized(s: State, s': State)
    requires Shape(s) && Shape(s') && |s'.pc| == |s.pc|
    ensures |BookOf(s).kinds| == |s.pc| == |BookOf(s').kinds|
  {}

  lemma OthersStay(s: State, w: nat, m: Move)
    requires Shape(s) && w < |s.pc| && s.pc[w].MemRelease? && s.group[w] != [] && Allowed(s, m) && m.w != w
    ensures var s' := Apply(s, m);
            && |s'.pc| == |s.pc| && |s'.group| == |s.group| && s'.pc[w].MemRelease? && s'.group[w] != []
            && |s'.ticket| == |s.ticket| && s'.ticket[w] == s.ticket[w]
  {
    if m.Go? {
      OtherStays(s, m.w, m.full, w);
      OtherGroup(s, m.w, m.full, w);
      OtherTicket(s, m.w, m.full, w);
    }
  }

  lemma OtherTicket(s: State, v: nat, full: bool, l: nat)
    requires Shape(s) && CanStep(s, v) && l < |s.pc| && l != v
    ensures |Step(s, v, full).ticket| == |s.ticket| && Step(s, v, full).ticket[l] == s.ticket[l]
  {
    hide BaseLsn, Batch;
  }

  /** Arrived leaders leave only by passing the turn on. */
  lemma ArrivedStays(s: State, w: nat, m: Move, t: nat)
    requires Shape(s) && Dropping(s, w) && Allowed(s, m) && m.w != w
    requires Apply(s, m).sync.ticketToMem <= t < s.ticket[w]
    ensures Arrived(Apply(s, m), t)
  {
    var o := s.order[t];
    TurnsOn(s, m);
    assert Arrived(s, t);
    KindAt(s, o);
    assert Kinds(s)[w := Holding][o] != Before && s.ticket[o] == t;
    assert InMem(s.pc[o]) && o != w ==> t == s.sync.ticketToMem;
    hide Base, Kinds, Aborting;
    if m.Go? {
      if m.w == o { ArrivedMoves(s, o, m.full); } else { OtherStays(s, m.w, m.full, o); }
    }
  }

  lemma TurnsOn(s: State, m: Move)
    requires Shape(s) && Allowed(s, m)
    ensures s.order <= Apply(s, m).order && s.sync.ticketToMem <= Apply(s, m).sync.ticketToMem
  {
    hide BaseLsn, Batch, Shape;
  }

  lemma ArrivedMoves(s: State, o: nat, full: bool)
    requires Shape(s) && CanStep(s, o) && (Waits(s.pc[o]) || InMem(s.pc[o]))
    ensures var s' := Step(s, o, full);
            && |s'.pc| == |s.pc|
            && (if s.pc[o].MemRelease? then s'.sync.ticketToMem == s.sync.ticketToMem + 1
                else Waits(s'.pc[o]) || InMem(s'.pc[o]))
  {
    hide BaseLsn;
    if s.pc[o].MemRelease? { assert Step(s, o, full) == ReleaseTicket(s, o); }
  }

  lemma DropsBook(s: State, w: nat)
    requires Shape(s) && Dropping(s, w)
    ensures Base(ReleaseTicket(s, w)) && Shape(ReleaseTicket(s, w))
    ensures s.sync.ticketToMem <= s.ticket[w] < |s.order| && TurnOf(s) < |s.pc|
    ensures var b, b' := BookOf(s), BookOf(ReleaseTicket(s, w));
            && b' == b.(kinds := b'.kinds, toMem := b.toMem + 1) && |b'.kinds| == |b.kinds|
            && forall i :: 0 <= i < |b.kinds| ==>
                 b'.kinds[i] == if i == w then After else if b.kinds[i] == Sleeping then Holding else b.kinds[i]
  {
    ReleaseTicketBase(s, w);
    ReleaseKinds(s, w);
    hide Base, Arrived;
    assert Kinds(s)[w := Holding][w] == Holding;
    hide Kinds;
  }

  /** What follows from where the leader in turn is. */
  lemma AfterDrop(s: State, w: nat)
    requires Shape(s) && Dropping(s, w)
    ensures var d, h := ReleaseTicket(s, w), TurnOf(s);
            && Base(d) && Shape(d) && h < |s.pc| && s.sync.ticketToMem <= s.ticket[w] < |s.order|
            && (s.ticket[w] == s.sync.ticketToMem ==> InOrder(BookOf(d)) && h == w)
            && (s.ticket[w] > s.sync.ticketToMem ==> h != w && Behind(BookOf(d), w, h))
  {
    DropsBook(s, w);
    var b, b', h := BookOf(s), BookOf(ReleaseTicket(s, w)), TurnOf(s);
    var held := b.kinds[w := Holding];
    assert Tickets(held, b.ticket, b.order, b.toMem);
    hide Base, Arrived, Aborting, Kinds, BookOf;
    if s.ticket[w] == s.sync.ticketToMem {
      AbortedTickets(held, b'.kinds, b.ticket, b.order, b.toMem, w);
    } else {
      DropIsEarly(b, held, w, h, b');
    }
  }

  lemma DropIsEarly(b: Book, held: seq<Kind>, w: nat, h: nat, b': Book)
    requires w < |b.kinds| && held == b.kinds[w := Holding] && Tickets(held, b.ticket, b.order, b.toMem)
    requires b.ticket[w] > b.toMem && b.toMem < |b.order| && h == b.order[b.toMem]
    requires b' == b.(kinds := b'.kinds, toMem := b.toMem + 1) && |b'.kinds| == |b.kinds|
    requires forall i :: 0 <= i < |b.kinds| ==>
               b'.kinds[i] == if i == w then After else if b.kinds[i] == Sleeping then Holding else b.kinds[i]
    ensures h != w && Behind(b', w, h)
  {
    assert held[h] != Before && b.ticket[h] == b.toMem;
    forall l | 0 <= l < |b.kinds| && b'.kinds[l] != Before
      ensures b.ticket[l] < |b.order| && b.order[b.ticket[l]] == l
      ensures b'.kinds[l] == After <==> l == w || (b.ticket[l] < b.toMem + 1 && l != h)
      ensures b'.kinds[l] == Entered ==> l == h || b.ticket[l] == b.toMem + 1
    {
      assert held[l] != Before;
    }
  }

  /** The drop does no harm in any continuation: it is the group's own turn, or its ticket is the next one while the
      leader in turn is already in the stage. */
  predicate Heals(s: State, w: nat)
    requires w < |s.ticket|
  {
    || s.ticket[w] == s.sync.ticketToMem
    || (TurnOf(s) < |s.pc| && InMem(s.pc[TurnOf(s)]) && s.ticket[w] == s.sync.ticketToMem + 1)
  }

  lemma HealsIsHarmless(s: State, w: nat)
    requires Shape(s) && Dropping(s, w) && Heals(s, w)
    ensures Shape(ReleaseTicket(s, w)) && Harmless(BookOf(ReleaseTicket(s, w)), w)
  {
    AfterDrop(s, w);
    var d, h := ReleaseTicket(s, w), TurnOf(s);
    if s.ticket[w] > s.sync.ticketToMem {
      assert InMem(d.pc[h]) && d.ticket == s.ticket && d.sync.ticketToMem == s.sync.ticketToMem + 1;
      WaitingKind(d, h);
      hide Kinds, Behind, Dropping;
      assert LastBehind(BookOf(d), w, h);
    }
  }

  lemma WaitingIsJam(s: State, w: nat)
    requires Shape(s) && Dropping(s, w) && s.ticket[w] > s.sync.ticketToMem
    requires TurnOf(s) < |s.pc| && Waits(s.pc[TurnOf(s)])
    ensures Shape(ReleaseTicket(s, w)) && Base(ReleaseTicket(s, w)) && Jammed(ReleaseTicket(s, w), w, TurnOf(s))
  {
    AfterDrop(s, w);
    AbortingTurn(s, w);
    hide Kinds, Behind, Dropping, Base;
  }

  lemma AbortingTurn(s: State, w: nat)
    requires Shape(s) && Dropping(s, w)
    ensures s.sync.ticketToMem < |s.order| && TurnOf(s) < |s.pc| && s.ticket[TurnOf(s)] == s.sync.ticketToMem
  {
    var held := Kinds(s)[w := Holding];
    assert held[w] == Holding;
    hide Kinds, Base;
  }

  // --- When the next one in line is overtaken ---

  function StepsLeft(p: Pc, size: nat): nat
    requires InMem(p)
  {
    match p
    case MemInsert(k) => if k < size then size - k + 2 else 2
    case MemRotate => 1
    case _ => 0
  }

  /** The leader in the stage can leave it while another leader waits. */
  lemma {:induction false} CanLeave(d: State, s: State, h: nat, g: nat) returns (e: State)
    requires CanReach(d, s) && Shape(s) && h < |s.pc| && g < |s.pc| && g != h && InMem(s.pc[h]) && Waits(s.pc[g])
    ensures CanReach(d, e) && Shape(e) && |e.pc| == |s.pc| && |e.ticket| == |s.ticket|
    ensures e.sync.ticketToMem == s.sync.ticketToMem + 1 && Waits(e.pc[g]) && e.ticket[g] == s.ticket[g]
    decreases StepsLeft(s.pc[h], |s.group[h]|)
  {
    var s' := Step(s, h, false);
    assert Apply(s, Go(h, false)) == s' && Allowed(s, Go(h, false));
    StageMove(s, h);
    StepExtends(s, h, false);
    OtherStays(s, h, false, g);
    OnlyDrawCuts(s, h, false);
    hide Step, Shape, CanReach, Extends;
    ReachesNext(d, s, Go(h, false));
    if s.pc[h].MemRelease? {
      e := s';
    } else {
      e := CanLeave(d, s', h, g);
    }
  }

  lemma StageMove(s: State, h: nat)
    requires Shape(s) && h < |s.pc| && InMem(s.pc[h])
    ensures CanStep(s, h)
    ensures var s' := Step(s, h, false);
            && h < |s'.pc| == |s.pc| && h < |s'.group| == |s.group| && |s'.ticket| == |s.ticket|
            && s'.sync.ticketToMem == s.sync.ticketToMem + (if s.pc[h].MemRelease? then 1 else 0)
            && (!s.pc[h].MemRelease? ==>
                  InMem(s'.pc[h]) && StepsLeft(s'.pc[h], |s'.group[h]|) < StepsLeft(s.pc[h], |s.group[h]|))
  {
    hide BaseLsn;
    if s.pc[h].MemRelease? { assert Step(s, h, false) == ReleaseTicket(s, h); }
  }

  /** The next ticket's holder, waiting while the drop passes the turn to it. */
  lemma NextInLine(s: State, w: nat) returns (g: nat)
    requires Shape(s) && Dropping(s, w) && s.ticket[w] > s.sync.ticketToMem + 1
    requires TurnOf(s) < |s.pc| && InMem(s.pc[TurnOf(s)])
    ensures g < |s.pc| && g != TurnOf(s) && g != w && s.ticket[g] == s.sync.ticketToMem + 1
    ensures Shape(ReleaseTicket(s, w)) && ReleaseTicket(s, w).pc[g].MemCheck? && Waits(s.pc[g])
    ensures TurnOf(s) != w && InMem(ReleaseTicket(s, w).pc[TurnOf(s)])
  {
    AbortingTurn(s, w);
    AfterDrop(s, w);
    g := s.order[s.sync.ticketToMem + 1];
    assert Arrived(s, s.sync.ticketToMem + 1);
    var held := Kinds(s)[w := Holding];
    KindAt(s, g);
    assert held[g] != Before && s.ticket[g] == s.sync.ticketToMem + 1;
    hide Base, Kinds, Behind;
    assert held[g] != Entered;
  }

  lemma NextIsStrandedWhenLeft(s: State, w: nat) returns (e: State)
    requires Shape(s) && Dropping(s, w) && s.ticket[w] > s.sync.ticketToMem + 1
    requires TurnOf(s) < |s.pc| && InMem(s.pc[TurnOf(s)])
    ensures CanReach(ReleaseTicket(s, w), e) && Shape(e) && SomeStuck(e)
  {
    var d, h := ReleaseTicket(s, w), TurnOf(s);
    var g := NextInLine(s, w);
    assert d.ticket == s.ticket && d.sync.ticketToMem == s.sync.ticketToMem + 1;
    hide Dropping, CanReach, Shape, ReleaseTicket;
    ReachesItself(d);
    e := CanLeave(d, d, h, g);
    assert Stuck(e, g) by { hide *; StuckIs(e, g); }
  }

  lemma StuckIs(s: State, h: nat)
    requires Shape(s) && h < |s.pc| && Waits(s.pc[h])
    ensures s.ticket[h] < s.sync.ticketToMem ==> Stuck(s, h)
  {}

  // --- The exact conditions ---

  /** Some continuation of a drop passes a leader over for good exactly when the drop does not heal: the ticket is
      not in turn, and it is not the next one with the leader in turn already in the stage. */
  lemma DropStrandsIff(s: State, w: nat)
    requires Shape(s) && Dropping(s, w)
    ensures Shape(ReleaseTicket(s, w)) && w < |s.ticket|
    ensures (exists e :: CanReach(ReleaseTicket(s, w), e) && Shape(e) && SomeStuck(e)) <==> !Heals(s, w)
  {
    AfterDrop(s, w);
    AbortingTurn(s, w);
    var d, h := ReleaseTicket(s, w), TurnOf(s);
    assert s.ticket[w] > s.sync.ticketToMem ==> Arrived(s, s.sync.ticketToMem);
    hide Base, Shape, Dropping, CanReach, SomeStuck, ReleaseTicket, Behind, InOrder;
    if Heals(s, w) {
      HealsIsHarmless(s, w);
      forall e | CanReach(d, e) && Shape(e) ensures !SomeStuck(e) {
        HealedNeverStuck(d, e, w);
      }
    } else if Waits(s.pc[h]) {
      WaitingIsJam(s, w);
      ReachesItself(d);
      JamIsStuck(d, w, h);
    } else {
      var e := NextIsStrandedWhenLeft(s, w);
    }
  }

  lemma JamIsStuck(s: State, w: nat, x: nat)
    requires Shape(s) && Jammed(s, w, x)
    ensures SomeStuck(s)
  {}

  lemma HealedNeverStuck(d: State, e: State, w: nat)
    requires Base(d) && Shape(d) && Harmless(BookOf(d), w) && CanReach(d, e)
    ensures Shape(e) && !SomeStuck(e) && !TwoInside(e)
  {
    hide Base, Shape, Harmless, BookOf, SomeStuck, TwoInside;
    var run, moves :| Continues(run, moves, d) && run[|moves|] == e;
    HarmlessForever(run, moves, d, w, |moves|);
    HarmlessMeans(e, w);
  }

  /** Some continuation puts two leaders into the memtable stage exactly when the leader in turn is in it and the
      dropped ticket is not the next one. */
  lemma SecondEntersIff(s: State, w: nat)
    requires Shape(s) && Dropping(s, w)
    ensures Shape(ReleaseTicket(s, w)) && TurnOf(s) < |s.pc| && w < |s.ticket|
    ensures (exists e :: CanReach(ReleaseTicket(s, w), e) && TwoInside(e))
            <==> InMem(s.pc[TurnOf(s)]) && s.ticket[w] > s.sync.ticketToMem + 1
  {
    AfterDrop(s, w);
    AbortingTurn(s, w);
    var d, h := ReleaseTicket(s, w), TurnOf(s);
    assert s.ticket[w] > s.sync.ticketToMem ==> Arrived(s, s.sync.ticketToMem);
    hide Base, Shape, Dropping, CanReach, TwoInside, ReleaseTicket, Behind, InOrder, InMem, Jammed;
    if InMem(s.pc[h]) && s.ticket[w] > s.sync.ticketToMem + 1 {
      var e := NextEnters(s, w);
    } else if Heals(s, w) {
      HealsIsHarmless(s, w);
      forall e | CanReach(d, e) ensures !TwoInside(e) {
        HealedNeverStuck(d, e, w);
      }
    } else {
      WaitingIsJam(s, w);
      forall e | CanReach(d, e) ensures !TwoInside(e) {
        JammedNeverTwo(d, e, w, h);
      }
    }
  }

  lemma NextEnters(s: State, w: nat) returns (e: State)
    requires Shape(s) && Dropping(s, w) && s.ticket[w] > s.sync.ticketToMem + 1
    requires TurnOf(s) < |s.pc| && InMem(s.pc[TurnOf(s)])
    ensures CanReach(ReleaseTicket(s, w), e) && TwoInside(e)
  {
    var d, h := ReleaseTicket(s, w), TurnOf(s);
    var g := NextInLine(s, w);
    assert d.ticket == s.ticket && d.sync.ticketToMem == s.sync.ticketToMem + 1;
    hide Dropping, CanReach;
    ReachesItself(d);
    e := Apply(d, Go(g, false));
    BothIn(d, h, g);
    hide Shape, ReleaseTicket, Apply, TwoInside;
    ReachesNext(d, d, Go(g, false));
  }

  lemma BothIn(s: State, h: nat, g: nat)
    requires Shape(s) && h < |s.pc| && g < |s.pc| && g != h && InMem(s.pc[h])
    requires s.pc[g].MemCheck? && s.ticket[g] == s.sync.ticketToMem
    ensures Allowed(s, Go(g, false)) && TwoInside(Apply(s, Go(g, false)))
  {
    hide BaseLsn;
    var e := EnterMem(s, g);
    assert Apply(s, Go(g, false)) == e;
    assert InMem(e.pc[g]) && InMem(e.pc[h]);
    assert g < h ==> TwoInside(e);
  }

  lemma JammedNeverTwo(d: State, e: State, w: nat, x: nat)
    requires Base(d) && Shape(d) && Jammed(d, w, x) && CanReach(d, e)
    ensures !TwoInside(e)
  {
    hide Base, Shape, Jammed, TwoInside;
    var run, moves :| Continues(run, moves, d) && run[|moves|] == e;
    JamForever(run, moves, d, w, x, |moves|);
    JamMeans(e, w, x);
  }

  /** Whoever is stuck after a drop is the one left behind. */
  lemma StuckIsBehind(run: seq<State>, moves: seq<Move>, s: State, w: nat, i: nat, h: nat)
    requires Shape(s) && Dropping(s, w) && Shape(ReleaseTicket(s, w)) && Continues(run, moves, ReleaseTicket(s, w))
    requires i < |run| && Shape(run[i]) && Stuck(run[i], h)
    ensures Base(run[i]) && Behind(BookOf(run[i]), w, h)
  {
    assert w < |s.pc|;
    hide Base, Shape, Dropping, ReleaseTicket, Behind, InOrder;
    AfterDrop(s, w);
    OneBehind(run, moves, ReleaseTicket(s, w), w, i);
    OnlyBehindStuck(run[i], w, h);
  }

  ghost predicate OneBehindAt(s: State, w: nat)
    requires Shape(s)
  {
    InOrder(BookOf(s)) || exists x: nat :: Behind(BookOf(s), w, x)
  }

  lemma {:induction false} OneBehind(run: seq<State>, moves: seq<Move>, s: State, w: nat, i: nat)
    requires Continues(run, moves, s) && i < |run| && Base(s) && Shape(s) && OneBehindAt(s, w)
    ensures Base(run[i]) && Shape(run[i]) && OneBehindAt(run[i], w)
  {
    hide Base, Shape, Allowed, Apply, BookOf, Behind, InOrder, BookStep;
    if i > 0 {
      OneBehind(run, moves, s, w, i - 1);
      assert run[i] == run[i - 1 + 1] && Allowed(run[i - 1], moves[i - 1]);
      MoveBook(run[i - 1], moves[i - 1]);
      BaseShape(run[i]);
      BooksKeepOne(BookOf(run[i - 1]), w, moves[i - 1].w, BookOf(run[i]));
    }
  }

  lemma BooksKeepOne(b: Book, w: nat, v: nat, b': Book)
    requires (InOrder(b) || exists x: nat :: Behind(b, w, x)) && BookStep(b, v, b')
    ensures InOrder(b') || exists x: nat :: Behind(b', w, x)
  {
    if InOrder(b) {
      hide InOrder, BookStep;
      OrderKept(b, v, b');
    } else {
      var x: nat :| Behind(b, w, x);
      if Leaves(b, v, b') && v == x {
        assert b.toMem <= b.ticket[w];
        hide Leaves, Behind, InOrder;
        BehindPasses(b, w, x, b');
      } else {
        hide Leaves, Behind, InOrder, BookStep;
        BehindKept(b, w, x, v, b');
      }
    }
  }

  lemma OnlyBehindStuck(s: State, w: nat, h: nat)
    requires Shape(s) && OneBehindAt(s, w) && Stuck(s, h)
    ensures Behind(BookOf(s), w, h)
  {
    WaitingKind(s, h);
    hide Kinds;
    if !InOrder(BookOf(s)) {
      var x: nat :| Behind(BookOf(s), w, x);
      assert x == h;
    }
  }

  /** Once a leader is stuck after a drop, the turn never passes the dropped ticket: no leader with a later ticket ever
      enters the memtable stage again. */
  lemma StuckStopsTheTurn(run: seq<State>, moves: seq<Move>, s: State, w: nat, i: nat, j: nat, h: nat)
    requires Shape(s) && Dropping(s, w) && Shape(ReleaseTicket(s, w)) && Continues(run, moves, ReleaseTicket(s, w))
    requires i <= j < |run| && Shape(run[i]) && Stuck(run[i], h)
    ensures Shape(run[j]) && Stuck(run[j], h) && w < |run[j].ticket|
    ensures run[j].sync.ticketToMem <= run[j].ticket[w]
    ensures forall l :: 0 <= l < |run[j].pc| && InMem(run[j].pc[l]) ==> run[j].ticket[l] < run[j].ticket[w]
  {
    StuckIsBehind(run, moves, s, w, i, h);
    assert Jammed(run[i], w, h);
    hide Base, Shape, Behind, BookOf, Dropping, ReleaseTicket, Allowed, Apply, TwoInside;
    assert Continues(run[i..], moves[i..], run[i]);
    assert run[i..][j - i] == run[j];
    JamForever(run[i..], moves[i..], run[i], w, h, j - i);
    JamMeans(run[j], w, h);
  }

  /** Three writers come to it: the first inserting, the second waiting, the third failing. */
  lemma OvertakenIsReached(start: nat) returns (s: State, e: State)
    ensures Reachable(s, 3, start) && Shape(s) && |s.pc| == 3
    ensures s.pc[2].WalAppend? && InMem(s.pc[0]) && Waits(s.pc[1])
    ensures Shape(Abort(s, 2)) && CanReach(ReleaseTicket(Abort(s, 2), 2), e) && Shape(e) && SomeStuck(e)
  {
    hide Reachable, CanReach, SomeStuck;
    s := ReachThree(start);
    ReachableInv(s, 3, start);
    hide Inv;
    FailureIsDropping(s, 2);
    ThreeFailed(s);
    e := NextIsStrandedWhenLeft(Abort(s, 2), 2);
  }

  lemma ThreeFailed(s: State)
    requires Inv(s) && s.pc == [MemInsert(0), MemCheck, WalAppend(0)]
    requires s.ticket == [0, 1, 2] && s.sync.ticketToMem == 0
    ensures var a := Abort(s, 2);
            |a.pc| == 3 && TurnOf(a) == 0 && InMem(a.pc[0]) && a.ticket[2] > a.sync.ticketToMem + 1
  {
    hide MemberInv, QueueInv, GroupInv, WalInv, LogInv, StoreInv;
    assert Kinds(s)[0] == Entered;
    hide Kinds;
  }

  lemma ReachableInv(s: State, n: nat, start: nat)
    requires Reachable(s, n, start)
    ensures Inv(s)
  {
    hide Inv, PipelineTheorems.Next;
    var run :| PipelineTheorems.IsRun(run, n, start) && run[|run| - 1] == s;
    PipelineTheorems.RunKeepsInv(run, n, start, |run| - 1);
  }
}
