/** Where the write protocol stops short: a rotation can part a WAL from its memtable, and a WAL failure
    can break the ticket order. Each is characterised exactly and reached by a run. */
module PipelineLimits {
  import opened Codec
  import opened WritePipeline
  import opened PipelineProofs
  import opened PipelineTheorems
  import opened PipelineProgress

  // --- Rotation against WAL writes in flight ---

  /** A leader has chosen its WAL and not written it yet. */
  predicate WriteInFlight(s: State) {
    exists l :: 0 <= l < |s.pc| && s.pc[l].WalAppend?
  }

  /** Every frozen memtable holds exactly what its WAL took, whatever else is in the file, and no write is under way
      to a frozen one's WAL. */
  predicate Settled(s: State) {
    && |s.wals| == |s.mems|
    && (forall i :: 0 <= i < |s.wals| - 1 ==> s.wals[i] == s.mems[i])
    && (forall l :: 0 <= l < |s.pc| && s.pc[l].WalAppend? ==> s.pc[l].file == |s.wals| - 1)
  }

  /** Of two prefixes of one log cut at the same places but the last, the last pieces agree iff the ends do. */
  lemma LastPieces<T>(xs: seq<seq<T>>, ys: seq<seq<T>>, log: seq<T>, a: nat, b: nat)
    requires |xs| == |ys| > 0 && xs[..|xs| - 1] == ys[..|ys| - 1]
    requires a <= |log| && b <= |log| && Flatten(xs) == log[..a] && Flatten(ys) == log[..b]
    ensures xs[|xs| - 1] == ys[|ys| - 1] <==> a == b
  {
    var n := |xs| - 1;
    var front := Flatten(xs[..n]);
    assert |front + xs[n]| == a && |front + ys[n]| == b;
    if a == b {
      assert xs[n] == (front + xs[n])[|front|..] == (front + ys[n])[|front|..] == ys[n];
    }
  }

  /** A rotation keeps frozen memtables and WALs matched exactly when no group is between its WAL write
      and its memtable write: everything appended is applied and no WAL write is in flight. */
  lemma RotationSettlesIffQuiet(s: State, w: nat)
    requires Inv(s) && Settled(s) && w < |s.pc| && s.pc[w].MemRotate?
    ensures Settled(Rotate(s, w)) <==> s.applied == s.appended && !WriteInFlight(s)
  {
    hide MemberInv, QueueInv, GroupInv, WalInv, TicketInv, LogInv, AppendPos, ApplyPos, Flatten;
    var s', n := Rotate(s, w), |s.wals| - 1;
    assert s.wals[..n] == s.mems[..n];
    LastPieces(s.wals, s.mems, s.log, s.appended, s.applied);
    assert s'.wals[n] == s.wals[n] && s'.mems[n] == s.mems[n];
    if WriteInFlight(s) {
      var l :| 0 <= l < |s.pc| && s.pc[l].WalAppend?;
      assert s'.pc[l] == s.pc[l];
    }
  }

  /** No other step unsettles. */
  lemma OtherStepsKeepSettled(s: State, w: nat, full: bool)
    requires Inv(s) && Shape(s) && Settled(s) && CanStep(s, w) && !s.pc[w].MemRotate?
    ensures Settled(Step(s, w, full))
  {
    hide Inv, BaseLsn, Batch;
    match s.pc[w]
    case Marking(_) => TellKeepsSettled(s, w);
    case Finishing(_) => TellKeepsSettled(s, w);
    case WalAppend(_) =>
    case MemInsert(_) =>
    case WalRelease =>
    case MemRelease =>
    case _ =>
  }

  lemma TellKeepsSettled(s: State, w: nat)
    requires Shape(s) && Settled(s) && w < |s.pc|
    ensures s.pc[w].Marking? ==> Settled(MarkNext(s, w))
    ensures s.pc[w].Finishing? ==> Settled(FinishNext(s, w))
  {
    hide BaseLsn;
  }

  /** Everything appended is applied and no WAL write is in flight. */
  predicate QuietMoment(s: State) { s.applied == s.appended && !WriteInFlight(s) }

  lemma WalsStay(s: State, w: nat, full: bool)
    requires Shape(s) && CanStep(s, w) && !s.pc[w].MemRotate?
    ensures |Step(s, w, full).wals| == |s.wals|
  {
    hide BaseLsn, Batch, Shape;
  }

  lemma NextSettledIff(s: State, s': State)
    requires Inv(s) && Settled(s) && Next(s, s')
    ensures Settled(s') <==> (|s'.wals| > |s.wals| ==> QuietMoment(s))
  {
    InvShape(s);
    hide Inv, Step, WriteInFlight, Settled;
    var w: nat, full: bool :| StepsTo(s, w, full, s');
    if CanStep(s, w) && s' == Step(s, w, full) {
      if s.pc[w].MemRotate? {
        RotationSettlesIffQuiet(s, w);
        RotateStep(s, w, full);
      } else {
        WalsStay(s, w, full);
        OtherStepsKeepSettled(s, w, full);
      }
    } else {
      WakeKeepsSettled(s, w);
    }
  }

  lemma RotateStep(s: State, w: nat, full: bool)
    requires Shape(s) && CanStep(s, w) && s.pc[w].MemRotate?
    ensures Step(s, w, full) == Rotate(s, w) && |Rotate(s, w).wals| == |s.wals| + 1
  {}

  lemma WakeKeepsSettled(s: State, w: nat)
    requires Settled(s) && w < |s.pc|
    ensures Settled(SpuriousWake(s, w)) && |SpuriousWake(s, w).wals| == |s.wals|
  {}

  /** In every run: frozen memtables and WALs match in all states up to one exactly when every rotation before it
      fell in a quiet moment. */
  lemma {:induction false} SettledThroughoutIff(run: seq<State>, n: nat, start: nat, i: nat)
    requires IsRun(run, n, start) && i < |run|
    ensures (forall j :: 0 <= j <= i ==> Settled(run[j]))
            <==> (forall j :: 0 <= j < i && |run[j + 1].wals| > |run[j].wals| ==> QuietMoment(run[j]))
  {
    hide Inv, Next, Settled, QuietMoment;
    if i == 0 {
      SettledAtFirst(n, start);
    } else {
      SettledThroughoutIff(run, n, start, i - 1);
      RunKeepsInv(run, n, start, i - 1);
      assert Next(run[i - 1], run[i - 1 + 1]);
      if Settled(run[i - 1]) {
        NextSettledIff(run[i - 1], run[i]);
      }
    }
  }

  lemma SettledAtFirst(n: nat, start: nat)
    ensures Settled(Init(n, start))
  {}

  // --- A failed WAL write ---

  /** Encoding or writing the group fails: the leader drops its WAL guard and goes on to drop its ticket and its
      group. */
  function Abort(s: State, w: nat): State
    requires Shape(s) && w < |s.pc|
  {
    s.(sync := s.sync.(walBusy := false), owner := None, pc := WakeWal(s.pc)[w := MemRelease])
  }

  /** Tickets in order, except that w is about to drop its own. */
  predicate Aborting(s: State, w: nat)
    requires Shape(s)
  {
    w < |s.pc| && s.pc[w].MemRelease? && s.group[w] != []
        && Tickets(Kinds(s)[w := Holding], s.ticket, s.order, s.sync.ticketToMem)
  }

  lemma AbortStarts(s: State, w: nat)
    requires Inv(s) && w < |s.pc| && (s.pc[w].WalLoad? || s.pc[w].WalAppend?)
    ensures Shape(Abort(s, w)) && Aborting(Abort(s, w), w)
  {
    hide QueueInv, GroupInv, WalInv, LogInv, StoreInv, Placed, Tickets;
    assert Kinds(Abort(s, w))[w := Holding] == Kinds(s);
  }

  /** Dropping the ticket of a failed group keeps the tickets in order exactly when it is that group's turn. */
  lemma AbortKeepsOrderIffItsTurn(s: State, w: nat)
    requires Shape(s) && Aborting(s, w)
    ensures TicketInv(ReleaseTicket(s, w)) <==> s.ticket[w] == s.sync.ticketToMem
  {
    var kinds := Kinds(s)[w := Holding];
    var s' := ReleaseTicket(s, w);
    assert |Kinds(s')| == |kinds|;
    forall i | 0 <= i < |s.pc|
      ensures Kinds(s')[i] == (if i == w then After else if kinds[i] == Sleeping then Holding else kinds[i])
    {
      assert Kinds(s)[i] == KindOf(s.pc[i], s.group[i] != []);
      assert Kinds(s')[i] == KindOf(s'.pc[i], s.group[i] != []);
    }
    hide Kinds;
    AbortedTickets(kinds, Kinds(s'), s.ticket, s.order, s.sync.ticketToMem, w);
  }

  lemma AbortedTickets(kinds: seq<Kind>, kinds': seq<Kind>, ticket: seq<nat>, order: seq<nat>, toMem: nat, w: nat)
    requires w < |kinds| == |kinds'| && kinds[w] == Holding && Tickets(kinds, ticket, order, toMem)
    requires forall i :: 0 <= i < |kinds| ==>
               kinds'[i] == if i == w then After else if kinds[i] == Sleeping then Holding else kinds[i]
    ensures Tickets(kinds', ticket, order, toMem + 1) <==> ticket[w] == toMem
  {
    var h := order[toMem];
    if ticket[w] == toMem {
      assert forall i :: 0 <= i < |kinds| && i != w && kinds[i] != Before ==> ticket[i] != toMem;
    } else {
      assert kinds[h] != After && kinds'[h] != After && kinds'[h] != Before;
    }
  }

  /** A leader whose turn has been skipped. */
  predicate Stuck(s: State, h: nat)
    requires Shape(s)
  {
    h < |s.pc| && (s.pc[h].MemCheck? || s.pc[h].MemAsleep?) && s.ticket[h] < s.sync.ticketToMem
  }

  lemma StuckStays(s: State, h: nat, w: nat, full: bool)
    requires Shape(s) && Stuck(s, h) && CanStep(s, w)
    ensures Shape(Step(s, w, full)) && Stuck(Step(s, w, full), h)
  {
    hide BaseLsn, Batch, Extends;
    StepExtends(s, w, full);
    hide Shape;
    match s.pc[w]
    case Marking(_) =>
    case Finishing(_) =>
    case MemCheck =>
    case MemRelease =>
    case WalRelease =>
    case _ =>
  }

  /** When a failed group drops its ticket out of turn, the leader waiting for its turn is stuck. */
  lemma SkippedIsStuck(s: State, w: nat, h: nat)
    requires Shape(s) && Aborting(s, w) && s.ticket[w] != s.sync.ticketToMem
    requires h < |s.pc| && h == s.order[s.sync.ticketToMem] && (s.pc[h].MemCheck? || s.pc[h].MemAsleep?)
    ensures Shape(ReleaseTicket(s, w)) && Stuck(ReleaseTicket(s, w), h)
  {
    hide Kinds;
  }

  // --- Runs that get there ---

  ghost predicate Reachable(s: State, n: nat, start: nat) {
    exists run :: IsRun(run, n, start) && run[|run| - 1] == s
  }

  lemma ReachInit(n: nat, start: nat)
    ensures Reachable(Init(n, start), n, start)
  {
    hide Init;
    assert IsRun([Init(n, start)], n, start);
  }

  lemma Reach(s: State, n: nat, start: nat, w: nat, full: bool) returns (s': State)
    requires Reachable(s, n, start) && Shape(s) && CanStep(s, w)
    ensures s' == Step(s, w, full) && Reachable(s', n, start)
  {
    hide Init, Step, Shape;
    s' := Step(s, w, full);
    assert StepsTo(s, w, full, s');
    var run :| IsRun(run, n, start) && run[|run| - 1] == s;
    var run' := run + [s'];
    forall i | 0 <= i < |run'| - 1 ensures Next(run'[i], run'[i + 1]) {
      if i < |run| - 1 {
        assert Next(run[i], run[i + 1]);
      }
    }
    assert IsRun(run', n, start);
  }

  /** What s becomes when w, alone in its group, goes from its call of put to choosing its WAL. */
  function AtWal(s: State, w: nat): State
    requires Shape(s) && w < |s.pc|
  {
    s.(sync := s.sync.(walBusy := true, nextTicket := s.sync.nextTicket + 1, nextLsn := s.sync.nextLsn + 1),
       pc := s.pc[w := WalAppend(|s.wals| - 1)], slot := s.slot[w := ToldFollow], group := s.group[w := [w]],
       ticket := s.ticket[w := s.sync.nextTicket], head := s.head[w := w], pos := s.pos[w := 0], owner := Some(w),
       order := s.order + [w], cuts := s.cuts + [|s.log|], log := s.log + [Rec(w, s.sync.nextLsn)])
  }

  /** Where w stands alone on the way there, having got as far as drawing nothing yet. */
  function Alone(s: State, w: nat, p: Pc, sl: Slot, g: seq<nat>): State
    requires Shape(s) && w < |s.pc|
  {
    s.(pc := s.pc[w := p], slot := s.slot[w := sl], group := s.group[w := g], head := s.head[w := w],
       pos := s.pos[w := 0])
  }

  /** With the WAL taken and nothing drawn. */
  function AtDraw(s: State, w: nat): State
    requires Shape(s) && w < |s.pc|
  {
    Alone(s, w, WalDraw, ToldFollow, [w]).(sync := s.sync.(walBusy := true), owner := Some(w))
  }

  lemma JoinAlone(s: State, n: nat, start: nat, w: nat)
    requires Reachable(s, n, start) && Shape(s) && w < |s.pc| && s.pc[w].Start? && s.slot[w].Empty? && s.group[w] == []
    requires s.sync.queue == []
    ensures Reachable(Alone(s, w, Marking(0), Empty, [w]), n, start)
  {
    hide Reachable;
    var s1 := Reach(s, n, start, w, false);
    var s2 := Reach(s1, n, start, w, false);
    var s3 := Reach(s2, n, start, w, false);
    SamePlace(s, w);
    assert s1.sync.queue == [w] && s2.sync.queue == [w] && s3.sync == s.sync;
    assert s3.slot == s.slot[w := Empty] && s3.pc == s.pc[w := Marking(0)];
    assert s3 == Alone(s, w, Marking(0), Empty, [w]);
  }

  lemma MarkAlone(s: State, n: nat, start: nat, w: nat)
    requires Shape(s) && w < |s.pc| && Reachable(Alone(s, w, Marking(0), Empty, [w]), n, start)
    requires !s.sync.walBusy
    ensures Reachable(AtDraw(s, w), n, start)
  {
    hide Reachable;
    var s0 := Alone(s, w, Marking(0), Empty, [w]);
    var s1 := Reach(s0, n, start, w, false);
    assert s1 == Alone(s, w, Marking(1), ToldFollow, [w]);
    var s2 := Reach(s1, n, start, w, false);
    assert s2 == Alone(s, w, WalCheck, ToldFollow, [w]);
    var s3 := Reach(s2, n, start, w, false);
    assert s3 == AtDraw(s, w);
  }

  lemma DrawAlone(s: State, n: nat, start: nat, w: nat)
    requires Shape(s) && w < |s.pc|
    requires Reachable(AtDraw(s, w), n, start)
    ensures Reachable(AtWal(s, w), n, start)
  {
    hide Reachable;
    var s0 := AtDraw(s, w);
    var s1 := Reach(s0, n, start, w, false);
    var s2 := Reach(s1, n, start, w, false);
    assert Batch([w], s.sync.nextLsn) == [Rec(w, s.sync.nextLsn)];
    assert s2 == AtWal(s, w);
  }

  lemma ReachWal(s: State, n: nat, start: nat, w: nat)
    requires Reachable(s, n, start) && Shape(s) && w < |s.pc| && s.pc[w].Start? && s.slot[w].Empty? && s.group[w] == []
    requires s.sync.queue == [] && !s.sync.walBusy
    ensures Reachable(AtWal(s, w), n, start)
  {
    hide Reachable, Alone, AtDraw, AtWal, Shape;
    JoinAlone(s, n, start, w);
    MarkAlone(s, n, start, w);
    DrawAlone(s, n, start, w);
  }

  /** Two writers: one past the WAL stage with the first ticket, one about to write the WAL with the second. */
  function TwoInFlight(start: nat, first: Pc): State {
    State(Sync([], true, 0, 2, start + 2), [first, WalAppend(0)], [ToldFollow, ToldFollow], [[0], [1]], [0, 1],
          [[Rec(0, start)]], [[]], start, [0, 1], [0, 0], Some(1), [0, 1], [0, 1],
          [Rec(0, start), Rec(1, start + 1)], 1, 0)
  }

  /** A group of one writes one record. */
  lemma WriteOne(s: State, w: nat, lsn: nat)
    requires Shape(s) && w < |s.pc| && s.pc[w].WalAppend? && s.pc[w].file < |s.wals|
    requires s.group[w] == [w] && CommittedLsn(s, w) == lsn
    ensures var f := s.pc[w].file;
            Append(s, w) == s.(wals := s.wals[f := s.wals[f] + [Rec(w, lsn)]], appended := s.appended + 1,
                               pc := s.pc[w := WalRelease])
  {
    assert Batch(s.group[w], lsn) == [Rec(w, lsn)];
  }

  /** A group of one inserts one record. */
  lemma InsertOne(s: State, w: nat, lsn: nat, full: bool)
    requires Shape(s) && w < |s.pc| && s.pc[w] == MemInsert(0)
    requires s.group[w] == [w] && CommittedLsn(s, w) == lsn
    ensures var last := |s.mems| - 1;
            InsertNext(s, w, full)
            == s.(mems := s.mems[last := s.mems[last] + [Rec(w, lsn)]], applied := s.applied + 1,
                  pc := s.pc[w := MemInsert(1)])
  {
  }

  lemma ReachTwoInFlight(start: nat)
    ensures Reachable(TwoInFlight(start, MemCheck), 2, start)
  {
    hide Reachable, AtWal, Append;
    var s0 := Init(2, start);
    ReachInit(2, start);
    ReachWal(s0, 2, start, 0);
    FirstInFlight(s0, start);
    var s1 := AtWal(s0, 0);
    WriteOne(s1, 0, start);
    var s2 := Reach(s1, 2, start, 0, false);
    var s3 := Reach(s2, 2, start, 0, false);
    FirstWritten(s1, s3, start);
    ReachWal(s3, 2, start, 1);
    SecondInFlight(s0, s3, start);
  }

  lemma FirstInFlight(s0: State, start: nat)
    requires s0 == Init(2, start)
    ensures var s := AtWal(s0, 0);
            && Shape(s) && s.pc == [WalAppend(0), Start] && s.group == [[0], []] && s.ticket == [0, 0] && s.cuts == [0]
            && s.slot == [ToldFollow, Empty] && s.wals == [[]] && CommittedLsn(s, 0) == start && s.appended == 0
            && s.sync == Sync([], true, 0, 1, start + 1)
  {
  }

  lemma FirstWritten(s1: State, s3: State, start: nat)
    requires Shape(s1) && s1.pc == [WalAppend(0), Start] && s1.wals == [[]]
    requires s1.sync == Sync([], true, 0, 1, start + 1)
    requires s1.appended == 0
    requires var s2 := s1.(wals := s1.wals[0 := s1.wals[0] + [Rec(0, start)]], appended := 1,
                           pc := s1.pc[0 := WalRelease]);
             s3 == ReleaseWal(s2, 0)
    ensures s3 == s1.(sync := Sync([], false, 0, 1, start + 1), pc := [MemCheck, Start], owner := None,
                      wals := [[Rec(0, start)]], appended := 1)
  {
    assert s3.pc == [MemCheck, Start];
    assert s3.wals == [[Rec(0, start)]] by { assert [] + [Rec(0, start)] == [Rec(0, start)]; }
  }

  lemma SecondInFlight(s0: State, s: State, start: nat)
    requires s0 == Init(2, start) && Shape(s)
    requires s == AtWal(s0, 0).(sync := Sync([], false, 0, 1, start + 1), pc := [MemCheck, Start], owner := None,
                                wals := [[Rec(0, start)]], appended := 1)
    ensures AtWal(s, 1) == TwoInFlight(start, MemCheck)
  {
    var s', t := AtWal(s, 1), TwoInFlight(start, MemCheck);
    assert s'.pc == t.pc && s'.slot == t.slot && s'.group == t.group && s'.ticket == t.ticket;
    assert s'.head == t.head && s'.pos == t.pos && s'.order == t.order && s'.cuts == t.cuts && s'.log == t.log;
  }

  /** A rotation does fall between another group's WAL write and its memtable write: its record ends in
      the old WAL and the new memtable. */
  lemma RotationSplitsAGroup(start: nat) returns (s: State)
    ensures Reachable(s, 2, start)
    ensures s.wals == [[Rec(0, start), Rec(1, start + 1)], []] && s.mems == [[Rec(0, start)], [Rec(1, start + 1)]]
  {
    hide Reachable, InsertNext;
    ReachTwoInFlight(start);
    var s0 := TwoInFlight(start, MemCheck);
    var s1 := Reach(s0, 2, start, 0, false);
    assert s1 == TwoInFlight(start, MemInsert(0)) by { assert s1.pc == TwoInFlight(start, MemInsert(0)).pc; }
    var s2 := Reach(s1, 2, start, 0, false);
    InsertOne(s1, 0, start, false);
    assert s2.mems == [[Rec(0, start)]] by { assert [] + [Rec(0, start)] == [Rec(0, start)]; }
    assert s2.pc == [MemInsert(1), WalAppend(0)];
    s := RotatedEnds(s2, start);
  }

  lemma RotatedEnds(s2: State, start: nat) returns (s: State)
    requires Reachable(s2, 2, start) && Shape(s2)
    requires s2 == TwoInFlight(start, MemInsert(1)).(mems := [[Rec(0, start)]], applied := 1)
    ensures Reachable(s, 2, start)
    ensures s.wals == [[Rec(0, start), Rec(1, start + 1)], []] && s.mems == [[Rec(0, start)], [Rec(1, start + 1)]]
  {
    hide Reachable;
    var s3 := Reach(s2, 2, start, 0, true);
    var s4 := Reach(s3, 2, start, 0, false);
    assert s4.wals == [[Rec(0, start)], []] && s4.mems == [[Rec(0, start)], []] && s4.pc == [MemRelease, WalAppend(0)];
    s := SplitEnds(s4, start);
  }

  lemma SplitEnds(s0: State, start: nat) returns (s: State)
    requires Reachable(s0, 2, start) && Shape(s0) && s0.pc == [MemRelease, WalAppend(0)]
    requires s0.wals == [[Rec(0, start)], []] && s0.mems == [[Rec(0, start)], []]
    requires s0.group == [[0], [1]] && s0.ticket == [0, 1] && s0.sync.ticketToMem == 0
    requires s0.start == start && s0.cuts == [0, 1]
    ensures Reachable(s, 2, start)
    ensures s.wals == [[Rec(0, start), Rec(1, start + 1)], []] && s.mems == [[Rec(0, start)], [Rec(1, start + 1)]]
  {
    hide Reachable, Append, InsertNext;
    var s1 := Reach(s0, 2, start, 1, false);
    WriteOne(s0, 1, start + 1);
    assert s1.wals == [[Rec(0, start), Rec(1, start + 1)], []] by {
      assert [Rec(0, start)] + [Rec(1, start + 1)] == [Rec(0, start), Rec(1, start + 1)];
    }
    assert s1.pc == [MemRelease, WalRelease];
    var s2 := Reach(s1, 2, start, 1, false);
    assert s2.pc == [MemRelease, MemCheck];
    var s3 := Reach(s2, 2, start, 0, false);
    assert s3.pc == [Finishing(0), MemCheck] && s3.sync.ticketToMem == 1;
    var s4 := Reach(s3, 2, start, 1, false);
    s := Reach(s4, 2, start, 1, false);
    InsertOne(s4, 1, start + 1, false);
    assert s.mems == [[Rec(0, start)], [Rec(1, start + 1)]] by {
      assert [] + [Rec(1, start + 1)] == [Rec(1, start + 1)];
    }
  }

  /** A WAL failure does strand a leader: the first ticket's holder waits while the second group fails. */
  lemma FailureStrandsALeader(start: nat) returns (s: State)
    ensures Reachable(s, 2, start) && Shape(s) && |s.pc| == 2 && s.pc[0].MemCheck? && s.pc[1].WalAppend?
    ensures Shape(Abort(s, 1)) && Stuck(ReleaseTicket(Abort(s, 1), 1), 0)
  {
    hide Reachable;
    ReachTwoInFlight(start);
    s := TwoInFlight(start, MemCheck);
    assert s.pc[0].MemCheck? && |s.pc| == 2;
  }

  /** Arrival order across groups is not kept: a later group may win the race for the WAL. */
  lemma ArrivalOrderIsNotKept(start: nat) returns (s: State)
    ensures Reachable(s, 2, start) && |s.pc| == |s.group| == 2 && s.pc[0].Marking? && s.group[0] == [0]
    ensures s.order == [1] && s.log == [Rec(1, start)]
  {
    hide Reachable;
    var s0 := Init(2, start);
    ReachInit(2, start);
    JoinAlone(s0, 2, start, 0);
    var s1 := Alone(s0, 0, Marking(0), Empty, [0]);
    ReachWal(s1, 2, start, 1);
    s := AtWal(s1, 1);
  }
}
