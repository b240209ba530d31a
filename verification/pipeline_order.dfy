/** The order of groups: decided by who takes the WAL first, not by who forms a group first. */
module PipelineOrder {
  import opened Codec
  import opened WritePipeline
  import opened PipelineProofs
  import opened PipelineTheorems
  import opened PipelineProgress
  import opened PipelineFaults

  /** Step i of the run is a's taking of the WAL. */
  predicate TakesWal(run: seq<State>, i: nat, a: nat) {
    && i < |run| - 1 && a < |run[i].pc| == |run[i + 1].pc|
    && run[i].pc[a].WalCheck? && run[i + 1].pc[a].WalDraw?
  }

  /** a leads a group and has taken the WAL. */
  predicate HasTaken(s: State, a: nat) {
    && a < |s.pc| && a < |s.group| && s.group[a] != []
    && (s.pc[a].WalDraw? || Ticketed(s.pc[a]) || s.pc[a].Finishing? || s.pc[a].Done?)
  }

  lemma TakenStays(s: State, w: nat, full: bool, a: nat)
    requires Shape(s) && CanStep(s, w) && HasTaken(s, a)
    ensures HasTaken(Step(s, w, full), a)
  {
    if a != w {
      OtherStays(s, w, full, a);
      OtherGroup(s, w, full, a);
    } else {
      hide BaseLsn, Batch;
    }
  }

  lemma OrderExtends(s: State, w: nat, full: bool)
    requires Shape(s) && CanStep(s, w)
    ensures s.order <= Step(s, w, full).order
  {
    hide BaseLsn, Batch, Shape;
  }

  lemma NextOrder(s: State, s': State)
    requires Inv(s) && Next(s, s')
    ensures s.order <= s'.order && |s'.pc| == |s.pc|
    ensures forall a: nat :: HasTaken(s, a) ==> HasTaken(s', a)
  {
    hide Inv, Step, HasTaken;
    var w: nat, full: bool :| StepsTo(s, w, full, s');
    if CanStep(s, w) && s' == Step(s, w, full) {
      OrderExtends(s, w, full);
      StepExtends(s, w, full);
      forall a: nat | HasTaken(s, a) ensures HasTaken(s', a) {
        TakenStays(s, w, full, a);
      }
    } else {
      forall a: nat | HasTaken(s, a) ensures HasTaken(s', a) {
        TakenWakes(s, w, a);
      }
    }
  }

  lemma TakenWakes(s: State, w: nat, a: nat)
    requires w < |s.pc| && HasTaken(s, a)
    ensures HasTaken(SpuriousWake(s, w), a)
  {}

  lemma {:induction false} RunOrder(run: seq<State>, n: nat, start: nat, i: nat, j: nat)
    requires IsRun(run, n, start) && i <= j < |run|
    ensures Inv(run[j]) && run[i].order <= run[j].order && |run[j].pc| == |run[i].pc|
    ensures forall a: nat :: HasTaken(run[i], a) ==> HasTaken(run[j], a)
  {
    hide Inv, Next, Init, HasTaken;
    RunKeepsInv(run, n, start, j);
    if i < j {
      RunOrder(run, n, start, i, j - 1);
      assert Next(run[j - 1], run[j - 1 + 1]);
      NextOrder(run[j - 1], run[j]);
    }
  }

  /** Whoever takes the WAL finds it free; its ticket is still to come. */
  lemma TakerFindsFree(s: State, s': State, b: nat)
    requires Inv(s) && Next(s, s') && b < |s.pc| == |s'.pc| && s.pc[b].WalCheck? && s'.pc[b].WalDraw?
    ensures !s.sync.walBusy && Shape(s) && forall t :: 0 <= t < |s.order| ==> s.order[t] != b
  {
    hide MemberInv, QueueInv, GroupInv, WalInv, LogInv, StoreInv;
    assert Kinds(s)[b] == Before;
    hide Kinds;
    var w: nat, full: bool :| StepsTo(s, w, full, s');
    if CanStep(s, w) && s' == Step(s, w, full) {
      hide Step;
      if w != b {
        OtherStays(s, w, full, b);
      }
      assert w == b;
      TakesOnlyFree(s, w, full);
    }
  }

  lemma TakesOnlyFree(s: State, w: nat, full: bool)
    requires Shape(s) && CanStep(s, w) && s.pc[w].WalCheck?
    ensures Step(s, w, full).pc[w].WalDraw? ==> !s.sync.walBusy
  {}

  /** A leader that has taken the WAL and is not using it holds a ticket. */
  lemma TakenIsOrdered(s: State, a: nat)
    requires Inv(s) && HasTaken(s, a) && !s.sync.walBusy
    ensures Shape(s) && s.ticket[a] < |s.order| && s.order[s.ticket[a]] == a
  {
    hide MemberInv, QueueInv, GroupInv, LogInv, StoreInv;
    assert WalKinds(s.pc)[a] == WalKindOf(s.pc[a]);
    assert Kinds(s)[a] == KindOf(s.pc[a], true);
    hide Kinds, WalKinds;
  }

  /** The leader that takes the WAL first draws the lower ticket. */
  lemma EarlierTakesFirst(run: seq<State>, n: nat, start: nat, i: nat, j: nat, k: nat, a: nat, b: nat)
    requires IsRun(run, n, start) && TakesWal(run, i, a) && TakesWal(run, j, b) && i < j && k < |run|
    requires Shape(run[k]) && a < |run[k].pc| && b < |run[k].pc|
    requires run[k].ticket[a] < |run[k].order| && run[k].order[run[k].ticket[a]] == a
    requires run[k].ticket[b] < |run[k].order| && run[k].order[run[k].ticket[b]] == b
    ensures run[k].ticket[a] < run[k].ticket[b]
  {
    hide Inv, Next, Init, HasTaken;
    RunKeepsInv(run, n, start, i);
    RunKeepsInv(run, n, start, i + 1);
    TookIt(run[i + 1], a);
    RunOrder(run, n, start, i + 1, j);
    assert Next(run[j], run[j + 1]);
    TakerFindsFree(run[j], run[j + 1], b);
    TakenIsOrdered(run[j], a);
    RunKeepsInv(run, n, start, k);
    if k < j {
      RunOrder(run, n, start, k, j);
      assert false;
    } else {
      RunOrder(run, n, start, j, k);
      var t := run[j].ticket[a];
      assert run[k].order[t] == a;
      OrderHolders(run[k], t);
      assert run[k].ticket[b] >= |run[j].order|;
    }
  }

  lemma OrderHolders(s: State, t: nat)
    requires Inv(s) && t < |s.order|
    ensures Shape(s) && s.order[t] < |s.pc| && s.ticket[s.order[t]] == t
  {
    hide MemberInv, QueueInv, GroupInv, WalInv, LogInv, StoreInv;
    TicketHolder(s, t);
  }

  lemma TookIt(s: State, a: nat)
    requires Inv(s) && a < |s.pc| && s.pc[a].WalDraw?
    ensures HasTaken(s, a)
  {
    hide QueueInv, GroupInv, WalInv, TicketInv, LogInv, StoreInv, Placed;
  }

  /** Records of an earlier ticket come first. */
  lemma TicketOrdersRecords(s: State, k: nat, l: nat)
    requires Inv(s) && k < |s.log| && l < |s.log|
    requires Shape(s) && s.log[k].writer < |s.pc| && s.log[l].writer < |s.pc|
    requires s.head[s.log[k].writer] < |s.pc| && s.head[s.log[l].writer] < |s.pc|
    requires s.ticket[s.head[s.log[k].writer]] < s.ticket[s.head[s.log[l].writer]]
    ensures k < l
  {
    hide MemberInv, QueueInv, GroupInv, WalInv, TicketInv, StoreInv;
    var t, u := s.ticket[s.head[s.log[k].writer]], s.ticket[s.head[s.log[l].writer]];
    assert RecordAt(s.start, s.log, s.cuts, s.order, s.ticket, s.head, s.pos, s.group, k);
    assert RecordAt(s.start, s.log, s.cuts, s.order, s.ticket, s.head, s.pos, s.group, l);
    CutOf(s, t);
    CutEndBound(s, t, u);
  }

  lemma RecordHolder(s: State, k: nat)
    requires Inv(s) && k < |s.log|
    ensures Shape(s) && s.log[k].writer < |s.pc| && s.head[s.log[k].writer] < |s.pc| && s.log[k].lsn == s.start + k
    ensures var h := s.head[s.log[k].writer]; s.ticket[h] < |s.order| && s.order[s.ticket[h]] == h
  {
    hide MemberInv, QueueInv, GroupInv, WalInv, TicketInv, StoreInv;
    assert RecordAt(s.start, s.log, s.cuts, s.order, s.ticket, s.head, s.pos, s.group, k);
  }

  /** Of two groups, the one whose leader took the WAL first has the smaller LSNs, whichever was formed first. */
  lemma LsnOrderIsWalOrder(run: seq<State>, n: nat, start: nat, i: nat, j: nat, m: nat, a: nat, b: nat, k: nat, l: nat)
    requires IsRun(run, n, start) && TakesWal(run, i, a) && TakesWal(run, j, b) && a != b && m < |run|
    requires k < |run[m].log| && l < |run[m].log|
    requires run[m].log[k].writer < |run[m].head| && run[m].head[run[m].log[k].writer] == a
    requires run[m].log[l].writer < |run[m].head| && run[m].head[run[m].log[l].writer] == b
    ensures run[m].log[k].lsn < run[m].log[l].lsn <==> i < j
  {
    hide Inv, IsRun, TakesWal;
    var s := run[m];
    RunKeepsInv(run, n, start, m);
    RecordHolder(s, k);
    RecordHolder(s, l);
    OneTaker(run, n, start, i, j, a, b);
    if i < j {
      EarlierTakesFirst(run, n, start, i, j, m, a, b);
      TicketOrdersRecords(s, k, l);
    } else {
      EarlierTakesFirst(run, n, start, j, i, m, b, a);
      TicketOrdersRecords(s, l, k);
    }
  }

  lemma OneTaker(run: seq<State>, n: nat, start: nat, i: nat, j: nat, a: nat, b: nat)
    requires IsRun(run, n, start) && TakesWal(run, i, a) && TakesWal(run, j, b) && a != b
    ensures i != j
  {
    hide Inv, Next, Init;
    RunKeepsInv(run, n, start, i + 1);
    if i == j {
      StagesAreExclusive(run[i + 1], a, b);
      assert false;
    }
  }
}
