/** What the write protocol guarantees over whole runs. */
module PipelineTheorems {
  import opened Codec
  import opened WritePipeline
  import opened PipelineProofs

  ghost predicate Next(s: State, s': State) {
    Shape(s) && exists w, full :: StepsTo(s, w, full, s')
  }

  predicate StepsTo(s: State, w: nat, full: bool, s': State)
    requires Shape(s)
  {
    || (CanStep(s, w) && s' == Step(s, w, full))
    || (w < |s.pc| && s' == SpuriousWake(s, w))
  }

  /** Any interleaving of any number of writers, spurious wake-ups included. */
  ghost predicate IsRun(run: seq<State>, n: nat, start: nat) {
    run != [] && run[0] == Init(n, start) && forall i :: 0 <= i < |run| - 1 ==> Next(run[i], run[i + 1])
  }

  lemma {:induction false} RunKeepsInv(run: seq<State>, n: nat, start: nat, i: nat)
    requires IsRun(run, n, start) && i < |run|
    ensures Inv(run[i])
  {
    hide Inv, Step, Init, SpuriousWake, Shape;
    if i == 0 {
      InitInv(n, start);
    } else {
      RunKeepsInv(run, n, start, i - 1);
      assert Next(run[i - 1], run[i]);
      NextKeepsInv(run[i - 1], run[i]);
    }
  }

  lemma NextKeepsInv(s: State, s': State)
    requires Inv(s) && Next(s, s')
    ensures Inv(s')
  {
    hide MemberInv, QueueInv, GroupInv, WalInv, TicketInv, LogInv, StoreInv, Step, SpuriousWake;
    var w, full :| StepsTo(s, w, full, s');
    if CanStep(s, w) && s' == Step(s, w, full) {
      StepKeeps(s, w, full);
    } else {
      WakeKeeps(s, w);
    }
  }

  // --- Stage exclusion and log order ---

  /** The WAL stage and the memtable stage each hold at most one leader. */
  lemma StagesAreExclusive(s: State, a: nat, b: nat)
    requires Inv(s) && a < |s.pc| && b < |s.pc|
    ensures InWal(s.pc[a]) && InWal(s.pc[b]) ==> a == b
    ensures InMem(s.pc[a]) && InMem(s.pc[b]) ==> a == b
  {
    hide MemberInv, QueueInv, GroupInv, LogInv, StoreInv;
    assert WalKinds(s.pc)[a] == WalKindOf(s.pc[a]) && WalKinds(s.pc)[b] == WalKindOf(s.pc[b]);
    assert Kinds(s)[a] == KindOf(s.pc[a], s.group[a] != []) && Kinds(s)[b] == KindOf(s.pc[b], s.group[b] != []);
    hide Kinds, WalKinds;
  }

  lemma {:induction false} CutsAreMonotone(s: State, t: nat, u: nat)
    requires Shape(s) && LogInv(s) && t <= u < |s.cuts|
    ensures s.cuts[t] <= s.cuts[u] <= |s.log|
    decreases u - t
  {
    hide Logged;
    CutsWithin(s.start, s.log, s.cuts, s.order, s.ticket, s.head, s.pos, s.group, u);
    if t < u {
      CutOf(s, t);
      CutsAreMonotone(s, t + 1, u);
    }
  }

  lemma CutEndBound(s: State, t: nat, u: nat)
    requires Shape(s) && LogInv(s) && t < u < |s.cuts|
    ensures CutEnd(s.cuts, s.log, t) <= s.cuts[u]
  {
    hide LogInv;
    CutsAreMonotone(s, t + 1, u);
  }

  /** The log is the groups concatenated in ticket order, one record per member in queue order,
      with consecutive LSNs. */
  lemma LogIsGroupsInTicketOrder(s: State, t: nat)
    requires Inv(s) && t < s.sync.nextTicket
    ensures s.order[t] < |s.pc| && s.ticket[s.order[t]] == t
    ensures var g := s.group[s.order[t]];
            && s.cuts[t] + |g| == (if t + 1 < s.sync.nextTicket then s.cuts[t + 1] else |s.log|) <= |s.log|
            && s.log[s.cuts[t]..s.cuts[t] + |g|] == Batch(g, s.start + s.cuts[t])
    ensures s.cuts[0] == 0
  {
    hide MemberInv, QueueInv, GroupInv, WalInv, StoreInv, Logged;
    TicketHolder(s, t);
    FirstCut(s);
    CutOf(s, t);
    hide TicketInv, LogInv;
    SegmentIsBatch(s, t);
  }

  lemma TicketHolder(s: State, t: nat)
    requires Shape(s) && TicketInv(s) && t < |s.order|
    ensures s.order[t] < |s.pc| && s.ticket[s.order[t]] == t
  {
    hide Kinds;
  }

  lemma FirstCut(s: State)
    requires Shape(s) && LogInv(s) && s.cuts != []
    ensures s.cuts[0] == 0
  {
    hide RecordAt, CutEnd;
  }

  /** Records applied to memtables are a prefix of those appended to the WAL, which are a prefix of the log. */
  lemma AppliedIsPrefix(s: State)
    requires Inv(s)
    ensures Flatten(s.mems) <= Flatten(s.wals) <= s.log
    ensures forall k :: 0 <= k < |s.log| ==> s.log[k].lsn == s.start + k
  {
    hide QueueInv, GroupInv, WalInv;
    AppliedBound(s);
    forall k | 0 <= k < |s.log| ensures s.log[k].lsn == s.start + k {
      assert RecordAt(s.start, s.log, s.cuts, s.order, s.ticket, s.head, s.pos, s.group, k);
    }
    hide MemberInv, TicketInv, LogInv, AppendPos, ApplyPos, Flatten;
  }

  predicate Flying(s: State)
    requires Shape(s)
  {
    s.owner.Some? && s.owner.value < |s.pc| && (s.pc[s.owner.value].WalLoad? || s.pc[s.owner.value].WalAppend?)
  }

  /** Between choosing its records and writing them, the last ticket's holder is the only one behind. */
  lemma FlightFacts(s: State)
    requires Shape(s) && TicketInv(s)
    requires AppendPos(WalKinds(s.pc), s.owner, s.order, s.cuts, |s.log|, s.wals, s.appended)
    ensures !Flying(s) ==> s.appended == |s.log|
    ensures Flying(s) ==>
              var last := |s.order| - 1;
              && last >= 0 && s.sync.ticketToMem <= last && s.order[last] == s.owner.value
              && s.appended == s.cuts[last] && Inserted(s)[s.owner.value] == 0
  {
    if s.owner.Some? && s.owner.value < |s.pc| {
      var o := s.owner.value;
      assert WalKinds(s.pc)[o] == WalKindOf(s.pc[o]);
      assert Kinds(s)[o] == KindOf(s.pc[o], s.group[o] != []);
      hide WalKinds, Kinds;
    }
  }

  lemma AppliedBound(s: State)
    requires Inv(s)
    ensures s.applied <= s.appended <= |s.log|
  {
    hide QueueInv, GroupInv, WalInv, Flatten, AppendPos, Inserted, LogInv, Tickets, Placed;
    FlightFacts(s);
    var t := s.sync.ticketToMem;
    if Flying(s) {
      var last := |s.order| - 1;
      if t < last {
        HolderBound(s, t);
        CutEndBound(s, t, last);
      }
    }
  }

  lemma HolderBound(s: State, t: nat)
    requires Shape(s) && MemberInv(s) && LogInv(s) && TicketInv(s) && t == s.sync.ticketToMem < |s.order|
    requires ApplyPos(Inserted(s), s.order, s.cuts, t, |s.log|, s.applied)
    ensures s.applied <= CutEnd(s.cuts, s.log, t)
  {
    hide Placed;
    CutOf(s, t);
    var l := s.order[t];
    assert Inserted(s)[l] == InsertedBy(s.pc[l], |s.group[l]|) <= |s.group[l]|;
  }

  // --- Linearization ---

  /** A request has at most one record, hence one LSN. */
  lemma OneRecordEach(s: State, j: nat, k: nat)
    requires Inv(s) && j < |s.log| && k < |s.log| && s.log[j].writer == s.log[k].writer
    ensures j == k
  {
    hide MemberInv, QueueInv, GroupInv, WalInv, TicketInv, StoreInv;
    assert RecordAt(s.start, s.log, s.cuts, s.order, s.ticket, s.head, s.pos, s.group, j);
    assert RecordAt(s.start, s.log, s.cuts, s.order, s.ticket, s.head, s.pos, s.group, k);
  }

  /** The leader of a writer that has returned is past the memtable stage. */
  lemma ReturnedIsCommitted(s: State, w: nat)
    requires Inv(s) && w < |s.pc| && s.pc[w].Done?
    ensures var h := s.head[w];
            && h < |s.pc| && s.ticket[h] < s.sync.ticketToMem <= |s.order| && s.order[s.ticket[h]] == h
            && s.pos[w] < |s.group[h]| && s.group[h][s.pos[w]] == w && s.pc[w].lsn == CommittedLsn(s, h)
  {
    hide QueueInv, GroupInv, WalInv, LogInv, StoreInv, BaseLsn;
    assert Placed(s, w);
    assert Kinds(s)[s.head[w]] == After;
  }

  /** Ok, as leader or follower, means the write is in the WAL and in a memtable. */
  lemma OkMeansStored(s: State, w: nat) returns (k: nat)
    requires Inv(s) && w < |s.pc| && s.pc[w].Done?
    ensures k < |Flatten(s.mems)| && k < |Flatten(s.wals)|
    ensures Flatten(s.mems)[k] == Flatten(s.wals)[k] == Rec(w, s.start + k) == s.log[k]
  {
    hide MemberInv, QueueInv, GroupInv, WalInv, BaseLsn;
    ReturnedIsCommitted(s, w);
    AppliedBound(s);
    var h := s.head[w];
    var t := s.ticket[h];
    k := s.cuts[t] + s.pos[w];
    RecordOf(s.start, s.log, s.cuts, s.order, s.ticket, s.head, s.pos, s.group, t, s.pos[w]);
    CutOf(s, t);
    if s.sync.ticketToMem < |s.order| {
      CutEndBound(s, t, s.sync.ticketToMem);
    }
    hide LogInv, TicketInv, AppendPos, Flatten;
  }

  /** A put returns its leader's base LSN, so the LSN it reports is its own exactly when it led its group. */
  lemma ReportedLsnIsOwnIffFirst(s: State, w: nat, k: nat)
    requires Inv(s) && w < |s.pc| && s.pc[w].Done? && k < |s.log| && s.log[k].writer == w
    ensures s.pc[w].lsn == s.log[k].lsn <==> s.head[w] == w
  {
    hide MemberInv, QueueInv, GroupInv, WalInv, TicketInv, LogInv, StoreInv;
    ReturnedIsCommitted(s, w);
    RecordLsn(s, k);
    GroupStartsWithLeader(s, s.head[w]);
  }

  lemma RecordLsn(s: State, k: nat)
    requires Shape(s) && LogInv(s) && k < |s.log|
    ensures var w := s.log[k].writer;
            && w < |s.pc| && s.head[w] < |s.pc| && s.ticket[s.head[w]] < |s.cuts|
            && s.log[k].lsn == s.start + s.cuts[s.ticket[s.head[w]]] + s.pos[w]
  {
    assert RecordAt(s.start, s.log, s.cuts, s.order, s.ticket, s.head, s.pos, s.group, k);
  }

  /** A group's first member is its leader. */
  lemma GroupStartsWithLeader(s: State, l: nat)
    requires Inv(s) && l < |s.pc| && s.group[l] != []
    ensures s.head[l] == l && s.pos[l] == 0 && s.group[l][0] == l
  {
    hide WalInv, TicketInv, LogInv, StoreInv, BaseLsn;
    var m := s.group[l][0];
    assert s.head[m] == l && s.pos[m] == 0;
    assert !s.pc[l].Start?;
    assert Placed(s, l);
  }
}
