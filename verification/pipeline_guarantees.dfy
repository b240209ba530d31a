/** What the write protocol guarantees its callers, over every interleaving of any number of writers. */
module PipelineGuarantees {
  import opened Codec
  import opened WritePipeline
  import opened PipelineTheorems
  import opened PipelineProgress

  /** Never two leaders in the WAL stage, never two in the memtable stage. */
  lemma StageExclusion(run: seq<State>, n: nat, start: nat, i: nat, a: nat, b: nat)
    requires IsRun(run, n, start) && i < |run| && a < |run[i].pc| && b < |run[i].pc|
    ensures InWal(run[i].pc[a]) && InWal(run[i].pc[b]) ==> a == b
    ensures InMem(run[i].pc[a]) && InMem(run[i].pc[b]) ==> a == b
  {
    hide Inv, IsRun;
    RunKeepsInv(run, n, start, i);
    StagesAreExclusive(run[i], a, b);
  }

  /** The log is the groups concatenated in ticket order, members in queue order, LSNs consecutive. */
  lemma LogOrder(run: seq<State>, n: nat, start: nat, i: nat, t: nat)
    requires IsRun(run, n, start) && i < |run| && t < run[i].sync.nextTicket
    ensures Shape(run[i]) && run[i].order[t] < |run[i].pc|
    ensures var s := run[i];
            var g := s.group[s.order[t]];
            && s.cuts[0] == 0
            && s.cuts[t] + |g| == (if t + 1 < s.sync.nextTicket then s.cuts[t + 1] else |s.log|) <= |s.log|
            && s.log[s.cuts[t]..s.cuts[t] + |g|] == Batch(g, s.start + s.cuts[t])
  {
    hide Inv, IsRun;
    RunKeepsInv(run, n, start, i);
    InvShape(run[i]);
    LogIsGroupsInTicketOrder(run[i], t);
  }

  /** Memtables hold a prefix of what the WALs hold, the WALs a prefix of the log. */
  lemma StoredPrefixes(run: seq<State>, n: nat, start: nat, i: nat)
    requires IsRun(run, n, start) && i < |run|
    ensures Flatten(run[i].mems) <= Flatten(run[i].wals) <= run[i].log
    ensures forall k :: 0 <= k < |run[i].log| ==> run[i].log[k].lsn == run[i].start + k
  {
    hide Inv, IsRun, Flatten;
    RunKeepsInv(run, n, start, i);
    AppliedIsPrefix(run[i]);
  }

  /** A request has one LSN at most. */
  lemma OneLsnEach(run: seq<State>, n: nat, start: nat, i: nat, j: nat, k: nat)
    requires IsRun(run, n, start) && i < |run| && j < |run[i].log| && k < |run[i].log|
    requires run[i].log[j].writer == run[i].log[k].writer
    ensures j == k
  {
    hide Inv, IsRun;
    RunKeepsInv(run, n, start, i);
    OneRecordEach(run[i], j, k);
  }

  /** Ok means stored: the write is in a WAL and in a memtable, under one LSN. */
  lemma Acknowledged(run: seq<State>, n: nat, start: nat, i: nat, w: nat) returns (k: nat)
    requires IsRun(run, n, start) && i < |run| && w < |run[i].pc| && run[i].pc[w].Done?
    ensures k < |Flatten(run[i].mems)| && k < |Flatten(run[i].wals)|
    ensures Flatten(run[i].mems)[k] == Flatten(run[i].wals)[k] == Rec(w, run[i].start + k)
  {
    hide Inv, IsRun, Flatten;
    RunKeepsInv(run, n, start, i);
    k := OkMeansStored(run[i], w);
  }

  /** The LSN a put reports is its own record's exactly when it led its group. */
  lemma ReportedLsn(run: seq<State>, n: nat, start: nat, i: nat, w: nat, k: nat)
    requires IsRun(run, n, start) && i < |run| && w < |run[i].pc| && run[i].pc[w].Done?
    requires k < |run[i].log| && run[i].log[k].writer == w
    ensures Shape(run[i]) && (run[i].pc[w].lsn == run[i].log[k].lsn <==> run[i].head[w] == w)
  {
    hide Inv, IsRun;
    RunKeepsInv(run, n, start, i);
    InvShape(run[i]);
    ReportedLsnIsOwnIffFirst(run[i], w, k);
  }

  /** While a put is unfinished someone can step; the head of a non-empty queue has not gone to sleep. */
  lemma Progress(run: seq<State>, n: nat, start: nat, i: nat, w: nat) returns (v: nat)
    requires IsRun(run, n, start) && i < |run| && w < |run[i].pc| && !run[i].pc[w].Done?
    ensures CanStep(run[i], v)
    ensures run[i].sync.queue != [] ==> CanStep(run[i], run[i].sync.queue[0])
  {
    hide Inv, IsRun;
    RunKeepsInv(run, n, start, i);
    v := NoDeadlock(run[i], w);
    if run[i].sync.queue != [] {
      var head := QueueHeadIsAwake(run[i]);
    }
  }
}
