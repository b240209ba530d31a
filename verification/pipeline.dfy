/** The group-commit write protocol as a state machine. Each put is one writer; a step is one critical
    section, one sleep or one wake-up. A run interleaves the steps of any number of writers freely. */
module WritePipeline {
  import opened Codec

  /** A completion slot: empty, told to follow, or told the group is written. */
  datatype Slot = Empty | ToldFollow | ToldDone(lsn: nat)

  /** Where a writer stands between two critical sections. */
  datatype Pc =
    | Start
    | SeekCheck | SeekFront | SeekWait | SeekAsleep
    | Marking(next: nat)
    | WalCheck | WalAsleep | WalDraw | WalLoad | WalAppend(file: nat) | WalRelease
    | MemCheck | MemAsleep | MemInsert(next: nat) | MemRotate | MemRelease
    | Finishing(next: nat)
    | FollowCheck | FollowAsleep
    | Done(lsn: nat)

  /** A record of the log: whose write, under which LSN. */
  datatype Rec = Rec(writer: nat, lsn: nat)

  /** The fields guarded by the write lock. */
  datatype Sync = Sync(queue: seq<nat>, walBusy: bool, ticketToMem: nat, nextTicket: nat, nextLsn: nat)

  datatype State = State(
    sync: Sync,
    pc: seq<Pc>, slot: seq<Slot>, group: seq<seq<nat>>, ticket: seq<nat>,
    wals: seq<seq<Rec>>, mems: seq<seq<Rec>>,
    // History, read by no step: the future leader and queue position of each writer, the WAL stage's
    // occupant, the leaders in ticket order with their offsets in the log of all issued records, and
    // how much of that log has reached the WAL and the memtables.
    start: nat, head: seq<nat>, pos: seq<nat>, owner: Option<nat>,
    order: seq<nat>, cuts: seq<nat>, log: seq<Rec>, appended: nat, applied: nat)

  predicate Seeking(p: Pc) { p.SeekCheck? || p.SeekFront? || p.SeekWait? || p.SeekAsleep? }

  predicate InWal(p: Pc) { p.WalDraw? || p.WalLoad? || p.WalAppend? || p.WalRelease? }

  predicate InMem(p: Pc) { p.MemInsert? || p.MemRotate? || p.MemRelease? }

  /** Holds a memtable ticket not yet released. */
  predicate Ticketed(p: Pc) {
    p.WalLoad? || p.WalAppend? || p.WalRelease? || p.MemCheck? || p.MemAsleep? || InMem(p)
  }

  predicate Leading(p: Pc) {
    p.Marking? || p.WalCheck? || p.WalAsleep? || p.WalDraw? || Ticketed(p) || p.Finishing?
  }

  predicate Asleep(p: Pc) { p.SeekAsleep? || p.WalAsleep? || p.MemAsleep? || p.FollowAsleep? }

  // --- Steps ---

  function Init(n: nat, start: nat): State {
    State(Sync([], false, 0, 0, start),
          seq(n, _ => Start), seq(n, _ => Empty), seq(n, _ => []), seq(n, _ => 0), [[]], [[]],
          start, seq(n, _ => 0), seq(n, _ => 0), None, [], [], [], 0, 0)
  }

  predicate Shape(s: State) {
    var n := |s.pc|;
    && |s.slot| == n && |s.group| == n && |s.ticket| == n && |s.head| == n && |s.pos| == n
    && |s.wals| == |s.mems| > 0
    && |s.order| == |s.cuts| == s.sync.nextTicket
    && s.sync.nextLsn == s.start + |s.log|
  }

  /** A notified sleeper goes back to its check. */
  function Woken(p: Pc): Pc {
    match p
    case SeekAsleep => SeekCheck
    case WalAsleep => WalCheck
    case MemAsleep => MemCheck
    case FollowAsleep => FollowCheck
    case _ => p
  }

  /** `notify_all` on one writer's completion condition. */
  function Notify(pc: seq<Pc>, w: nat): seq<Pc>
    requires w < |pc|
  {
    pc[w := Woken(pc[w])]
  }

  function WakeWal(pc: seq<Pc>): (r: seq<Pc>)
    ensures |r| == |pc|
  {
    seq(|pc|, i requires 0 <= i < |pc| => if pc[i].WalAsleep? then WalCheck else pc[i])
  }

  function WakeMem(pc: seq<Pc>): (r: seq<Pc>)
    ensures |r| == |pc|
  {
    seq(|pc|, i requires 0 <= i < |pc| => if pc[i].MemAsleep? then MemCheck else pc[i])
  }

  function Batch(members: seq<nat>, lsn: nat): (r: seq<Rec>)
    ensures |r| == |members|
  {
    seq(|members|, i requires 0 <= i < |members| => Rec(members[i], lsn + i))
  }

  /** The LSN a leader committed its group under: that of the group's first record. */
  function CommittedLsn(s: State, l: nat): nat
    requires l < |s.ticket|
  {
    BaseLsn(s.start, s.cuts, s.ticket[l])
  }

  function BaseLsn(start: nat, cuts: seq<nat>, ticket: nat): nat {
    if ticket < |cuts| then start + cuts[ticket] else 0
  }

  predicate CanStep(s: State, w: nat) {
    w < |s.pc| && !Asleep(s.pc[w]) && !s.pc[w].Done?
  }

  function Push(s: State, w: nat): State
    requires Shape(s) && w < |s.pc|
  {
    var q := s.sync.queue;
    s.(sync := s.sync.(queue := q + [w]), pc := s.pc[w := SeekCheck],
       head := s.head[w := if q == [] then w else q[0]], pos := s.pos[w := |q|])
  }

  function Check(s: State, w: nat): State
    requires Shape(s) && w < |s.pc|
  {
    match s.slot[w]
    case Empty => s.(pc := s.pc[w := SeekFront])
    case ToldFollow => s.(slot := s.slot[w := Empty], pc := s.pc[w := FollowCheck])
    case ToldDone(lsn) => s.(slot := s.slot[w := Empty], pc := s.pc[w := Done(lsn)])
  }

  /** The head of the queue drains it and leads; any other writer goes to wait. */
  function Front(s: State, w: nat): State
    requires Shape(s) && w < |s.pc|
  {
    var q := s.sync.queue;
    if q != [] && q[0] == w then
      s.(sync := s.sync.(queue := []), group := s.group[w := q], pc := s.pc[w := Marking(0)])
    else s.(pc := s.pc[w := SeekWait])
  }

  /** Under the completion lock: sleep if there is still nothing to see. */
  function Wait(s: State, w: nat): State
    requires Shape(s) && w < |s.pc|
  {
    s.(pc := s.pc[w := if s.slot[w].Empty? then SeekAsleep else SeekCheck])
  }

  function MarkNext(s: State, w: nat): State
    requires Shape(s) && w < |s.pc| && s.pc[w].Marking?
  {
    var k := s.pc[w].next;
    if k < |s.group[w]| && s.group[w][k] < |s.pc| then
      var m := s.group[w][k];
      s.(slot := s.slot[m := ToldFollow], pc := Notify(s.pc, m)[w := Marking(k + 1)])
    else s.(pc := s.pc[w := WalCheck])
  }

  function TakeWal(s: State, w: nat): State
    requires Shape(s) && w < |s.pc|
  {
    if s.sync.walBusy then s.(pc := s.pc[w := WalAsleep])
    else s.(sync := s.sync.(walBusy := true), owner := Some(w), pc := s.pc[w := WalDraw])
  }

  /** Draws the memtable ticket and the group's LSN range in one critical section. */
  function Draw(s: State, w: nat): State
    requires Shape(s) && w < |s.pc|
  {
    var g := s.group[w];
    s.(sync := s.sync.(nextTicket := s.sync.nextTicket + 1, nextLsn := s.sync.nextLsn + |g|),
       ticket := s.ticket[w := s.sync.nextTicket], pc := s.pc[w := WalLoad],
       order := s.order + [w], cuts := s.cuts + [|s.log|], log := s.log + Batch(g, s.sync.nextLsn))
  }

  /** Loads the current version: from here on this is the WAL that will be written. */
  function LoadWal(s: State, w: nat): State
    requires Shape(s) && w < |s.pc|
  {
    s.(pc := s.pc[w := WalAppend(|s.wals| - 1)])
  }

  function Append(s: State, w: nat): State
    requires Shape(s) && w < |s.pc| && s.pc[w].WalAppend?
  {
    var f := s.pc[w].file;
    if f < |s.wals| then
      s.(wals := s.wals[f := s.wals[f] + Batch(s.group[w], CommittedLsn(s, w))],
         appended := s.appended + |s.group[w]|, pc := s.pc[w := WalRelease])
    else s
  }

  function ReleaseWal(s: State, w: nat): State
    requires Shape(s) && w < |s.pc|
  {
    s.(sync := s.sync.(walBusy := false), owner := None, pc := WakeWal(s.pc)[w := MemCheck])
  }

  function EnterMem(s: State, w: nat): State
    requires Shape(s) && w < |s.pc|
  {
    s.(pc := s.pc[w := if s.sync.ticketToMem == s.ticket[w] then MemInsert(0) else MemAsleep])
  }

  /** Inserts one request into the mutable memtable; after the last, `full` says whether to rotate. */
  function InsertNext(s: State, w: nat, full: bool): State
    requires Shape(s) && w < |s.pc| && s.pc[w].MemInsert?
  {
    var k, last := s.pc[w].next, |s.mems| - 1;
    if k < |s.group[w]| then
      s.(mems := s.mems[last := s.mems[last] + [Rec(s.group[w][k], CommittedLsn(s, w) + k)]],
         applied := s.applied + 1, pc := s.pc[w := MemInsert(k + 1)])
    else s.(pc := s.pc[w := if full then MemRotate else MemRelease])
  }

  /** Another WAL, to whatever file its id leads (WalFiles), and a fresh memtable. */
  function Rotate(s: State, w: nat): State
    requires Shape(s) && w < |s.pc|
  {
    s.(wals := s.wals + [[]], mems := s.mems + [[]], pc := s.pc[w := MemRelease])
  }

  function ReleaseTicket(s: State, w: nat): State
    requires Shape(s) && w < |s.pc|
  {
    s.(sync := s.sync.(ticketToMem := s.sync.ticketToMem + 1), pc := WakeMem(s.pc)[w := Finishing(0)])
  }

  function FinishNext(s: State, w: nat): State
    requires Shape(s) && w < |s.pc| && s.pc[w].Finishing?
  {
    var k := s.pc[w].next;
    if k < |s.group[w]| && s.group[w][k] < |s.pc| then
      var m := s.group[w][k];
      s.(slot := s.slot[m := ToldDone(CommittedLsn(s, w))], pc := Notify(s.pc, m)[w := Finishing(k + 1)])
    else s.(pc := s.pc[w := Done(CommittedLsn(s, w))])
  }

  function Follow(s: State, w: nat): State
    requires Shape(s) && w < |s.pc|
  {
    match s.slot[w]
    case Empty => s.(pc := s.pc[w := FollowAsleep])
    case ToldFollow => s.(slot := s.slot[w := Empty])
    case ToldDone(lsn) => s.(slot := s.slot[w := Empty], pc := s.pc[w := Done(lsn)])
  }

  /** The step of writer w; `full` is the memtable-size test, an input of the model. */
  function Step(s: State, w: nat, full: bool): State
    requires Shape(s) && CanStep(s, w)
  {
    match s.pc[w]
    case Start => Push(s, w)
    case SeekCheck => Check(s, w)
    case SeekFront => Front(s, w)
    case SeekWait => Wait(s, w)
    case Marking(_) => MarkNext(s, w)
    case WalCheck => TakeWal(s, w)
    case WalDraw => Draw(s, w)
    case WalLoad => LoadWal(s, w)
    case WalAppend(_) => Append(s, w)
    case WalRelease => ReleaseWal(s, w)
    case MemCheck => EnterMem(s, w)
    case MemInsert(_) => InsertNext(s, w, full)
    case MemRotate => Rotate(s, w)
    case MemRelease => ReleaseTicket(s, w)
    case Finishing(_) => FinishNext(s, w)
    case FollowCheck => Follow(s, w)
    case _ => s
  }

  /** A sleeper may also wake up for no reason. */
  function SpuriousWake(s: State, w: nat): State
    requires w < |s.pc|
  {
    s.(pc := Notify(s.pc, w))
  }

  // --- Invariant ---

  datatype Phase = Unmarked | Marked | Completed

  /** How far the leader at p has got with the member at position j of its group. */
  function PhaseOf(p: Pc, j: nat): Phase {
    match p
    case Marking(k) => if j < k then Marked else Unmarked
    case Finishing(k) => if j < k then Completed else Marked
    case Done(_) => Completed
    case _ => Marked
  }

  /** What a follower may look like in each phase of its leader; lsn is what the leader committed. */
  predicate FollowerOk(p: Pc, sl: Slot, ph: Phase, lsn: nat) {
    match ph
    case Unmarked => Seeking(p) && sl.Empty?
    case Marked =>
      || (sl.ToldFollow? && Seeking(p) && !p.SeekAsleep?)
      || (sl.Empty? && (p.FollowCheck? || p.FollowAsleep?))
    case Completed =>
      || (sl == ToldDone(lsn) && (p.FollowCheck? || (Seeking(p) && !p.SeekAsleep?)))
      || p == Done(lsn)
  }

  predicate Placed(s: State, w: nat)
    requires Shape(s) && w < |s.pc|
  {
    var h, j := s.head[w], s.pos[w];
    && h < |s.pc|
    && if s.group[h] == [] then
         Seeking(s.pc[w]) && s.slot[w].Empty? && s.group[w] == [] && j < |s.sync.queue| && s.sync.queue[j] == w
       else
         && j < |s.group[h]| && s.group[h][j] == w
         && if w == h then Leading(s.pc[w]) || s.pc[w] == Done(CommittedLsn(s, w))
            else s.group[w] == [] && FollowerOk(s.pc[w], s.slot[w], PhaseOf(s.pc[h], j), CommittedLsn(s, h))
  }

  /** Every writer that has called put is queued, or sits in exactly one group in the state its leader left it. */
  predicate MemberInv(s: State)
    requires Shape(s)
  {
    && (forall w :: 0 <= w < |s.pc| && s.pc[w].Start? ==> s.slot[w].Empty? && s.group[w] == [])
    && (forall w :: 0 <= w < |s.pc| && !s.pc[w].Start? ==> Placed(s, w))
    && (forall w :: 0 <= w < |s.pc| && Leading(s.pc[w]) ==> s.group[w] != [] && s.head[w] == w)
    && (forall w :: 0 <= w < |s.pc| && s.pc[w].MemInsert? ==> s.pc[w].next <= |s.group[w]|)
  }

  /** The head of the queue has not gone to sleep: it was pushed onto an empty queue and will lead. */
  predicate QueueInv(s: State)
    requires Shape(s)
  {
    var q := s.sync.queue;
    && (forall j :: 0 <= j < |q| ==> q[j] < |s.pc| && !s.pc[q[j]].Start? && s.head[q[j]] == q[0] && s.pos[q[j]] == j)
    && (q != [] ==> s.group[q[0]] == [] && (s.pc[q[0]].SeekCheck? || s.pc[q[0]].SeekFront?))
  }

  predicate GroupInv(s: State)
    requires Shape(s)
  {
    && (forall l, j :: 0 <= l < |s.pc| && 0 <= j < |s.group[l]| ==>
          s.group[l][j] < |s.pc| && !s.pc[s.group[l][j]].Start? && s.head[s.group[l][j]] == l
              && s.pos[s.group[l][j]] == j)
    && (forall l :: 0 <= l < |s.pc| && s.group[l] != [] ==> s.group[l][0] == l)
  }

  // The remaining invariants speak of projections of the writers' positions.

  /** Towards the WAL stage: outside it, asleep before it, in it, or between choosing a WAL and writing it. */
  datatype WalKind = Outside | Dozing | Inside | Loading | Appending(file: nat)

  function WalKindOf(p: Pc): WalKind {
    match p
    case WalAsleep => Dozing
    case WalDraw => Inside
    case WalRelease => Inside
    case WalLoad => Loading
    case WalAppend(f) => Appending(f)
    case _ => Outside
  }

  function WalKinds(pc: seq<Pc>): (r: seq<WalKind>)
    ensures |r| == |pc|
  {
    seq(|pc|, i requires 0 <= i < |pc| => WalKindOf(pc[i]))
  }

  /** Towards the memtable stage: no ticket yet, holding one, asleep with one, in the stage, or past it. */
  datatype Kind = Before | Holding | Sleeping | Entered | After

  function KindOf(p: Pc, led: bool): Kind {
    if InMem(p) then Entered
    else if p.MemAsleep? then Sleeping
    else if Ticketed(p) then Holding
    else if led && (p.Finishing? || p.Done?) then After
    else Before
  }

  function Kinds(s: State): (r: seq<Kind>)
    requires Shape(s)
    ensures |r| == |s.pc|
  {
    seq(|s.pc|, i requires 0 <= i < |s.pc| => KindOf(s.pc[i], s.group[i] != []))
  }

  /** How many of a group of the given size the leader at p has inserted. */
  function InsertedBy(p: Pc, size: nat): nat {
    match p
    case MemInsert(k) => k
    case MemRotate => size
    case MemRelease => size
    case _ => 0
  }

  function Inserted(s: State): (r: seq<nat>)
    requires Shape(s)
    ensures |r| == |s.pc|
  {
    seq(|s.pc|, i requires 0 <= i < |s.pc| => InsertedBy(s.pc[i], |s.group[i]|))
  }

  /** One leader at most in the WAL stage, and the busy flag says whether there is one. */
  predicate WalStage(kinds: seq<WalKind>, busy: bool, owner: Option<nat>) {
    && (busy <==> owner.Some?)
    && (owner.Some? ==> owner.value < |kinds|)
    && (forall l :: 0 <= l < |kinds| ==>
          (kinds[l].Inside? || kinds[l].Loading? || kinds[l].Appending? <==> owner == Some(l)))
    && (forall l :: 0 <= l < |kinds| && kinds[l].Dozing? ==> busy)
  }

  predicate WalInv(s: State) { WalStage(WalKinds(s.pc), s.sync.walBusy, s.owner) }

  /** Unreleased tickets are held one each, in order; only the lowest is in the memtable stage. */
  predicate Tickets(kinds: seq<Kind>, ticket: seq<nat>, order: seq<nat>, toMem: nat) {
    && |ticket| == |kinds| && toMem <= |order|
    && (forall t :: 0 <= t < |order| ==> order[t] < |kinds| && kinds[order[t]] != Before && ticket[order[t]] == t)
    && (forall l :: 0 <= l < |kinds| && kinds[l] != Before ==>
          && ticket[l] < |order| && order[ticket[l]] == l
          && (kinds[l] == After <==> ticket[l] < toMem)
          && (kinds[l] == Entered ==> ticket[l] == toMem)
          && (kinds[l] == Sleeping ==> ticket[l] != toMem))
  }

  predicate TicketInv(s: State)
    requires Shape(s)
  {
    Tickets(Kinds(s), s.ticket, s.order, s.sync.ticketToMem)
  }

  /** Where the records of ticket t end. */
  function CutEnd(cuts: seq<nat>, log: seq<Rec>, t: nat): nat
    requires t < |cuts|
  {
    if t + 1 < |cuts| then cuts[t + 1] else |log|
  }

  /** Record k of the log is w's: w's leader l holds the ticket whose records these are. */
  predicate RecordAt(start: nat, log: seq<Rec>, cuts: seq<nat>, order: seq<nat>, ticket: seq<nat>,
                     head: seq<nat>, pos: seq<nat>, group: seq<seq<nat>>, k: nat)
    requires k < |log| && |cuts| == |order| && |ticket| == |head| == |pos| == |group|
  {
    var w := log[k].writer;
    && w < |head| && head[w] < |head| && ticket[head[w]] < |order|
    && order[ticket[head[w]]] == head[w] && pos[w] < |group[head[w]]| && group[head[w]][pos[w]] == w
    && log[k].lsn == start + k && cuts[ticket[head[w]]] + pos[w] == k
  }

  /** The log: the groups in ticket order, one record per member in queue order, LSNs consecutive. */
  predicate Logged(start: nat, log: seq<Rec>, cuts: seq<nat>, order: seq<nat>, ticket: seq<nat>,
                   head: seq<nat>, pos: seq<nat>, group: seq<seq<nat>>)
    requires |cuts| == |order| && |ticket| == |head| == |pos| == |group|
  {
    && (forall k :: 0 <= k < |log| ==> RecordAt(start, log, cuts, order, ticket, head, pos, group, k))
    && (forall t :: 0 <= t < |order| ==>
          order[t] < |group| && cuts[t] <= |log| && cuts[t] + |group[order[t]]| == CutEnd(cuts, log, t))
    && (forall t, j :: 0 <= t < |order| && order[t] < |group| && 0 <= j < |group[order[t]]| && cuts[t] + j < |log| ==>
          log[cuts[t] + j].writer == group[order[t]][j])
    && (cuts != [] ==> cuts[0] == 0) && (cuts == [] ==> log == [])
  }

  predicate LogInv(s: State)
    requires Shape(s)
  {
    Logged(s.start, s.log, s.cuts, s.order, s.ticket, s.head, s.pos, s.group)
  }

  function Flatten<T>(ss: seq<seq<T>>): seq<T> {
    if ss == [] then [] else Flatten(ss[..|ss| - 1]) + ss[|ss| - 1]
  }

  /** What has reached the WALs, and what has reached the memtables, are prefixes of the log. */
  predicate Stored(wals: seq<seq<Rec>>, mems: seq<seq<Rec>>, log: seq<Rec>, appended: nat, applied: nat) {
    && appended <= |log| && Flatten(wals) == log[..appended]
    && applied <= |log| && Flatten(mems) == log[..applied]
  }

  /** Only the group in flight is issued but not appended, and the WAL it chose has no successor in use. */
  predicate AppendPos(kinds: seq<WalKind>, owner: Option<nat>, order: seq<nat>, cuts: seq<nat>, logSize: nat,
                      wals: seq<seq<Rec>>, appended: nat)
    requires |cuts| == |order|
  {
    && (if owner.Some? && owner.value < |kinds| && (kinds[owner.value].Loading? || kinds[owner.value].Appending?)
        then order != [] && order[|order| - 1] == owner.value && appended == cuts[|cuts| - 1]
        else appended == logSize)
    && (forall l :: 0 <= l < |kinds| && kinds[l].Appending? ==>
          kinds[l].file < |wals| && forall f :: kinds[l].file < f < |wals| ==> wals[f] == [])
  }

  /** Everything before the lowest unreleased ticket is applied, and what its holder has inserted. */
  predicate ApplyPos(inserted: seq<nat>, order: seq<nat>, cuts: seq<nat>, toMem: nat, logSize: nat, applied: nat)
    requires |cuts| == |order|
  {
    if toMem < |order| && order[toMem] < |inserted| then applied == cuts[toMem] + inserted[order[toMem]]
    else applied == logSize
  }

  predicate StoreInv(s: State)
    requires Shape(s)
  {
    && Stored(s.wals, s.mems, s.log, s.appended, s.applied)
    && AppendPos(WalKinds(s.pc), s.owner, s.order, s.cuts, |s.log|, s.wals, s.appended)
    && ApplyPos(Inserted(s), s.order, s.cuts, s.sync.ticketToMem, |s.log|, s.applied)
  }

  predicate Inv(s: State) {
    && Shape(s) && MemberInv(s) && QueueInv(s) && GroupInv(s) && WalInv(s)
    && TicketInv(s) && LogInv(s) && StoreInv(s)
  }

  lemma InitInv(n: nat, start: nat)
    ensures Inv(Init(n, start))
  {
    var s := Init(n, start);
    assert Flatten(s.wals) == Flatten(s.wals[..0]) + [];
    assert WalKinds(s.pc) == seq(n, _ => Outside) && Kinds(s) == seq(n, _ => Before) && Inserted(s) == seq(n, _ => 0);
    hide WalKinds, Kinds, Inserted, Placed, RecordAt, Flatten;
  }
}
