/** What holds in every reachable state of the step system: where each slot is, what its fields
    can be at that stage, what each accelerator's lists contain, and what each thread knows. */
module Invariant {
  import opened Types
  import opened Memory
  import opened Steps

  // ---- One slot ----

  /** The states a slot can show at each stage of its life. */
  ghost predicate StateFits(x: Task, h: Hist) {
    var r := h.phase.Rank();
    && (r <= 1 ==> x.state == Free)
    && (2 <= r <= 5 ==> x.state == Pending || x.state == Cancelled)
    && (6 <= r <= 8 ==> x.state == Running || x.state == Cancelled)
    && (6 <= r <= 7 && x.state == Cancelled ==> h.disturbed)
    && (r >= 9 ==> x.state == if h.lateCancel then Cancelled else Complete)
    && (r < 9 ==> !h.lateCancel)
  }

  ghost predicate TimesFit(x: Task, h: Hist, now: nat) {
    var r := h.phase.Rank();
    && (r >= 3 ==> x.submitJiffies == Jiffies(h.submitTick) && h.submitTick <= now)
    && (r >= 8 ==> x.completeJiffies == Jiffies(h.doneTick) && h.submitTick <= h.doneTick <= now)
  }

  /** The client that fills or submits a slot is at the matching place in its program. */
  ghost predicate OwnerPc(pc: ClientPc, p: Phase, t: nat) {
    match p
    case Held(_) => (pc.SFill? || pc.SCheckType? || pc.SPublish?) && pc.t == t
    case Published(_) => pc.SStamp? && pc.t == t
    case Stamped(_) => pc.SEnqueue? && pc.t == t
    case _ => true
  }

  ghost predicate PlaceOk(s: State, i: nat)
    requires i < |s.hist|
  {
    var p := s.hist[i].phase;
    && (p.Owned() ==> p.c < |s.clients| && OwnerPc(s.clients[p.c], p, i))
    && (p.Logged() ==> p.a < |s.workers| && p.k < |s.workers[p.a].log| && s.workers[p.a].log[p.k].slot == i)
  }

  ghost predicate SlotOk(s: State, i: nat)
    requires Shape(s) && i < |s.hist|
  {
    var x, h := s.mem.tasks[i], s.hist[i];
    && (h.phase.Unused? <==> i >= s.mem.nextId)
    && (h.phase.Unused? ==> x == ZERO_TASK && h == NO_HIST)
    && (!h.phase.Unused? ==> x.id == i + 1)
    && StateFits(x, h)
    && TimesFit(x, h, s.now)
    && (x.errorCode == 0 || x.errorCode == -ECANCELED)
    && (h.phase.Retired? ==> x.done)
    && (h.phase.Rank() <= 1 ==> x.errorCode == 0 && !x.done)
    && PlaceOk(s, i)
  }

  // ---- One accelerator ----

  /** The phase of the task a busy worker holds. */
  ghost function PhaseOf(pc: WorkerPc, a: nat, k: nat): Phase {
    if pc.MarkRunning? then Picked(a, k)
    else if pc.AddLoad? || pc.TestTimeout? then Marked(a, k)
    else if pc.InRun() || pc.StampComplete? then Started(a, k)
    else if pc.MarkComplete? then Timed(a, k)
    else Completed(a, k)
  }

  /** The phase the k-th task ever enqueued on an accelerator must have now. */
  ghost function LogPhase(w: Worker, a: nat, k: nat): Phase {
    if k < w.retired then Retired(a, k)
    else if k == w.retired && w.pc.Busy() then PhaseOf(w.pc, a, k)
    else Queued(a, k)
  }

  ghost predicate EntryOk(s: State, a: nat, k: nat)
    requires Shape(s) && a < |s.workers| && k < |s.workers[a].log|
  {
    var entry := s.workers[a].log[k];
    && entry.slot < |s.hist|
    && s.hist[entry.slot].phase == LogPhase(s.workers[a], a, k)
    && s.mem.tasks[entry.slot].timeoutMs == entry.timeoutMs
    && s.mem.tasks[entry.slot].accelType == a
  }

  function SlotsOf(log: seq<Entry>): (r: seq<nat>)
    ensures |r| == |log| && forall i :: 0 <= i < |log| ==> r[i] == log[i].slot
  {
    seq(|log|, i requires 0 <= i < |log| => log[i].slot)
  }

  function Load(pc: WorkerPc): int {
    if pc.Busy() && !pc.MarkRunning? && !pc.AddLoad? && !pc.Signal? && !pc.RetireTask? then 10 else 0
  }

  function ActiveCount(pc: WorkerPc): nat {
    if pc.Busy() then 1 else 0
  }

  /** FIFO: the log is the retired tasks, then the one being run, then the queue. */
  ghost predicate ListsOk(s: State, a: nat)
    requires Shape(s) && a < |s.workers|
  {
    var w, m := s.workers[a], s.mem.accels[a];
    var n := ActiveCount(w.pc);
    && w.retired + n <= |w.log|
    && m.active == SlotsOf(w.log)[w.retired..w.retired + n]
    && m.queue == SlotsOf(w.log)[w.retired + n..]
    && m.load == Load(w.pc)
    && (w.pc.Busy() ==> w.pc.t == w.log[w.retired].slot)
  }

  ghost predicate WaitOk(pc: WorkerPc, x: Task, h: Hist, boot: nat, now: nat) {
    match pc
    case CheckClock(_, timeout, start) => Waiting(timeout, start, x, h, boot, now)
    case CheckState(_, timeout, start) => Waiting(timeout, start, x, h, boot, now)
    case Nap(_, timeout, start, wakeAt) => Waiting(timeout, start, x, h, boot, now) && h.startTick + 1 <= wakeAt
    case CheckStop(_, timeout, start) => Waiting(timeout, start, x, h, boot, now)
    case LongNap(_, wakeAt) => x.timeoutMs == 0 && wakeAt == h.startTick + Ticks(10) && h.startTick <= now
    case StampComplete(_) => h.startTick <= now && (h.disturbed || h.startTick + MinRun(x.timeoutMs) <= now)
    case RetireTask(_) => x.done
    case _ => true
  }

  ghost predicate Waiting(timeout: nat, start: nat, x: Task, h: Hist, boot: nat, now: nat) {
    && x.timeoutMs > 0
    && timeout == Ticks(x.timeoutMs)
    && start == Jiffies(h.startTick)
    && boot <= h.startTick <= now
  }

  ghost predicate CurrentOk(s: State, a: nat)
    requires Shape(s) && a < |s.workers|
  {
    var pc := s.workers[a].pc;
    pc.Busy() ==> pc.t < |s.hist| && WaitOk(pc, s.mem.tasks[pc.t], s.hist[pc.t], s.boot, s.now)
  }

  ghost predicate AccelOk(s: State, a: nat)
    requires Shape(s) && a < |s.workers|
  {
    && ListsOk(s, a)
    && CurrentOk(s, a)
    && (forall k :: 0 <= k < |s.workers[a].log| ==> EntryOk(s, a, k))
  }

  // ---- One caller ----

  ghost predicate Visible(s: State, t: nat)
    requires t < |s.hist|
  {
    s.hist[t].phase.Rank() >= 2
  }

  /** A slot that matched a request for `id`; only an id of 0 can match the wrong task. */
  ghost predicate Matched(s: State, id: nat, t: nat)
    requires t < |s.hist|
  {
    Visible(s, t) && (id != 0 ==> id == t + 1)
  }

  /** A COMPLETE that a query has read is final, and so are both time stamps. */
  ghost predicate SeenComplete(s: State, t: nat, st: TaskState)
    requires t < |s.hist|
  {
    st == Complete ==> s.hist[t].phase.Rank() >= 9
  }

  ghost function TrueExec(h: Hist): nat {
    ExecUsec(Jiffies(h.doneTick), Jiffies(h.submitTick))
  }

  ghost predicate ClientOk(s: State, c: nat, pc: ClientPc)
    requires Shape(s) && ClientShape(s, pc)
  {
    match pc
    case SFill(d, t) => s.hist[t].phase == Held(c)
    case SCheckType(d, t) =>
      s.hist[t].phase == Held(c) && s.mem.tasks[t].accelType == d.accelType
    case SPublish(d, t) =>
      s.hist[t].phase == Held(c) && s.mem.tasks[t].accelType == d.accelType
    case SStamp(d, t) =>
      s.hist[t].phase == Published(c) && s.mem.tasks[t].accelType == d.accelType
    case SEnqueue(d, t) =>
      s.hist[t].phase == Stamped(c) && s.mem.tasks[t].accelType == d.accelType
    case SReadId(_, t) => s.hist[t].phase.Logged()
    case SCopyOut(_, id) => 1 <= id <= |s.hist| && s.hist[id - 1].phase.Logged()
    case SUndo(_, _) => false
    case ScanState(_, id, i) => id != 0 ==> id == i + 1
    case QReadId(id, t) => Matched(s, id, t)
    case QReadState(id, t, taskId) => Matched(s, id, t) && taskId == t + 1
    case QReadComplete(id, t, taskId, st) =>
      Matched(s, id, t) && taskId == t + 1 && SeenComplete(s, t, st)
    case QReadSubmit(id, t, taskId, st, complete) =>
      && Matched(s, id, t) && taskId == t + 1 && SeenComplete(s, t, st)
      && (st == Complete ==> complete == Jiffies(s.hist[t].doneTick))
    case QReadError(id, t, taskId, st, exec) =>
      && Matched(s, id, t) && taskId == t + 1 && SeenComplete(s, t, st)
      && (st == Complete ==> exec == TrueExec(s.hist[t]))
    case QCopyOut(id, t, status) => Matched(s, id, t) && StatusOk(s, t, status)
    case CMark(id, t) => Matched(s, id, t)
    case CError(id, t) => Matched(s, id, t)
    case CSignal(id, t) => Matched(s, id, t)
    case ICopyOut(_, load) => load == 0 || load == 10
    case Done(_, out) => OutcomeOk(s, out)
    case _ => true
  }

  ghost predicate StatusOk(s: State, t: nat, status: Status)
    requires t < |s.hist|
  {
    && status.taskId == t + 1
    && SeenComplete(s, t, status.state)
    && (status.state == Complete ==> status.execUsec == TrueExec(s.hist[t]))
  }

  ghost predicate OutcomeOk(s: State, out: Outcome) {
    match out
    case Error(_) => true
    case Submitted(id) => 1 <= id <= |s.hist| && s.hist[id - 1].phase.Logged()
    case Reported(status) =>
      && 1 <= status.taskId <= |s.hist|
      && Visible(s, status.taskId - 1)
      && StatusOk(s, status.taskId - 1, status)
    case CancelAccepted => true
    case InfoReturned(load) => load == 0 || load == 10
  }

  // ---- The whole driver ----

  /** Slots are handed out once each, in array order, and none ever comes back. */
  ghost predicate PoolOk(m: Mem) {
    && |m.tasks| < U32
    && m.nextId <= |m.tasks|
    && m.free == Index(|m.tasks|)[m.nextId..]
  }

  ghost predicate Inv(s: State) {
    && Shape(s)
    && PoolOk(s.mem)
    && s.boot <= s.now
    && (forall i :: 0 <= i < |s.hist| ==> SlotOk(s, i))
    && (forall a :: 0 <= a < |s.workers| ==> AccelOk(s, a))
    && (forall c :: 0 <= c < |s.clients| ==> ClientOk(s, c, s.clients[c]))
  }

  // One instance of the invariant at a time, for proofs that keep Inv itself hidden.

  lemma InvShape(s: State)
    requires Inv(s)
    ensures Shape(s)
  {
  }

  lemma InvPool(s: State)
    requires Inv(s)
    ensures Shape(s) && PoolOk(s.mem) && s.boot <= s.now
  {
  }

  lemma InvSlot(s: State, i: nat)
    requires Inv(s) && i < |s.hist|
    ensures Shape(s) && SlotOk(s, i)
  {
  }

  lemma InvClient(s: State, c: nat)
    requires Inv(s) && c < |s.clients|
    ensures Shape(s) && ClientShape(s, s.clients[c]) && ClientOk(s, c, s.clients[c])
  {
    assert ClientShape(s, s.clients[c]);
  }

  lemma InvAccel(s: State, a: nat)
    requires Inv(s) && a < |s.workers|
    ensures Shape(s) && AccelShape(s.mem, a) && WorkerShape(s, s.workers[a].pc) && AccelOk(s, a)
  {
    assert AccelShape(s.mem, a) && WorkerShape(s, s.workers[a].pc);
  }

  lemma InitInv(slots: nat, accels: nat, clients: nat, boot: nat)
    requires slots < U32
    ensures Inv(Init(slots, accels, clients, boot))
  {
  }
}
