/** The running driver as a transition system: any number of ioctl callers and one worker per
    accelerator. A step is one C assignment, one shared read or one locked region; steps of
    different threads interleave freely. */
module Steps {
  import opened Types
  import opened Memory

  datatype ScanKind = Query | Cancel

  datatype Request =
    | SubmitTask(desc: Desc)
    | ScanTask(kind: ScanKind, id: nat)
    | AccelInfo(accelType: nat)

  datatype Outcome =
    | Error(code: int)
    | Submitted(taskId: nat)
    | Reported(status: Status)
    | CancelAccepted
    | InfoReturned(load: int)

  /** Where an ioctl caller is, with its local variables. `t` is its `task` pointer. */
  datatype ClientPc =
    | Idle
    // SUBMIT_TASK
    | SAlloc(desc: Desc)
    | SFill(desc: Desc, t: nat)
    | SCheckType(desc: Desc, t: nat)
    | SPublish(desc: Desc, t: nat)
    | SStamp(desc: Desc, t: nat)
    | SEnqueue(desc: Desc, t: nat)
    | SReadId(desc: Desc, t: nat)
    | SCopyOut(desc: Desc, taskId: nat)
    | SUndo(desc: Desc, t: nat)
    // the scan of QUERY_TASK and CANCEL_TASK, testing slot i
    | ScanId(kind: ScanKind, id: nat, i: nat)
    | ScanState(kind: ScanKind, id: nat, i: nat)
    // a query that matched slot t reads the fields one by one
    | QReadId(id: nat, t: nat)
    | QReadState(id: nat, t: nat, taskId: nat)
    | QReadComplete(id: nat, t: nat, taskId: nat, state: TaskState)
    | QReadSubmit(id: nat, t: nat, taskId: nat, state: TaskState, complete: nat)
    | QReadError(id: nat, t: nat, taskId: nat, state: TaskState, execUsec: nat)
    | QCopyOut(id: nat, t: nat, status: Status)
    // a cancel that matched slot t
    | CMark(id: nat, t: nat)
    | CError(id: nat, t: nat)
    | CSignal(id: nat, t: nat)
    // GET_ACCEL_INFO
    | IRead(accelType: nat)
    | ICopyOut(accelType: nat, load: int)
    | Done(request: Request, outcome: Outcome)
  {
    predicate InSubmit() {
      SAlloc? || SFill? || SCheckType? || SPublish? || SStamp? || SEnqueue? || SReadId? || SCopyOut? || SUndo?
    }

    predicate InScan() {
      ScanId? || ScanState? || InMatch() || CMark? || CError? || CSignal?
    }

    /** A query that has matched a slot. */
    predicate InMatch() {
      QReadId? || QReadState? || QReadComplete? || QReadSubmit? || QReadError? || QCopyOut?
    }
  }

  /** Where a worker thread is. */
  datatype WorkerPc =
    | Head
    | WaitEvent
    | Recheck
    | Take
    | MarkRunning(t: nat)
    | AddLoad(t: nat)
    | TestTimeout(t: nat)
    | CheckClock(t: nat, timeout: nat, start: nat)
    | CheckState(t: nat, timeout: nat, start: nat)
    | Nap(t: nat, timeout: nat, start: nat, wakeAt: nat)
    | CheckStop(t: nat, timeout: nat, start: nat)
    | LongNap(t: nat, wakeAt: nat)
    | StampComplete(t: nat)
    | MarkComplete(t: nat)
    | ClearError(t: nat)
    | DropLoad(t: nat)
    | Signal(t: nat)
    | RetireTask(t: nat)
    | Exited
  {
    predicate InRun() {
      MarkRunning? || AddLoad? || TestTimeout? || CheckClock? || CheckState? || Nap? || CheckStop? || LongNap?
    }

    predicate InFinish() {
      StampComplete? || MarkComplete? || ClearError? || DropLoad? || Signal? || RetireTask?
    }

    /** The worker holds a task: it is on active_tasks. */
    predicate Busy() {
      InRun() || InFinish()
    }
  }

  /** One line of an accelerator's enqueue log (history): who, when, and how many tasks were
      already waiting in task_queue. */
  datatype Entry = Entry(slot: nat, timeoutMs: Word32, enqTick: nat, ahead: nat)

  /** `log` and `retired` are history: every enqueue so far, and how many retirements. */
  datatype Worker = Worker(running: bool, stop: bool, pc: WorkerPc, log: seq<Entry>, retired: nat)

  /** How far the life of a slot has come (history). `a` is the accelerator and `k` the
      position in its log. */
  datatype Phase =
    | Unused
    | Held(c: nat)
    | Published(c: nat)
    | Stamped(c: nat)
    | Queued(a: nat, k: nat)
    | Picked(a: nat, k: nat)
    | Marked(a: nat, k: nat)
    | Started(a: nat, k: nat)
    | Timed(a: nat, k: nat)
    | Completed(a: nat, k: nat)
    | Retired(a: nat, k: nat)
  {
    function Rank(): nat {
      match this
      case Unused => 0
      case Held(_) => 1
      case Published(_) => 2
      case Stamped(_) => 3
      case Queued(_, _) => 4
      case Picked(_, _) => 5
      case Marked(_, _) => 6
      case Started(_, _) => 7
      case Timed(_, _) => 8
      case Completed(_, _) => 9
      case Retired(_, _) => 10
    }

    predicate Owned() {
      Held? || Published? || Stamped?
    }

    predicate Logged() {
      Rank() >= 4
    }
  }

  /** True ticks of the events of a slot's life, whether it was cancelled or stopped while it
      ran, and whether a cancel wrote its state after COMPLETE had been written (all history). */
  datatype Hist = Hist(phase: Phase, submitTick: nat, startTick: nat, doneTick: nat,
                       disturbed: bool, lateCancel: bool)

  const NO_HIST := Hist(Unused, 0, 0, 0, false, false)

  datatype State = State(
    mem: Mem,
    workers: seq<Worker>,
    clients: seq<ClientPc>,
    hist: seq<Hist>,
    now: nat,
    boot: nat)

  datatype Event =
    | Tick(d: nat)
    | Begin(c: nat, request: Request, copied: bool)
    | Client(c: nat, copied: bool)
    | Return(c: nat)
    | Work(a: nat)
    | ClearRunning(a: nat)
    | RequestStop(a: nat)

  // ---- Well-formed states ----

  ghost predicate ClientShape(s: State, pc: ClientPc) {
    match pc
    case Idle | Done(_, _) | SCopyOut(_, _) | ICopyOut(_, _) => true
    case SAlloc(d) => d.accelType < |s.workers|
    case SFill(d, t) => d.accelType < |s.workers| && t < |s.hist|
    case SCheckType(d, t) => d.accelType < |s.workers| && t < |s.hist|
    case SPublish(d, t) => d.accelType < |s.workers| && t < |s.hist|
    case SStamp(d, t) => d.accelType < |s.workers| && t < |s.hist|
    case SEnqueue(d, t) => d.accelType < |s.workers| && t < |s.hist|
    case SReadId(d, t) => t < |s.hist|
    case SUndo(d, t) => t < |s.hist|
    case ScanId(_, _, i) => i <= |s.hist|
    case ScanState(_, _, i) => i < |s.hist|
    case QReadId(_, t) => t < |s.hist|
    case QReadState(_, t, _) => t < |s.hist|
    case QReadComplete(_, t, _, _) => t < |s.hist|
    case QReadSubmit(_, t, _, _, _) => t < |s.hist|
    case QReadError(_, t, _, _, _) => t < |s.hist|
    case QCopyOut(_, t, _) => t < |s.hist|
    case CMark(_, t) => t < |s.hist|
    case CError(_, t) => t < |s.hist|
    case CSignal(_, t) => t < |s.hist|
    case IRead(a) => a < |s.workers|
  }

  ghost predicate WorkerShape(s: State, pc: WorkerPc) {
    pc.Busy() ==> pc.t < |s.hist|
  }

  /** Array bounds: every pointer a thread holds points into its array. */
  ghost predicate Shape(s: State) {
    && MemShape(s.mem)
    && |s.hist| == |s.mem.tasks|
    && |s.workers| == |s.mem.accels|
    && (forall c :: 0 <= c < |s.clients| ==> ClientShape(s, s.clients[c]))
    && (forall a :: 0 <= a < |s.workers| ==> WorkerShape(s, s.workers[a].pc))
  }

  predicate Enabled(s: State, e: Event) {
    match e
    case Tick(_) => true
    case Begin(c, _, _) => c < |s.clients| && s.clients[c].Idle?
    case Client(c, _) => c < |s.clients| && !s.clients[c].Idle? && !s.clients[c].Done?
    case Return(c) => c < |s.clients| && s.clients[c].Done?
    case Work(a) => a < |s.workers| && WorkerReady(s.workers[a].pc, s.now)
    case ClearRunning(a) => a < |s.workers|
    case RequestStop(a) => a < |s.workers| && !s.workers[a].running
  }

  predicate WorkerReady(pc: WorkerPc, now: nat) {
    match pc
    case Exited => false
    case Nap(_, _, _, wakeAt) => wakeAt <= now
    case LongNap(_, wakeAt) => wakeAt <= now
    case _ => true
  }

  // ---- Steps of one ioctl call ----

  function Pc(s: State, c: nat, pc: ClientPc): State
    requires c < |s.clients|
  {
    s.(clients := s.clients[c := pc])
  }

  function SetPhase(s: State, t: nat, p: Phase): State
    requires t < |s.hist|
  {
    s.(hist := s.hist[t := s.hist[t].(phase := p)])
  }

  /** Everything before the first access to shared memory: the copy-in and the checks. */
  function FirstPc(s: State, r: Request, copied: bool): ClientPc {
    if !copied then Done(r, Error(-EFAULT))
    else match r
      case SubmitTask(d) =>
        var code := Validate(d, |s.workers|);
        if code != 0 then Done(r, Error(code)) else SAlloc(d)
      case ScanTask(kind, id) => ScanId(kind, id, 0)
      case AccelInfo(a) =>
        if a >= |s.workers| then Done(r, Error(-EINVAL)) else IRead(a)
  }

  function AllocStep(s: State, c: nat, d: Desc): State
    requires c < |s.clients| && Shape(s)
  {
    if s.mem.free == [] then Pc(s, c, Done(SubmitTask(d), Error(-ENOMEM)))
    else
      var t := s.mem.free[0];
      SetPhase(Pc(s, c, SFill(d, t)).(mem := AllocHead(s.mem)), t, Held(c))
  }

  function EnqueueStep(s: State, c: nat, d: Desc, t: nat): State
    requires c < |s.clients| && Shape(s) && d.accelType < |s.workers| && t < |s.hist|
  {
    var a := d.accelType;
    var w := s.workers[a];
    var entry := Entry(t, s.mem.tasks[t].timeoutMs, s.now, |s.mem.accels[a].queue|);
    SetPhase(Pc(s, c, SReadId(d, t)).(mem := Enqueue(s.mem, a, t),
                                      workers := s.workers[a := w.(log := w.log + [entry])]),
             t, Queued(a, |w.log|))
  }

  function CancelMark(h: Hist): Hist {
    h.(disturbed := h.disturbed || h.phase.Marked? || h.phase.Started?,
       lateCancel := h.lateCancel || h.phase.Completed? || h.phase.Retired?)
  }

  function SubmitStep(s: State, c: nat, copied: bool): State
    requires c < |s.clients| && Shape(s)
    requires s.clients[c].InSubmit()
  {
    assert ClientShape(s, s.clients[c]);
    match s.clients[c]
    case SAlloc(d) => AllocStep(s, c, d)
    case SFill(d, t) => Pc(s, c, SCheckType(d, t)).(mem := Put(s.mem, t, Filled(s.mem.tasks[t], d)))
    case SCheckType(d, t) =>
      Pc(s, c, if s.mem.tasks[t].accelType >= |s.workers| then SUndo(d, t) else SPublish(d, t))
    case SPublish(d, t) =>
      SetPhase(Pc(s, c, SStamp(d, t)).(mem := SetState(s.mem, t, Pending)), t, Published(c))
    case SStamp(d, t) =>
      Pc(s, c, SEnqueue(d, t)).(
        mem := SetSubmit(s.mem, t, Jiffies(s.now)),
        hist := s.hist[t := s.hist[t].(phase := Stamped(c), submitTick := s.now)])
    case SEnqueue(d, t) => EnqueueStep(s, c, d, t)
    case SReadId(d, t) => Pc(s, c, SCopyOut(d, s.mem.tasks[t].id))
    case SCopyOut(d, id) =>
      Pc(s, c, Done(SubmitTask(d), if copied then Submitted(id) else Error(-EFAULT)))
    case SUndo(d, t) =>
      SetPhase(Pc(s, c, Done(SubmitTask(d), Error(-EINVAL))).(mem := FreeTask(s.mem, t)), t, Unused)
  }

  function ScanStep(s: State, c: nat, copied: bool): State
    requires c < |s.clients| && Shape(s)
    requires s.clients[c].InScan()
  {
    assert ClientShape(s, s.clients[c]);
    match s.clients[c]
    case ScanId(kind, id, i) =>
      Pc(s, c, if i == |s.mem.tasks| then Done(ScanTask(kind, id), Error(-ENOENT))
               else if s.mem.tasks[i].id == id then ScanState(kind, id, i)
               else ScanId(kind, id, i + 1))
    case ScanState(kind, id, i) =>
      Pc(s, c, if s.mem.tasks[i].state == Free then ScanId(kind, id, i + 1)
               else if kind == Query then QReadId(id, i)
               else CMark(id, i))
    case QReadId(id, t) => Pc(s, c, QReadState(id, t, s.mem.tasks[t].id))
    case QReadState(id, t, taskId) => Pc(s, c, QReadComplete(id, t, taskId, s.mem.tasks[t].state))
    case QReadComplete(id, t, taskId, st) =>
      Pc(s, c, QReadSubmit(id, t, taskId, st, s.mem.tasks[t].completeJiffies))
    case QReadSubmit(id, t, taskId, st, complete) =>
      Pc(s, c, QReadError(id, t, taskId, st, ExecUsec(complete, s.mem.tasks[t].submitJiffies)))
    case QReadError(id, t, taskId, st, execUsec) =>
      Pc(s, c, QCopyOut(id, t, Status(taskId, st, execUsec, s.mem.tasks[t].errorCode)))
    case QCopyOut(id, t, status) =>
      Pc(s, c, Done(ScanTask(Query, id), if copied then Reported(status) else Error(-EFAULT)))
    case CMark(id, t) =>
      Pc(s, c, CError(id, t)).(mem := SetState(s.mem, t, Cancelled),
                               hist := s.hist[t := CancelMark(s.hist[t])])
    case CError(id, t) => Pc(s, c, CSignal(id, t)).(mem := SetError(s.mem, t, -ECANCELED))
    case CSignal(id, t) => Pc(s, c, Done(ScanTask(Cancel, id), CancelAccepted)).(mem := SetDone(s.mem, t))
  }

  function ClientStep(s: State, c: nat, copied: bool): State
    requires c < |s.clients| && Shape(s) && !s.clients[c].Idle? && !s.clients[c].Done?
  {
    assert ClientShape(s, s.clients[c]);
    var pc := s.clients[c];
    if pc.InSubmit() then SubmitStep(s, c, copied)
    else if pc.InScan() then ScanStep(s, c, copied)
    else if pc.IRead? then Pc(s, c, ICopyOut(pc.accelType, s.mem.accels[pc.accelType].load))
    else Pc(s, c, Done(AccelInfo(pc.accelType), if copied then InfoReturned(pc.load) else Error(-EFAULT)))
  }

  // ---- Steps of one worker ----

  function WPc(s: State, a: nat, pc: WorkerPc): State
    requires a < |s.workers|
  {
    s.(workers := s.workers[a := s.workers[a].(pc := pc)])
  }

  /** The log position of the task a worker holds. */
  function Current(s: State, a: nat): nat
    requires a < |s.workers|
  {
    s.workers[a].retired
  }

  function IdleStep(s: State, a: nat): State
    requires a < |s.workers| && Shape(s) && !s.workers[a].pc.Busy() && !s.workers[a].pc.Exited?
  {
    var w := s.workers[a];
    match w.pc
    case Head => WPc(s, a, if w.running then WaitEvent else Exited)
    case WaitEvent => WPc(s, a, Recheck)
    case Recheck => WPc(s, a, if w.running then Take else Exited)
    case Take =>
      if s.mem.accels[a].queue == [] then WPc(s, a, Head)
      else
        assert AccelShape(s.mem, a);
        var t := s.mem.accels[a].queue[0];
        SetPhase(WPc(s, a, MarkRunning(t)).(mem := Dequeue(s.mem, a)), t, Picked(a, Current(s, a)))
  }

  function RunStep(s: State, a: nat): State
    requires a < |s.workers| && Shape(s) && s.workers[a].pc.InRun()
  {
    var w := s.workers[a];
    assert WorkerShape(s, w.pc);
    match w.pc
    case MarkRunning(t) =>
      SetPhase(WPc(s, a, AddLoad(t)).(mem := SetState(s.mem, t, Running)), t, Marked(a, Current(s, a)))
    case AddLoad(t) =>
      WPc(s, a, TestTimeout(t)).(mem := SetLoad(s.mem, a, RaisedLoad(s.mem.accels[a].load)))
    case TestTimeout(t) =>
      var ms := s.mem.tasks[t].timeoutMs;
      WPc(s, a, if ms > 0 then CheckClock(t, Ticks(ms), Jiffies(s.now)) else LongNap(t, s.now + Ticks(10))).(
        hist := s.hist[t := s.hist[t].(phase := Started(a, Current(s, a)), startTick := s.now)])
    case CheckClock(t, timeout, start) =>
      WPc(s, a, if JiffiesSince(Jiffies(s.now), start) < timeout then CheckState(t, timeout, start)
                else StampComplete(t))
    case CheckState(t, timeout, start) =>
      WPc(s, a, if s.mem.tasks[t].state == Running then Nap(t, timeout, start, s.now + Ticks(1))
                else StampComplete(t))
    case Nap(t, timeout, start, _) => WPc(s, a, CheckStop(t, timeout, start))
    case CheckStop(t, timeout, start) =>
      if w.stop then
        WPc(s, a, StampComplete(t)).(hist := s.hist[t := s.hist[t].(disturbed := true)])
      else WPc(s, a, CheckClock(t, timeout, start))
    case LongNap(t, _) => WPc(s, a, StampComplete(t))
  }

  function FinishStep(s: State, a: nat): State
    requires a < |s.workers| && Shape(s) && s.workers[a].pc.InFinish()
  {
    var w := s.workers[a];
    assert WorkerShape(s, w.pc);
    match w.pc
    case StampComplete(t) =>
      WPc(s, a, MarkComplete(t)).(
        mem := SetComplete(s.mem, t, Jiffies(s.now)),
        hist := s.hist[t := s.hist[t].(phase := Timed(a, Current(s, a)), doneTick := s.now)])
    case MarkComplete(t) =>
      SetPhase(WPc(s, a, ClearError(t)).(mem := SetState(s.mem, t, Complete)), t, Completed(a, Current(s, a)))
    case ClearError(t) => WPc(s, a, DropLoad(t)).(mem := SetError(s.mem, t, 0))
    case DropLoad(t) =>
      WPc(s, a, Signal(t)).(mem := SetLoad(s.mem, a, LoweredLoad(s.mem.accels[a].load)))
    case Signal(t) => WPc(s, a, RetireTask(t)).(mem := SetDone(s.mem, t))
    case RetireTask(t) =>
      SetPhase(s.(mem := Retire(s.mem, a, t),
                  workers := s.workers[a := w.(pc := Head, retired := w.retired + 1)]),
               t, Retired(a, Current(s, a)))
  }

  function WorkStep(s: State, a: nat): State
    requires a < |s.workers| && Shape(s) && !s.workers[a].pc.Exited?
  {
    var pc := s.workers[a].pc;
    if pc.InRun() then RunStep(s, a)
    else if pc.InFinish() then FinishStep(s, a)
    else IdleStep(s, a)
  }

  // ---- Runs ----

  function Apply(s: State, e: Event): State
    requires Shape(s) && Enabled(s, e)
  {
    match e
    case Tick(d) => s.(now := s.now + d)
    case Begin(c, r, copied) => Pc(s, c, FirstPc(s, r, copied))
    case Client(c, copied) => ClientStep(s, c, copied)
    case Return(c) => Pc(s, c, Idle)
    case Work(a) => WorkStep(s, a)
    case ClearRunning(a) => s.(workers := s.workers[a := s.workers[a].(running := false)])
    case RequestStop(a) => s.(workers := s.workers[a := s.workers[a].(stop := true)])
  }

  ghost predicate Step(s: State, e: Event, s': State) {
    Shape(s) && Enabled(s, e) && s' == Apply(s, e)
  }

  /** A finite run: ss lists the states before, between and after the events es. */
  ghost predicate Run(ss: seq<State>, es: seq<Event>) {
    |ss| == |es| + 1 && forall i :: 0 <= i < |es| ==> Step(ss[i], es[i], ss[i + 1])
  }

  /** The driver just after probe: N free slots, A started workers, C callers, any clock. */
  function Init(slots: nat, accels: nat, clients: nat, boot: nat): State {
    State(InitialMem(slots, accels),
          seq(accels, a => Worker(true, false, Head, [], 0)),
          seq(clients, c => Idle),
          seq(slots, i => NO_HIST),
          boot, boot)
  }
}
