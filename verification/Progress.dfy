/** Bounded progress: while its worker is kept running, a queued task is retired within a number
    of that worker's own steps fixed by the queue ahead of it, whatever anyone else does. */
module Progress {
  import opened Types
  import opened Memory
  import opened Steps
  import opened Invariant
  import opened Runs
  import W = WorkerPreservation
  import F = Fifo

  // ---- How many steps a worker needs ----

  const FINISH_STEPS: nat := 6
  const TAKE_STEPS: nat := 4

  /** Worker steps spent waiting out a timeout: four per tick and a last look at the clock. */
  function WaitSteps(timeoutMs: nat): nat {
    if timeoutMs > 0 then 4 * Ticks(timeoutMs) + 1 else 1
  }

  /** From Head until the task is retired. */
  function TaskSteps(timeoutMs: nat): nat {
    TAKE_STEPS + 3 + WaitSteps(timeoutMs) + FINISH_STEPS
  }

  function QueueSteps(log: seq<Entry>, lo: nat, hi: nat): nat
    requires lo <= hi <= |log|
    decreases hi
  {
    if lo == hi then 0 else QueueSteps(log, lo, hi - 1) + TaskSteps(log[hi - 1].timeoutMs)
  }

  /** Ticks still missing to the deadline. */
  function Missing(timeout: nat, startTick: nat, now: nat): nat {
    if now < startTick + timeout then startTick + timeout - now else 0
  }

  /** Steps a busy worker still needs for the task it holds. */
  function BusySteps(pc: WorkerPc, timeoutMs: nat, startTick: nat, now: nat): nat
    requires pc.Busy()
  {
    match pc
    case MarkRunning(_) => 3 + WaitSteps(timeoutMs) + FINISH_STEPS
    case AddLoad(_) => 2 + WaitSteps(timeoutMs) + FINISH_STEPS
    case TestTimeout(_) => 1 + WaitSteps(timeoutMs) + FINISH_STEPS
    case CheckClock(_, timeout, _) => 4 * Missing(timeout, startTick, now) + 1 + FINISH_STEPS
    case CheckState(_, timeout, _) => 3 + 4 * Missing(timeout, startTick, now + 1) + 1 + FINISH_STEPS
    case Nap(_, timeout, _, wakeAt) =>
      2 + 4 * Missing(timeout, startTick, if now < wakeAt then wakeAt else now) + 1 + FINISH_STEPS
    case CheckStop(_, timeout, _) => 1 + 4 * Missing(timeout, startTick, now) + 1 + FINISH_STEPS
    case LongNap(_, _) => 1 + FINISH_STEPS
    case StampComplete(_) => 6
    case MarkComplete(_) => 5
    case ClearError(_) => 4
    case DropLoad(_) => 3
    case Signal(_) => 2
    case RetireTask(_) => 1
  }

  /** Steps an idle worker has already saved of the four it needs to take a task. */
  function IdleSaved(pc: WorkerPc): nat {
    match pc
    case WaitEvent => 1
    case Recheck => 2
    case Take => 3
    case _ => 0
  }

  /** Steps worker a needs at most until log position p is retired. */
  ghost function StepsLeft(s: State, a: nat, p: nat): int
    requires Inv(s) && a < |s.workers| && p < |s.workers[a].log|
  {
    var w := s.workers[a];
    if p < w.retired then 0
    else if w.pc.Busy() then
      W.CurrentFacts(s, a);
      BusySteps(w.pc, w.log[w.retired].timeoutMs, s.hist[w.pc.t].startTick, s.now)
      + QueueSteps(w.log, w.retired + 1, p + 1)
    else QueueSteps(w.log, w.retired, p + 1) - IdleSaved(w.pc)
  }

  lemma {:induction false} QueueStepsSplit(log: seq<Entry>, lo: nat, hi: nat)
    requires lo < hi <= |log|
    ensures QueueSteps(log, lo, hi) == TaskSteps(log[lo].timeoutMs) + QueueSteps(log, lo + 1, hi)
  {
    if lo + 1 < hi {
      QueueStepsSplit(log, lo, hi - 1);
    }
  }

  lemma {:induction false} QueueStepsPrefix(log: seq<Entry>, log': seq<Entry>, lo: nat, hi: nat)
    requires log <= log' && lo <= hi <= |log|
    ensures QueueSteps(log', lo, hi) == QueueSteps(log, lo, hi)
  {
    if lo < hi {
      QueueStepsPrefix(log, log', lo, hi - 1);
    }
  }

  // ---- Other threads' steps never add work ----

  lemma BusyStepsNoMore(pc: WorkerPc, timeoutMs: nat, startTick: nat, now: nat, now': nat)
    requires pc.Busy() && now <= now'
    ensures BusySteps(pc, timeoutMs, startTick, now') <= BusySteps(pc, timeoutMs, startTick, now)
  {
  }

  /** Another thread's step, as worker a sees it. */
  ghost predicate Bystander(s: State, s': State, a: nat) {
    && a < |s.workers| && a < |s'.workers|
    && s.workers[a].log <= s'.workers[a].log
    && s'.workers[a].pc == s.workers[a].pc
    && s'.workers[a].retired == s.workers[a].retired
    && s.now <= s'.now
    && (s.workers[a].pc.Busy() && s.workers[a].pc.t < |s.hist| ==>
          s.workers[a].pc.t < |s'.hist| && s'.hist[s.workers[a].pc.t].startTick == s.hist[s.workers[a].pc.t].startTick)
  }

  lemma BystanderAddsNothing(s: State, s': State, a: nat, p: nat)
    requires Inv(s) && Inv(s') && Bystander(s, s', a) && p < |s.workers[a].log|
    ensures StepsLeft(s', a, p) <= StepsLeft(s, a, p)
  {
    var w := s.workers[a];
    if w.retired <= p {
      if w.pc.Busy() {
        W.CurrentFacts(s, a);
        QueueStepsPrefix(w.log, s'.workers[a].log, w.retired + 1, p + 1);
        BusyStepsNoMore(w.pc, w.log[w.retired].timeoutMs, s.hist[w.pc.t].startTick, s.now, s'.now);
      } else {
        QueueStepsPrefix(w.log, s'.workers[a].log, w.retired, p + 1);
      }
    }
  }

  lemma ClientIsBystander(s: State, c: nat, copied: bool, a: nat)
    requires Inv(s) && Enabled(s, Client(c, copied)) && a < |s.workers|
    ensures Bystander(s, ClientStep(s, c, copied), a)
  {
    F.ClientGrows(s, c, copied, a);
    ClientSizes(s, c, copied);
    if s.workers[a].pc.Busy() {
      W.CurrentFacts(s, a);
      ClientKeepsStart(s, c, copied, s.workers[a].pc.t);
    }
  }

  lemma ClientKeepsStart(s: State, c: nat, copied: bool, i: nat)
    requires Inv(s) && Enabled(s, Client(c, copied)) && i < |s.hist|
    ensures |ClientStep(s, c, copied).hist| == |s.hist|
    ensures ClientStep(s, c, copied).hist[i].startTick == s.hist[i].startTick
  {
    assert ClientShape(s, s.clients[c]);
  }

  lemma OtherWorkerIsBystander(s: State, b: nat, a: nat)
    requires Inv(s) && Enabled(s, Work(b)) && a < |s.workers| && a != b
    ensures Bystander(s, WorkStep(s, b), a)
  {
    F.WorkGrows(s, b, a);
    if s.workers[a].pc.Busy() {
      W.CurrentFacts(s, a);
      WorkKeepsStart(s, b, a);
    }
  }

  lemma WorkKeepsStart(s: State, b: nat, a: nat)
    requires Inv(s) && Enabled(s, Work(b)) && a < |s.workers| && a != b && s.workers[a].pc.Busy()
    ensures s.workers[a].pc.t < |s.hist| == |WorkStep(s, b).hist|
    ensures WorkStep(s, b).hist[s.workers[a].pc.t].startTick == s.hist[s.workers[a].pc.t].startTick
  {
    W.CurrentFacts(s, a);
    assert AccelShape(s.mem, b);
    if s.workers[b].pc.Busy() {
      W.CurrentFacts(s, b);
    }
  }

  // ---- Each step of the worker itself uses one up ----

  lemma IdleUsesOne(s: State, a: nat, p: nat)
    requires Inv(s) && Enabled(s, Work(a)) && !s.workers[a].pc.Busy() && s.workers[a].running
    requires s.workers[a].retired <= p < |s.workers[a].log|
    ensures Inv(IdleStep(s, a)) && |IdleStep(s, a).workers| == |s.workers|
    ensures IdleStep(s, a).workers[a].log == s.workers[a].log
    ensures StepsLeft(IdleStep(s, a), a, p) < StepsLeft(s, a, p)
  {
    W.KeepIdle(s, a);
    if s.workers[a].pc.Take? {
      TakeUsesOne(s, a, p);
    }
  }

  lemma TakeUsesOne(s: State, a: nat, p: nat)
    requires Inv(s) && a < |s.workers| && s.workers[a].pc.Take? && Inv(IdleStep(s, a))
    requires s.workers[a].retired <= p < |s.workers[a].log|
    ensures |IdleStep(s, a).workers| == |s.workers|
    ensures IdleStep(s, a).workers[a].log == s.workers[a].log
    ensures StepsLeft(IdleStep(s, a), a, p) < StepsLeft(s, a, p)
  {
    var w := s.workers[a];
    QueueStepsSplit(w.log, w.retired, p + 1);
    assert s.mem.accels[a].queue != [] by {
      assert AccelOk(s, a);
    }
    W.CurrentFacts(IdleStep(s, a), a);
  }

  /** Still on the same task, with fewer steps to go. */
  ghost predicate FewerSteps(s: State, s': State, a: nat)
    requires a < |s.workers| && s.workers[a].retired < |s.workers[a].log|
    requires s.workers[a].pc.Busy() && s.workers[a].pc.t < |s.hist|
  {
    var w := s.workers[a];
    && a < |s'.workers| && |s'.hist| == |s.hist| && s'.now == s.now
    && s'.workers[a].pc.Busy() && s'.workers[a].pc.t == w.pc.t
    && BusySteps(s'.workers[a].pc, w.log[w.retired].timeoutMs, s'.hist[w.pc.t].startTick, s.now)
       < BusySteps(w.pc, w.log[w.retired].timeoutMs, s.hist[w.pc.t].startTick, s.now)
  }

  lemma StartUsesOne(s: State, a: nat)
    requires Inv(s) && a < |s.workers|
    requires s.workers[a].pc.MarkRunning? || s.workers[a].pc.AddLoad? || s.workers[a].pc.TestTimeout?
    ensures s.workers[a].retired < |s.workers[a].log| && s.workers[a].pc.t < |s.hist|
    ensures FewerSteps(s, RunStep(s, a), a)
  {
    W.CurrentFacts(s, a);
    assert EntryOk(s, a, s.workers[a].retired);
  }

  /** One turn of the wait loop; the clock test is exact while the uptime fits the counter. A look at
      the state that finds anything but RUNNING ends it. */
  lemma WaitUsesOne(s: State, a: nat)
    requires Inv(s) && Enabled(s, Work(a)) && s.workers[a].pc.InRun() && s.now - s.boot < U64
    requires !s.workers[a].pc.MarkRunning? && !s.workers[a].pc.AddLoad? && !s.workers[a].pc.TestTimeout?
    ensures s.workers[a].retired < |s.workers[a].log| && s.workers[a].pc.t < |s.hist|
    ensures FewerSteps(s, RunStep(s, a), a)
    ensures var pc := s.workers[a].pc;
            pc.CheckState? && pc.t < |s.mem.tasks| && s.mem.tasks[pc.t].state != Running ==>
              RunStep(s, a).workers[a].pc == StampComplete(pc.t)
  {
    hide Inv, AccelOk, SlotOk;
    InvAccel(s, a);
    InvPool(s);
    W.CurrentFacts(s, a);
    var pc := s.workers[a].pc;
    if pc.CheckClock? {
      ElapsedIsExact(s.hist[pc.t].startTick, s.now);
    }
    OneTick();
  }

  lemma OneTick()
    ensures Ticks(1) == 1
  {
  }

  lemma FinishUsesOne(s: State, a: nat)
    requires Inv(s) && a < |s.workers| && s.workers[a].pc.InFinish() && !s.workers[a].pc.RetireTask?
    ensures s.workers[a].retired < |s.workers[a].log| && s.workers[a].pc.t < |s.hist|
    ensures FewerSteps(s, FinishStep(s, a), a)
  {
    hide Inv, Shape, AccelOk, SlotOk, CurrentOk, FinishStep, BusySteps;
    InvShape(s);
    W.CurrentFacts(s, a);
    FinishCounts(s, a, s.workers[a].log[s.workers[a].retired].timeoutMs);
  }

  lemma FinishCounts(s: State, a: nat, ms: nat)
    requires Shape(s) && a < |s.workers| && s.workers[a].pc.InFinish() && !s.workers[a].pc.RetireTask?
    requires s.workers[a].pc.t < |s.hist|
    ensures var s', pc := FinishStep(s, a), s.workers[a].pc;
            && a < |s'.workers| && |s'.hist| == |s.hist| && s'.now == s.now
            && s'.workers[a].pc.Busy() && s'.workers[a].pc.t == pc.t
            && BusySteps(s'.workers[a].pc, ms, s'.hist[pc.t].startTick, s.now) < BusySteps(pc, ms, s.hist[pc.t].startTick, s.now)
  {
    hide Shape, Missing, WaitSteps;
  }

  lemma BusyUsesOne(s: State, a: nat)
    requires Inv(s) && Enabled(s, Work(a)) && s.workers[a].pc.Busy() && !s.workers[a].pc.RetireTask?
    requires s.now - s.boot < U64
    ensures s.workers[a].retired < |s.workers[a].log| && s.workers[a].pc.t < |s.hist|
    ensures FewerSteps(s, WorkStep(s, a), a)
  {
    var pc := s.workers[a].pc;
    if pc.InFinish() {
      FinishUsesOne(s, a);
    } else if pc.MarkRunning? || pc.AddLoad? || pc.TestTimeout? {
      StartUsesOne(s, a);
    } else {
      WaitUsesOne(s, a);
    }
  }

  lemma RetireUsesOne(s: State, a: nat, p: nat)
    requires Inv(s) && Enabled(s, Work(a)) && s.workers[a].pc.RetireTask?
    requires s.workers[a].retired <= p < |s.workers[a].log|
    ensures Inv(WorkStep(s, a)) && |WorkStep(s, a).workers| == |s.workers|
    ensures WorkStep(s, a).workers[a].log == s.workers[a].log
    ensures StepsLeft(WorkStep(s, a), a, p) < StepsLeft(s, a, p)
  {
    W.KeepWork(s, a);
    W.CurrentFacts(s, a);
  }

  lemma WorkUsesOne(s: State, a: nat, p: nat)
    requires Inv(s) && Enabled(s, Work(a)) && s.workers[a].running && s.now - s.boot < U64
    requires s.workers[a].retired <= p < |s.workers[a].log|
    ensures Inv(WorkStep(s, a)) && |WorkStep(s, a).workers| == |s.workers|
    ensures WorkStep(s, a).workers[a].log == s.workers[a].log
    ensures StepsLeft(WorkStep(s, a), a, p) < StepsLeft(s, a, p)
  {
    W.KeepWork(s, a);
    if !s.workers[a].pc.Busy() {
      IdleUsesOne(s, a, p);
    } else if s.workers[a].pc.RetireTask? {
      RetireUsesOne(s, a, p);
    } else {
      F.WorkGrows(s, a, a);
      BusyUsesOne(s, a);
    }
  }

  // ---- Over a run ----

  lemma StepsLeftPositive(s: State, a: nat, p: nat)
    requires Inv(s) && a < |s.workers| && s.workers[a].retired <= p < |s.workers[a].log|
    ensures StepsLeft(s, a, p) > 0
  {
    var w := s.workers[a];
    if w.pc.Busy() {
      W.CurrentFacts(s, a);
    } else {
      QueueStepsSplit(w.log, w.retired, p + 1);
    }
  }

  lemma AnyStep(s: State, e: Event, a: nat, p: nat)
    requires Inv(s) && Enabled(s, e) && a < |s.workers|
    requires s.workers[a].running && s.now - s.boot < U64
    requires s.workers[a].retired <= p < |s.workers[a].log|
    ensures Inv(Apply(s, e)) && |Apply(s, e).workers| == |s.workers| && s.workers[a].log <= Apply(s, e).workers[a].log
    ensures StepsLeft(Apply(s, e), a, p) <= StepsLeft(s, a, p) - (if e == Work(a) then 1 else 0)
  {
    StepInv(s, e);
    StepSizes(s, e);
    F.StepGrows(s, e, a);
    if e == Work(a) {
      WorkUsesOne(s, a, p);
    } else {
      if e.Client? {
        ClientIsBystander(s, e.c, e.copied, a);
      } else if e.Work? {
        OtherWorkerIsBystander(s, e.a, a);
      }
      BystanderAddsNothing(s, Apply(s, e), a, p);
    }
  }

  /** The flag that keeps a worker alive is never set again, and time never runs backwards. */
  lemma RunningBefore(s: State, e: Event, a: nat)
    requires Inv(s) && Enabled(s, e) && a < |s.workers|
    ensures |Apply(s, e).workers| == |s.workers|
    ensures Apply(s, e).workers[a].running ==> s.workers[a].running
    ensures s.now <= Apply(s, e).now && Apply(s, e).boot == s.boot
  {
    hide Inv, WorkStep;
    InvShape(s);
    StepSizes(s, e);
    if e.Client? {
      F.ClientGrows(s, e.c, e.copied, a);
    } else if e.Work? {
      F.WorkGrows(s, e.a, a);
      F.WorkPc(s, e.a);
    }
  }

  /** Steps worker a takes between states i and j. */
  function WorkCount(es: seq<Event>, a: nat, i: nat, j: nat): nat
    requires i <= j <= |es|
  {
    if i == j then 0 else WorkCount(es, a, i, j - 1) + (if es[j - 1] == Work(a) then 1 else 0)
  }

  lemma {:induction false} StepsUsedUp(ss: seq<State>, es: seq<Event>, a: nat, p: nat, i: nat, j: nat)
    requires Run(ss, es) && Inv(ss[0]) && i <= j < |ss|
    requires a < |ss[i].workers| && p < |ss[i].workers[a].log|
    requires a < |ss[j].workers| && ss[j].workers[a].running && ss[j].now - ss[j].boot < U64
    ensures Inv(ss[i]) && Inv(ss[j]) && ss[i].workers[a].log <= ss[j].workers[a].log
    ensures p < ss[j].workers[a].retired
            || StepsLeft(ss[j], a, p) + WorkCount(es, a, i, j) <= StepsLeft(ss[i], a, p)
    decreases j - i
  {
    hide Inv, Apply, Enabled, StepsLeft;
    RunInv(ss, es);
    if i < j {
      var s, e := ss[j - 1], es[j - 1];
      assert Step(s, e, ss[j]);
      SameSizes(ss, es, j - 1);
      SameSizes(ss, es, j);
      RunningBefore(s, e, a);
      StepsUsedUp(ss, es, a, p, i, j - 1);
      F.StepGrows(s, e, a);
      if s.workers[a].retired <= p {
        AnyStep(s, e, a, p);
      }
    }
  }

  /** A task at log position p, waiting in state i, is retired in state j if its worker is still
      meant to run and has taken StepsLeft steps: the time it may take depends on the tasks in
      front only, not on submits, queries, cancels or other workers. The clock is assumed to
      have advanced fewer than 2^64 ticks since boot. */
  lemma BoundedProgress(ss: seq<State>, es: seq<Event>, a: nat, p: nat, i: nat, j: nat)
    requires DriverRun(ss, es) && i <= j < |ss|
    requires a < |ss[i].workers| && p < |ss[i].workers[a].log|
    requires a < |ss[j].workers| && ss[j].workers[a].running && ss[j].now - ss[j].boot < U64
    ensures Inv(ss[i])
    ensures WorkCount(es, a, i, j) >= StepsLeft(ss[i], a, p) ==> p < ss[j].workers[a].retired
  {
    hide Inv;
    DriverInv(ss, es);
    StepsUsedUp(ss, es, a, p, i, j);
    if ss[j].workers[a].retired <= p {
      StepsLeftPositive(ss[j], a, p);
    }
  }

  /** When a sleeping worker wakes. */
  function WakeTime(pc: WorkerPc): nat {
    if pc.Nap? || pc.LongNap? then pc.wakeAt else 0
  }

  /** While `running` stays 1 the worker never leaves its loop, and its next step is possible,
      at the latest once its sleep is over. */
  lemma NeverBlocked(ss: seq<State>, es: seq<Event>, j: nat, a: nat)
    requires DriverRun(ss, es) && j < |ss| && a < |ss[j].workers| && ss[j].workers[a].running
    ensures forall now :: now >= WakeTime(ss[j].workers[a].pc) ==> WorkerReady(ss[j].workers[a].pc, now)
  {
    ExitedMeansStopped(ss, es, j, a);
  }

  lemma {:induction false} ExitedMeansStopped(ss: seq<State>, es: seq<Event>, j: nat, a: nat)
    requires DriverRun(ss, es) && j < |ss| && a < |ss[j].workers|
    ensures ss[j].workers[a].pc.Exited? ==> !ss[j].workers[a].running
  {
    hide Inv, Apply, Enabled;
    if j > 0 {
      DriverInv(ss, es);
      assert Step(ss[j - 1], es[j - 1], ss[j]);
      StepSizes(ss[j - 1], es[j - 1]);
      ExitedMeansStopped(ss, es, j - 1, a);
      ExitStep(ss[j - 1], es[j - 1], a);
    }
  }

  lemma ExitStep(s: State, e: Event, a: nat)
    requires Inv(s) && Enabled(s, e) && a < |s.workers|
    requires s.workers[a].pc.Exited? ==> !s.workers[a].running
    ensures |Apply(s, e).workers| == |s.workers|
    ensures Apply(s, e).workers[a].pc.Exited? ==> !Apply(s, e).workers[a].running
  {
    hide Inv, ClientStep, RunStep, FinishStep;
    StepSizes(s, e);
    if e.Client? {
      F.ClientGrows(s, e.c, e.copied, a);
    } else if e.Work? {
      WorkExits(s, e.a, a);
    }
  }

  lemma WorkExits(s: State, b: nat, a: nat)
    requires Inv(s) && Enabled(s, Work(b)) && a < |s.workers|
    requires s.workers[a].pc.Exited? ==> !s.workers[a].running
    ensures |WorkStep(s, b).workers| == |s.workers|
    ensures WorkStep(s, b).workers[a].pc.Exited? ==> !WorkStep(s, b).workers[a].running
  {
    hide Inv, RunStep, FinishStep;
    InvShape(s);
    F.WorkPc(s, b);
  }
}
