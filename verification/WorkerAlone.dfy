/** The worker program of the step system, undisturbed by callers, computes the whole iteration
    that the imperative WorkerIteration is proved to compute when no cancel writes. */
module WorkerAlone {
  import opened Types
  import opened Memory
  import opened Calls
  import opened Steps
  import opened Invariant
  import opened Runs
  import W = WorkerPreservation

  /** Steps of worker a, of the clock and of whoever asks it to stop; no caller, no other worker. */
  predicate Quiet(e: Event, a: nat) {
    e.Tick? || e == Work(a) || e.ClearRunning? || e.RequestStop?
  }

  // ---- The iteration, effect by effect ----

  ghost predicate CanTake(m: Mem, a: nat, t: nat) {
    a < |m.accels| && m.accels[a].queue != [] && m.accels[a].queue[0] == t < |m.tasks|
  }

  function Begun(m: Mem, a: nat, t: nat): Mem
    requires CanTake(m, a, t)
  {
    SetLoad(SetState(Dequeue(m, a), t, Running), a, RaisedLoad(m.accels[a].load))
  }

  function Ended(m: Mem, a: nat, t: nat, j: nat): Mem
    requires CanTake(m, a, t)
  {
    SetError(SetState(SetComplete(Begun(m, a, t), t, j), t, Complete), t, 0)
  }

  /** Shared memory while worker a, which took t from memory m, is at pc; j is the jiffies value
      it has stamped, once it has. */
  ghost predicate Stage(m: Mem, s: State, a: nat, t: nat)
    requires CanTake(m, a, t)
  {
    a < |s.workers| && t < |s.hist| && s.workers[a].pc.Busy() && s.workers[a].pc.t == t &&
    var j := Jiffies(s.hist[t].doneTick);
    match s.workers[a].pc
    case MarkRunning(_) => s.mem == Dequeue(m, a)
    case AddLoad(_) => s.mem == SetState(Dequeue(m, a), t, Running)
    case MarkComplete(_) => s.mem == SetComplete(Begun(m, a, t), t, j)
    case ClearError(_) => s.mem == SetState(SetComplete(Begun(m, a, t), t, j), t, Complete)
    case DropLoad(_) => s.mem == Ended(m, a, t, j)
    case Signal(_) => s.mem == SetLoad(Ended(m, a, t, j), a, LoweredLoad(Ended(m, a, t, j).accels[a].load))
    case RetireTask(_) =>
      s.mem == SetDone(SetLoad(Ended(m, a, t, j), a, LoweredLoad(Ended(m, a, t, j).accels[a].load)), t)
    case _ => s.mem == Begun(m, a, t)
  }

  lemma RunStage(m: Mem, s: State, a: nat, t: nat)
    requires CanTake(m, a, t) && Inv(s) && a < |s.workers| && s.workers[a].pc.InRun() && Stage(m, s, a, t)
    ensures Stage(m, RunStep(s, a), a, t)
  {
    hide Inv, Retire, SetDone, Ticks, JiffiesSince, Jiffies, MinRun, AccelOk;
    InvShape(s);
    assert WorkerShape(s, s.workers[a].pc);
  }

  lemma StampStage(m: Mem, s: State, a: nat, t: nat)
    requires CanTake(m, a, t) && Inv(s) && a < |s.workers| && Stage(m, s, a, t)
    requires s.workers[a].pc.StampComplete? || s.workers[a].pc.MarkComplete?
    ensures Stage(m, FinishStep(s, a), a, t)
  {
    hide Inv, Dequeue, SetLoad, Retire, SetDone, Jiffies, Begun, RaisedLoad, LoweredLoad;
    InvShape(s);
  }

  lemma ClearStage(m: Mem, s: State, a: nat, t: nat)
    requires CanTake(m, a, t) && Inv(s) && a < |s.workers| && Stage(m, s, a, t) && s.workers[a].pc.ClearError?
    ensures Stage(m, FinishStep(s, a), a, t)
  {
    hide Inv, Dequeue, SetLoad, Retire, SetDone, Jiffies, Begun, RaisedLoad, LoweredLoad;
    InvShape(s);
  }

  lemma DropStage(m: Mem, s: State, a: nat, t: nat)
    requires CanTake(m, a, t) && Inv(s) && a < |s.workers| && Stage(m, s, a, t)
    requires s.workers[a].pc.DropLoad? || s.workers[a].pc.Signal?
    ensures Stage(m, FinishStep(s, a), a, t)
  {
    hide Inv, Dequeue, SetState, SetError, SetComplete, Retire, Jiffies;
    InvAccel(s, a);
  }

  lemma FinishStage(m: Mem, s: State, a: nat, t: nat)
    requires CanTake(m, a, t) && Inv(s) && a < |s.workers| && s.workers[a].pc.InFinish() && !s.workers[a].pc.RetireTask?
    requires Stage(m, s, a, t)
    ensures Stage(m, FinishStep(s, a), a, t)
  {
    hide Inv, Stage;
    InvShape(s);
    if s.workers[a].pc.DropLoad? || s.workers[a].pc.Signal? {
      DropStage(m, s, a, t);
    } else if s.workers[a].pc.ClearError? {
      ClearStage(m, s, a, t);
    } else {
      StampStage(m, s, a, t);
    }
  }

  lemma QuietStage(m: Mem, s: State, e: Event, a: nat, t: nat)
    requires CanTake(m, a, t) && Inv(s) && Enabled(s, e) && Quiet(e, a) && Stage(m, s, a, t)
    requires e == Work(a) ==> !s.workers[a].pc.RetireTask?
    ensures Stage(m, Apply(s, e), a, t)
  {
    hide Inv, RunStep, FinishStep;
    InvShape(s);
    if e == Work(a) {
      if s.workers[a].pc.InRun() {
        RunStage(m, s, a, t);
      } else {
        FinishStage(m, s, a, t);
      }
    }
  }

  /** From the step that takes a task to the step that retires it. */
  ghost predicate OneIteration(ss: seq<State>, es: seq<Event>, i: nat, j: nat, a: nat) {
    && DriverRun(ss, es) && i < j < |es|
    && a < |ss[i].workers| && a < |ss[j].workers|
    && ss[i].workers[a].pc.Take? && |ss[i].mem.accels| == |ss[i].workers| && ss[i].mem.accels[a].queue != []
    && es[i] == Work(a)
    && (forall k :: i < k <= j ==> Quiet(es[k], a))
    && (forall k :: i < k < j ==> (es[k] == Work(a) ==> a < |ss[k].workers| && !ss[k].workers[a].pc.RetireTask?))
    && es[j] == Work(a) && ss[j].workers[a].pc.RetireTask?
  }

  lemma TakeStage(s: State, a: nat)
    requires Inv(s) && Enabled(s, Work(a)) && s.workers[a].pc.Take? && s.mem.accels[a].queue != []
    ensures CanTake(s.mem, a, s.mem.accels[a].queue[0])
    ensures Stage(s.mem, WorkStep(s, a), a, s.mem.accels[a].queue[0])
  {
    hide Inv;
    InvAccel(s, a);
  }

  lemma {:induction false} StageHolds(ss: seq<State>, es: seq<Event>, i: nat, k: nat, j: nat, a: nat)
    requires OneIteration(ss, es, i, j, a) && i < k <= j
    ensures var t := ss[i].mem.accels[a].queue[0];
            CanTake(ss[i].mem, a, t) && Stage(ss[i].mem, ss[k], a, t)
    decreases k
  {
    hide Inv, Apply, Stage, CanTake;
    DriverInv(ss, es);
    assert Step(ss[k - 1], es[k - 1], ss[k]);
    if k == i + 1 {
      TakeApplied(ss[i], a);
    } else {
      StageHolds(ss, es, i, k - 1, j, a);
      assert Quiet(es[k - 1], a);
      QuietStage(ss[i].mem, ss[k - 1], es[k - 1], a, ss[i].mem.accels[a].queue[0]);
    }
  }

  lemma TakeApplied(s: State, a: nat)
    requires Inv(s) && Enabled(s, Work(a)) && a < |s.mem.accels|
    requires s.workers[a].pc.Take? && s.mem.accels[a].queue != []
    ensures CanTake(s.mem, a, s.mem.accels[a].queue[0])
    ensures Stage(s.mem, Apply(s, Work(a)), a, s.mem.accels[a].queue[0])
  {
    TakeStage(s, a);
  }

  /** However many ticks and stop requests fall into it, an iteration without interference from
      callers turns the memory it started from into IterationCall of it. */
  lemma WorkerAloneIterates(ss: seq<State>, es: seq<Event>, i: nat, j: nat, a: nat)
    requires OneIteration(ss, es, i, j, a)
    ensures ss[i].mem.accels[a].queue[0] < |ss[i].mem.tasks| && ss[i].mem.accels[a].queue[0] < |ss[j].hist|
    ensures ss[j + 1].mem == IterationCall(ss[i].mem, a, Jiffies(ss[j].hist[ss[i].mem.accels[a].queue[0]].doneTick))
  {
    hide Inv;
    DriverInv(ss, es);
    StageHolds(ss, es, i, j, j, a);
    assert Step(ss[j], es[j], ss[j + 1]);
    InvAccel(ss[j], a);
  }
}
