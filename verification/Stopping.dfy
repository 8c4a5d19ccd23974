/** Stopping a worker: accel_stop_workers clears `running` and then calls kthread_stop. What the
    worker does in between, and how soon it is gone afterwards. */
module Stopping {
  import opened Types
  import opened Memory
  import opened Steps
  import opened Invariant
  import opened Runs
  import opened Extensions
  import F = Fifo
  import G = Progress

  // ---- Between the two calls ----

  /** The two places where the worker looks at `running`: the loop's condition and the test after
      the wait. */
  predicate TestsRunning(pc: WorkerPc) {
    pc.Head? || pc.Recheck?
  }

  /** One slot, one accelerator, one caller; the worker is at the head of its loop when `running`
      is cleared, and its next step leaves the loop. */
  const SHORT: seq<Event> := [ClearRunning(0), Work(0)]

  function Stopped(pc: WorkerPc): State {
    State(Mem([ZERO_TASK], [0], 0, [AccelMem([], [], 0)]), [Worker(false, false, pc, [], 0)], [Idle], [NO_HIST], 0, 0)
  }

  /** kthread_stop can be called on a thread whose function has already returned. */
  lemma ReturnsBeforeKthreadStop()
    ensures DriverRun([Init(1, 1, 1, 0), Stopped(Head), Stopped(Exited)], SHORT)
    ensures !Stopped(Exited).workers[0].stop && Enabled(Stopped(Exited), RequestStop(0))
  {
    var s := Init(1, 1, 1, 0);
    assert s.clients == [Idle] && s.hist == [NO_HIST];
    assert s.mem.free == [0] && s.mem.tasks == [ZERO_TASK] && s.mem.accels == [AccelMem([], [], 0)];
    assert s.workers == [Worker(true, false, Head, [], 0)];
    assert Step(s, SHORT[0], Stopped(Head));
    assert Step(Stopped(Head), SHORT[1], Stopped(Exited));
  }

  lemma ExitByTest(s: State, e: Event, a: nat)
    requires Inv(s) && Enabled(s, e) && a < |s.workers| && !s.workers[a].running
    ensures |Apply(s, e).workers| == |s.workers| && !Apply(s, e).workers[a].running
    ensures Apply(s, e).workers[a].pc.Exited?
            <==> s.workers[a].pc.Exited? || (e == Work(a) && TestsRunning(s.workers[a].pc))
  {
    hide Inv, ClientStep, RunStep, FinishStep;
    InvShape(s);
    G.RunningBefore(s, e, a);
    if e.Client? {
      F.ClientGrows(s, e.c, e.copied, a);
    } else if e.Work? {
      F.WorkPc(s, e.a);
    }
  }

  /** Some step of the worker between states i and j looked at `running`. */
  ghost predicate TestedBetween(ss: seq<State>, es: seq<Event>, i: nat, j: nat, a: nat) {
    exists m: nat :: i <= m < j && TestedAt(ss, es, m, a)
  }

  ghost predicate TestedAt(ss: seq<State>, es: seq<Event>, m: nat, a: nat) {
    m < |es| && m < |ss| && es[m] == Work(a) && a < |ss[m].workers| && TestsRunning(ss[m].workers[a].pc)
  }

  /** Once `running` is cleared, the worker is out of its loop exactly if it has looked at the flag
      since. So kthread_stop finds the thread function still in its loop exactly if the worker
      made no such test between the two calls. */
  lemma {:induction false} ExitedIffTested(ss: seq<State>, es: seq<Event>, i: nat, j: nat, a: nat)
    requires DriverRun(ss, es) && i <= j < |ss| && a < |ss[i].workers|
    requires !ss[i].workers[a].running && !ss[i].workers[a].pc.Exited?
    ensures a < |ss[j].workers| && !ss[j].workers[a].running
    ensures ss[j].workers[a].pc.Exited? <==> TestedBetween(ss, es, i, j, a)
    decreases j
  {
    hide Inv, Apply, Enabled, TestsRunning;
    DriverInv(ss, es);
    if i < j {
      ExitedIffTested(ss, es, i, j - 1, a);
      assert Step(ss[j - 1], es[j - 1], ss[j]);
      ExitByTest(ss[j - 1], es[j - 1], a);
      assert TestedAt(ss, es, j - 1, a) <==> es[j - 1] == Work(a) && TestsRunning(ss[j - 1].workers[a].pc);
    }
  }

  /** Nothing in the driver keeps it from making that test: from any moment after `running` was
      cleared the worker can, by its own steps and the passing of time alone, be out of its loop.
      If kthread_stop had not been called by then, it can still be called afterwards. */
  lemma CanReturnOnItsOwn(ss: seq<State>, es: seq<Event>, a: nat)
    returns (ss': seq<State>, es': seq<Event>, more: seq<Event>)
    requires DriverRun(ss, es) && a < |Last(ss).workers| && !Last(ss).workers[a].running
    ensures Continues(ss, es, ss', es', more) && OnlyWorker(more, a)
    ensures a < |Last(ss').workers| && Last(ss').workers[a].pc.Exited?
    ensures Last(ss').workers[a].stop == Last(ss).workers[a].stop
    ensures Enabled(Last(ss'), RequestStop(a))
  {
    hide Inv, DriverRun, Apply, Continues, TestsRunning;
    var m1;
    ss', es', m1 := SettleRun(ss, es, a);
    more := m1;
    if !Last(ss').workers[a].pc.Exited? {
      var ss2, es2 := LeaveLoop(ss', es', a);
      ContinuesTwice(ss, es, ss', es', ss2, es2, m1, [Work(a)]);
      ss', es', more := ss2, es2, m1 + [Work(a)];
    }
  }

  lemma SettleRun(ss: seq<State>, es: seq<Event>, a: nat)
    returns (ss': seq<State>, es': seq<Event>, more: seq<Event>)
    requires DriverRun(ss, es) && a < |Last(ss).workers|
    ensures Continues(ss, es, ss', es', more) && OnlyWorker(more, a) && DriverRun(ss', es') && ss' != []
    ensures Settled(Last(ss), Last(ss'), a)
  {
    hide Inv, DriverRun;
    ss', es', more := Settle(ss, es, a);
  }

  lemma LeaveLoop(ss: seq<State>, es: seq<Event>, a: nat) returns (ss': seq<State>, es': seq<Event>)
    requires DriverRun(ss, es) && a < |Last(ss).workers|
    requires Last(ss).workers[a].pc.Head? && !Last(ss).workers[a].running
    ensures Continues(ss, es, ss', es', [Work(a)]) && ss' != []
    ensures a < |Last(ss').workers| && Last(ss').workers[a] == Last(ss).workers[a].(pc := Exited)
  {
    hide Inv, DriverRun;
    ss', es' := Extend(ss, es, Work(a));
  }

  // ---- After the second call ----

  /** Steps a worker that has been told to stop can still take. */
  function StopSteps(pc: WorkerPc): nat {
    match pc
    case Exited => 0
    case Head => 1
    case Recheck => 1
    case WaitEvent => 2
    case RetireTask(_) => 2
    case Signal(_) => 3
    case DropLoad(_) => 4
    case ClearError(_) => 5
    case MarkComplete(_) => 6
    case StampComplete(_) => 7
    case CheckStop(_, _, _) => 8
    case LongNap(_, _) => 8
    case Nap(_, _, _, _) => 9
    case CheckState(_, _, _) => 10
    case CheckClock(_, _, _) => 11
    case TestTimeout(_) => 12
    case AddLoad(_) => 13
    case MarkRunning(_) => 14
    case Take => 15
  }

  /** 1 if the worker holds a task or is about to take one. */
  function InHand(pc: WorkerPc): nat {
    if pc.Busy() || pc.Take? then 1 else 0
  }

  ghost predicate Told(s: State, a: nat) {
    a < |s.workers| && !s.workers[a].running && s.workers[a].stop
  }

  /** The worker is nearer to its end, and has not taken on more than it had in hand. */
  ghost predicate Winding(s: State, s': State, a: nat, steps: nat) {
    && a < |s.workers| == |s'.workers|
    && StopSteps(s'.workers[a].pc) + steps <= StopSteps(s.workers[a].pc)
    && s'.workers[a].retired + InHand(s'.workers[a].pc) <= s.workers[a].retired + InHand(s.workers[a].pc)
  }

  lemma IdleWinds(s: State, a: nat)
    requires Inv(s) && Enabled(s, Work(a)) && !s.workers[a].pc.Busy() && Told(s, a)
    ensures Winding(s, IdleStep(s, a), a, 1)
  {
    hide Inv;
    InvShape(s);
    F.IdlePc(s, a);
  }

  lemma RunWinds(s: State, a: nat)
    requires Inv(s) && Enabled(s, Work(a)) && s.workers[a].pc.InRun() && Told(s, a)
    ensures Winding(s, RunStep(s, a), a, 1)
  {
    hide Inv;
    InvShape(s);
    F.RunPc(s, a);
  }

  lemma FinishWinds(s: State, a: nat)
    requires Inv(s) && Enabled(s, Work(a)) && s.workers[a].pc.InFinish() && Told(s, a)
    ensures Winding(s, FinishStep(s, a), a, 1)
  {
    hide Inv;
    InvShape(s);
    if s.workers[a].pc.RetireTask? {
      F.RetirePc(s, a);
    } else {
      F.FinishPc(s, a);
    }
  }

  lemma OwnStepWinds(s: State, a: nat)
    requires Inv(s) && Enabled(s, Work(a)) && Told(s, a)
    ensures Winding(s, Apply(s, Work(a)), a, 1)
  {
    hide Inv, IdleStep, RunStep, FinishStep, Winding, Told;
    InvShape(s);
    var pc := s.workers[a].pc;
    if pc.InRun() {
      RunWinds(s, a);
    } else if pc.InFinish() {
      FinishWinds(s, a);
    } else {
      IdleWinds(s, a);
    }
  }

  /** The flags are never taken back, and nobody else touches the worker. */
  lemma OtherStepWinds(s: State, e: Event, a: nat)
    requires Inv(s) && Enabled(s, e) && Told(s, a) && e != Work(a)
    ensures Winding(s, Apply(s, e), a, 0)
  {
    hide Inv, ClientStep, WorkStep, StopSteps;
    InvShape(s);
    if e.Client? {
      F.ClientGrows(s, e.c, e.copied, a);
    } else if e.Work? {
      F.WorkPc(s, e.a);
    }
  }

  lemma StaysTold(s: State, e: Event, a: nat)
    requires Inv(s) && Enabled(s, e) && Told(s, a)
    ensures Told(Apply(s, e), a)
  {
    hide Inv, ClientStep, WorkStep;
    InvShape(s);
    G.RunningBefore(s, e, a);
    if e.Client? {
      StopFlagKept(s, e.c, e.copied, a);
    } else if e.Work? {
      F.WorkPc(s, e.a);
    }
  }

  lemma StopFlagKept(s: State, c: nat, copied: bool, a: nat)
    requires Inv(s) && Enabled(s, Client(c, copied)) && a < |s.workers|
    ensures |ClientStep(s, c, copied).workers| == |s.workers|
    ensures ClientStep(s, c, copied).workers[a].stop == s.workers[a].stop
  {
    hide Inv;
    InvClient(s, c);
  }

  /** A worker that has been told to stop takes at most StopSteps more steps, 15 at the very most,
      whatever its queue holds and whatever else goes on, and completes at most one more task.
      When it has taken them it is out of its loop, so kthread_stop returns. */
  lemma {:induction false} StopIsBounded(ss: seq<State>, es: seq<Event>, i: nat, j: nat, a: nat)
    requires DriverRun(ss, es) && i <= j < |ss| && Told(ss[i], a)
    ensures Told(ss[j], a)
    ensures StopSteps(ss[j].workers[a].pc) + G.WorkCount(es, a, i, j) <= StopSteps(ss[i].workers[a].pc) <= 15
    ensures G.WorkCount(es, a, i, j) == StopSteps(ss[i].workers[a].pc) ==> ss[j].workers[a].pc.Exited?
    ensures ss[j].workers[a].retired <= ss[i].workers[a].retired + InHand(ss[i].workers[a].pc)
    ensures ss[j].workers[a].retired + InHand(ss[j].workers[a].pc) <= ss[i].workers[a].retired + InHand(ss[i].workers[a].pc)
    decreases j
  {
    hide Inv, Apply, Enabled, InHand;
    DriverInv(ss, es);
    if i < j {
      StopIsBounded(ss, es, i, j - 1, a);
      var s, e := ss[j - 1], es[j - 1];
      assert Step(s, e, ss[j]);
      StaysTold(s, e, a);
      if e == Work(a) {
        OwnStepWinds(s, a);
      } else {
        OtherStepWinds(s, e, a);
      }
    }
  }
}
