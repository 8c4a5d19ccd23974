/** The worker's sleeps in the running driver: how long each is, when the deadline ends the wait,
    and what a cancel does to it, whatever other threads do meanwhile. */
module Waits {
  import opened Types
  import opened Memory
  import opened Steps
  import opened Invariant
  import opened Runs
  import F = Fifo
  import G = Progress
  import L = TaskLife
  import W = WorkerPreservation

  // ---- A cancel ends the wait ----

  predicate InWait(pc: WorkerPc) {
    pc.CheckClock? || pc.CheckState? || pc.Nap? || pc.CheckStop?
  }

  /** The worker's own steps from here to its next look at the state, and past it. */
  function StepsToLook(pc: WorkerPc): nat {
    match pc
    case CheckState(_, _, _) => 1
    case CheckClock(_, _, _) => 2
    case CheckStop(_, _, _) => 3
    case Nap(_, _, _, _) => 4
    case _ => 0
  }

  /** Worker a waits for task t to run out, and the task shows CANCELLED. */
  ghost predicate WaitsCancelled(s: State, a: nat, t: nat) {
    && a < |s.workers| && InWait(s.workers[a].pc) && s.workers[a].pc.t == t
    && t < |s.mem.tasks| && s.mem.tasks[t].state == Cancelled
  }

  ghost predicate NapBegins(s: State, s': State, a: nat) {
    a < |s.workers| && a < |s'.workers| && !s.workers[a].pc.Nap? && s'.workers[a].pc.Nap?
  }

  lemma WaitPhase(s: State, a: nat)
    requires Inv(s) && a < |s.workers| && InWait(s.workers[a].pc)
    ensures s.workers[a].pc.t < |s.hist| == |s.mem.tasks| && s.hist[s.workers[a].pc.t].phase.Started?
  {
    hide Inv, AccelOk, SlotOk;
    InvShape(s);
    W.CurrentFacts(s, a);
  }

  lemma OthersLeaveWait(s: State, e: Event, a: nat, t: nat)
    requires Inv(s) && Enabled(s, e) && WaitsCancelled(s, a, t) && e != Work(a)
    ensures WaitsCancelled(Apply(s, e), a, t) && Apply(s, e).workers[a].pc == s.workers[a].pc
  {
    hide Inv, ClientStep, WorkStep;
    InvShape(s);
    WaitPhase(s, a);
    L.StatesStep(s, e, t);
    if e.Client? {
      F.ClientGrows(s, e.c, e.copied, a);
    } else if e.Work? {
      F.WorkPc(s, e.a);
    }
  }

  lemma OwnStepEndsWait(s: State, a: nat, t: nat)
    requires Inv(s) && Enabled(s, Work(a)) && WaitsCancelled(s, a, t)
    ensures var s' := Apply(s, Work(a));
            && !NapBegins(s, s', a) && a < |s'.workers|
            && StepsToLook(s'.workers[a].pc) < StepsToLook(s.workers[a].pc)
            && (s'.workers[a].pc == StampComplete(t) || WaitsCancelled(s', a, t))
  {
    hide Inv;
    InvShape(s);
  }

  /** In state n the worker has ended the wait it was in in state i, by that many of its own steps at
      most and without starting another sleep. */
  ghost predicate EndedAt(ss: seq<State>, es: seq<Event>, i: nat, n: nat, a: nat, t: nat) {
    && i <= n < |ss| && n <= |es| && a < |ss[i].workers| && a < |ss[n].workers|
    && ss[n].workers[a].pc == StampComplete(t)
    && G.WorkCount(es, a, i, n) <= StepsToLook(ss[i].workers[a].pc)
    && NoNapBegins(ss, i, n, a)
  }

  ghost predicate NoNapBegins(ss: seq<State>, i: nat, n: nat, a: nat) {
    forall m :: i <= m < n && m + 1 < |ss| ==> !NapBegins(ss[m], ss[m + 1], a)
  }

  /** Until then it is waiting still, and every step of its own has brought it nearer. */
  ghost predicate EndingAt(ss: seq<State>, es: seq<Event>, i: nat, j: nat, a: nat, t: nat) {
    && i <= j < |ss| && j <= |es| && a < |ss[i].workers|
    && WaitsCancelled(ss[j], a, t)
    && G.WorkCount(es, a, i, j) + StepsToLook(ss[j].workers[a].pc) <= StepsToLook(ss[i].workers[a].pc)
    && NoNapBegins(ss, i, j, a)
  }

  lemma {:induction false} EndsOrEnding(ss: seq<State>, es: seq<Event>, i: nat, j: nat, a: nat, t: nat)
    requires DriverRun(ss, es) && i <= j < |ss| && WaitsCancelled(ss[i], a, t)
    ensures EndingAt(ss, es, i, j, a, t) || exists n :: i <= n <= j && EndedAt(ss, es, i, n, a, t)
    decreases j
  {
    hide Inv, Apply, Enabled, WaitsCancelled, StepsToLook, NapBegins;
    DriverInv(ss, es);
    if i == j {
      WaitsHere(ss[i], a, t);
    } else {
      EndsOrEnding(ss, es, i, j - 1, a, t);
      if EndingAt(ss, es, i, j - 1, a, t) {
        OneMoreStep(ss, es, i, j, a, t);
      } else {
        var n :| i <= n <= j - 1 && EndedAt(ss, es, i, n, a, t);
        assert n <= j;
      }
    }
  }

  lemma WaitsHere(s: State, a: nat, t: nat)
    requires WaitsCancelled(s, a, t)
    ensures a < |s.workers|
  {
  }

  lemma OneMoreStep(ss: seq<State>, es: seq<Event>, i: nat, j: nat, a: nat, t: nat)
    requires DriverRun(ss, es) && i < j < |ss| && EndingAt(ss, es, i, j - 1, a, t)
    ensures EndingAt(ss, es, i, j, a, t) || EndedAt(ss, es, i, j, a, t)
  {
    hide Inv, Apply, Enabled, StepsToLook;
    DriverInv(ss, es);
    var s, e := ss[j - 1], es[j - 1];
    assert Step(s, e, ss[j]);
    if e == Work(a) {
      OwnStepEndsWait(s, a, t);
    } else {
      OthersLeaveWait(s, e, a, t);
    }
  }

  /** In every run: once the task a worker waits for shows CANCELLED, the worker starts no further
      sleep, and after four of its own steps at most (one to leave the sleep it is in, and one each to
      look at the stop flag, the clock and the state) it is taking the completion time, whatever
      ticks, callers and other workers come in between. */
  lemma CancelEndsWait(ss: seq<State>, es: seq<Event>, i: nat, j: nat, a: nat, t: nat)
    requires DriverRun(ss, es) && i <= j < |ss| && j <= |es| && WaitsCancelled(ss[i], a, t)
    ensures NoNapBegins(ss, i, j, a) || exists n :: i <= n <= j && EndedAt(ss, es, i, n, a, t)
    ensures G.WorkCount(es, a, i, j) >= 4 ==> exists n :: i <= n <= j && EndedAt(ss, es, i, n, a, t)
    ensures 1 <= StepsToLook(ss[i].workers[a].pc) <= 4
  {
    hide DriverRun, NoNapBegins;
    EndsOrEnding(ss, es, i, j, a, t);
    if EndingAt(ss, es, i, j, a, t) {
      assert StepsToLook(ss[j].workers[a].pc) >= 1;
    } else {
      var n :| i <= n <= j && EndedAt(ss, es, i, n, a, t);
    }
  }

  // ---- How long a sleep is ----

  lemma NapStep(s: State, e: Event, a: nat)
    requires Inv(s) && Enabled(s, e) && a < |s.workers| && NapBegins(s, Apply(s, e), a)
    ensures e == Work(a) && s.workers[a].pc.CheckState? && s.workers[a].pc.t < |s.mem.tasks|
    ensures s.mem.tasks[s.workers[a].pc.t].state == Running
    ensures Apply(s, e).workers[a].pc.wakeAt == s.now + Ticks(1)
  {
    hide Inv, ClientStep;
    InvAccel(s, a);
    if e.Client? {
      F.ClientGrows(s, e.c, e.copied, a);
    } else if e.Work? {
      F.WorkPc(s, e.a);
    }
  }

  /** A sleep of the wait loop is entered only from a look at the state that found RUNNING, and asks
      for one millisecond, rounded up to a tick. */
  lemma NapIsOneMillisecond(ss: seq<State>, es: seq<Event>, i: nat, a: nat)
    requires DriverRun(ss, es) && i < |es| && NapBegins(ss[i], ss[i + 1], a)
    ensures es[i] == Work(a) && ss[i].workers[a].pc.CheckState? && ss[i].workers[a].pc.t < |ss[i].mem.tasks|
    ensures ss[i].mem.tasks[ss[i].workers[a].pc.t].state == Running
    ensures HZ <= 1000 * (ss[i + 1].workers[a].pc.wakeAt - ss[i].now) < HZ + 1000
  {
    hide Inv, Apply, Enabled;
    DriverInv(ss, es);
    assert Step(ss[i], es[i], ss[i + 1]);
    NapStep(ss[i], es[i], a);
    TicksAreMilliseconds(1);
  }

  /** What the worker does next is decided by the timeout: without one it sleeps for ten
      milliseconds, with one it goes into the wait loop. */
  lemma TimeoutDecides(ss: seq<State>, es: seq<Event>, i: nat, a: nat)
    requires DriverRun(ss, es) && i < |es| && es[i] == Work(a) && a < |ss[i].workers| && ss[i].workers[a].pc.TestTimeout?
    ensures a < |ss[i + 1].workers| && ss[i].workers[a].pc.t < |ss[i].mem.tasks|
    ensures var ms, pc' := ss[i].mem.tasks[ss[i].workers[a].pc.t].timeoutMs, ss[i + 1].workers[a].pc;
            && (ms == 0 ==> pc'.LongNap? && 10 * HZ <= 1000 * (pc'.wakeAt - ss[i].now) < 10 * HZ + 1000)
            && (ms > 0 ==> pc'.CheckClock?)
  {
    hide Inv;
    DriverInv(ss, es);
    assert Step(ss[i], es[i], ss[i + 1]);
    InvAccel(ss[i], a);
    TicksAreMilliseconds(10);
  }

  /** A look at the clock ends the wait once the timeout has passed, and not before: exactly in
      ticks, and within one tick in milliseconds. */
  lemma ClockEndsWait(ss: seq<State>, es: seq<Event>, i: nat, a: nat)
    requires DriverRun(ss, es) && i < |es| && es[i] == Work(a) && a < |ss[i].workers| && ss[i].workers[a].pc.CheckClock?
    requires ss[i].now - ss[i].boot < 0x1_0000_0000_0000_0000
    ensures a < |ss[i + 1].workers| && ss[i].workers[a].pc.t < |ss[i].hist| == |ss[i].mem.tasks|
    ensures var t, pc' := ss[i].workers[a].pc.t, ss[i + 1].workers[a].pc;
            var ms, elapsed := ss[i].mem.tasks[t].timeoutMs, ss[i].now - ss[i].hist[t].startTick;
            && (pc'.StampComplete? || pc'.CheckState?)
            && (pc'.StampComplete? ==> 1000 * elapsed >= ms * HZ)
            && (pc'.CheckState? && ms < 0x8000_0000 ==> 1000 * elapsed < ms * HZ + 1000)
  {
    hide Inv, AccelOk, SlotOk;
    DriverInv(ss, es);
    var s := ss[i];
    assert Step(s, es[i], ss[i + 1]);
    InvAccel(s, a);
    W.CurrentFacts(s, a);
    var t := s.workers[a].pc.t;
    ElapsedIsExact(s.hist[t].startTick, s.now);
    TicksAreMilliseconds(s.mem.tasks[t].timeoutMs);
    TicksAtLeast(s.mem.tasks[t].timeoutMs);
  }
}
