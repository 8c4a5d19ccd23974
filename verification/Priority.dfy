/** Queues are first in, first out, so a task's priority decides nothing. When the order in which a
    worker takes its tasks nevertheless agrees with their priorities, and a run in which it does not. */
module Priority {
  import opened Types
  import opened Memory
  import opened Calls
  import opened Steps
  import opened Invariant
  import opened Runs
  import opened Extensions
  import opened Alone
  import F = Fifo
  import N = Answers
  import P = Placement
  import T = Timing

  /** The log position of the next task the worker will take. */
  function First(w: Worker): nat {
    w.retired + ActiveCount(w.pc)
  }

  predicate Takes(s: State, e: Event, a: nat) {
    a < |s.workers| && a < |s.mem.accels| && e == Work(a) && s.workers[a].pc.Take? && s.mem.accels[a].queue != []
  }

  lemma FirstStep(s: State, e: Event, a: nat)
    requires Inv(s) && Enabled(s, e) && a < |s.workers|
    ensures |Apply(s, e).workers| == |s.workers|
    ensures First(Apply(s, e).workers[a]) == First(s.workers[a]) + if Takes(s, e, a) then 1 else 0
  {
    hide Inv, ClientStep, RunStep, FinishStep;
    InvShape(s);
    F.StepGrows(s, e, a);
    if e.Client? {
      F.ClientGrows(s, e.c, e.copied, a);
    } else if e.Work? {
      F.WorkPc(s, e.a);
    }
  }

  /** An enqueue records how many tasks wait, that is, all from First on. */
  lemma LogStep(s: State, e: Event, a: nat)
    requires Inv(s) && Enabled(s, e) && a < |s.workers|
    ensures |Apply(s, e).workers| == |s.workers|
    ensures var log, log' := s.workers[a].log, Apply(s, e).workers[a].log;
            || log' == log
            || (|log'| == |log| + 1 && log <= log' && log'[|log|].ahead + First(s.workers[a]) == |log|)
  {
    hide Inv, WorkStep, SubmitStep, ScanStep;
    InvAccel(s, a);
    if e.Client? {
      LogClientStep(s, e.c, e.copied, a);
    } else if e.Work? {
      F.WorkGrows(s, e.a, a);
    }
  }

  lemma LogClientStep(s: State, c: nat, copied: bool, a: nat)
    requires Inv(s) && Enabled(s, Client(c, copied)) && a < |s.workers|
    ensures |ClientStep(s, c, copied).workers| == |s.workers|
    ensures var log, log' := s.workers[a].log, ClientStep(s, c, copied).workers[a].log;
            || log' == log
            || (|log'| == |log| + 1 && log <= log' && log'[|log|].ahead + First(s.workers[a]) == |log|)
  {
    hide Inv;
    InvClient(s, c);
    InvAccel(s, a);
  }

  /** Between two states: First only grows, and whoever arrives after state i was not ahead of, and
      did not wait together with, anything taken before. */
  lemma {:induction false} LaterArrivals(ss: seq<State>, es: seq<Event>, i: nat, n: nat, a: nat)
    requires DriverRun(ss, es) && i <= n < |ss| && a < |ss[i].workers|
    ensures a < |ss[n].workers| && ss[i].workers[a].log <= ss[n].workers[a].log
    ensures First(ss[i].workers[a]) <= First(ss[n].workers[a])
    ensures forall j :: |ss[i].workers[a].log| <= j < |ss[n].workers[a].log| ==>
              First(ss[i].workers[a]) + ss[n].workers[a].log[j].ahead <= j
    decreases n
  {
    hide Inv, Apply, Enabled, First;
    DriverInv(ss, es);
    if i < n {
      LaterArrivals(ss, es, i, n - 1, a);
      assert Step(ss[n - 1], es[n - 1], ss[n]);
      FirstStep(ss[n - 1], es[n - 1], a);
      LogStep(ss[n - 1], es[n - 1], a);
    }
  }

  /** Whatever waits has waited since before every later arrival. */
  lemma {:induction false} WaitersWereAhead(ss: seq<State>, es: seq<Event>, n: nat, a: nat)
    requires DriverRun(ss, es) && n < |ss| && a < |ss[n].workers|
    ensures forall j :: 0 <= j < |ss[n].workers[a].log| ==> j <= First(ss[n].workers[a]) + ss[n].workers[a].log[j].ahead
    decreases n
  {
    hide Inv, Apply, Enabled, First;
    DriverInv(ss, es);
    if n > 0 {
      assert Step(ss[n - 1], es[n - 1], ss[n]);
      SameSizes(ss, es, n - 1);
      SameSizes(ss, es, n);
      WaitersWereAhead(ss, es, n - 1, a);
      FirstStep(ss[n - 1], es[n - 1], a);
      LogStep(ss[n - 1], es[n - 1], a);
    }
  }

  /** Every position below First was taken by some step. */
  lemma {:induction false} WasTaken(ss: seq<State>, es: seq<Event>, n: nat, a: nat, k: nat) returns (i: nat)
    requires DriverRun(ss, es) && n < |ss| && a < |ss[n].workers| && k < First(ss[n].workers[a])
    ensures i < n && Takes(ss[i], es[i], a) && First(ss[i].workers[a]) == k
    decreases n
  {
    hide Inv, Apply, Enabled, First, Takes;
    DriverInv(ss, es);
    SameSizes(ss, es, n);
    NothingTakenYet(ss[0], a);
    assert Step(ss[n - 1], es[n - 1], ss[n]);
    SameSizes(ss, es, n - 1);
    FirstStep(ss[n - 1], es[n - 1], a);
    if k < First(ss[n - 1].workers[a]) {
      i := WasTaken(ss, es, n - 1, a, k);
    } else {
      i := n - 1;
    }
  }

  lemma NothingTakenYet(s: State, a: nat)
    requires s == Init(|s.mem.tasks|, |s.workers|, |s.clients|, s.boot) && a < |s.workers|
    ensures First(s.workers[a]) == 0
  {
  }

  // ---- Priorities ----

  lemma PriorityStep(s: State, e: Event, t: nat)
    requires Inv(s) && Enabled(s, e) && t < |s.hist| && s.hist[t].phase.Logged()
    ensures |Apply(s, e).mem.tasks| == |s.mem.tasks| && t < |s.mem.tasks|
    ensures Apply(s, e).mem.tasks[t].priority == s.mem.tasks[t].priority
  {
    hide Inv, Apply;
    InvShape(s);
    if e.Client? {
      InvClient(s, e.c);
    }
    N.DescriptionKept(s, e, t);
  }

  lemma {:induction false} PriorityKept(ss: seq<State>, es: seq<Event>, i: nat, n: nat, t: nat)
    requires DriverRun(ss, es) && i <= n < |ss| && t < |ss[i].hist| && ss[i].hist[t].phase.Logged()
    ensures t < |ss[i].mem.tasks| && t < |ss[n].mem.tasks|
    ensures ss[n].mem.tasks[t].priority == ss[i].mem.tasks[t].priority
    decreases n
  {
    hide Inv, Apply, Enabled;
    DriverInv(ss, es);
    InvShape(ss[i]);
    if i < n {
      PriorityKept(ss, es, i, n - 1, t);
      assert Step(ss[n - 1], es[n - 1], ss[n]);
      N.L.RunEvolves(ss, es, i, n - 1, t);
      PriorityStep(ss[n - 1], es[n - 1], t);
    }
  }

  /** The task about to be taken has the highest priority of all that wait. */
  ghost predicate TakesMostUrgent(s: State, a: nat)
    requires Shape(s) && a < |s.workers| && s.mem.accels[a].queue != []
  {
    var queue := s.mem.accels[a].queue;
    AccelShape(s.mem, a) ==>
      forall d :: 0 <= d < |queue| ==> s.mem.tasks[queue[d]].priority <= s.mem.tasks[queue[0]].priority
  }

  /** Up to state n every task was taken in the order of priorities. */
  ghost predicate RespectsPriority(ss: seq<State>, es: seq<Event>, n: nat, a: nat) {
    forall i :: 0 <= i < n && i < |es| && i < |ss| && Takes(ss[i], es[i], a) && Shape(ss[i]) ==> TakesMostUrgent(ss[i], a)
  }

  /** Tasks that waited together arrived in the order of priorities, as far as the first of them was
      taken by state s. This can be read off the enqueue log. */
  ghost predicate ArrivedInOrder(s: State, a: nat)
    requires T.LogShape(s, a) && |s.mem.tasks| == |s.hist|
  {
    var log := s.workers[a].log;
    forall k, j :: 0 <= k < j < |log| && k < First(s.workers[a]) && T.AheadOf(log, k, j) ==>
      s.mem.tasks[log[k].slot].priority >= s.mem.tasks[log[j].slot].priority
  }

  /** Log position of the d-th waiting task. */
  lemma QueueIsLog(s: State, a: nat, j: nat)
    requires Inv(s) && a < |s.workers| && First(s.workers[a]) <= j < |s.workers[a].log|
    ensures var d := j - First(s.workers[a]);
            && d < |s.mem.accels[a].queue| && s.mem.accels[a].queue[d] == s.workers[a].log[j].slot < |s.hist|
            && s.hist[s.workers[a].log[j].slot].phase.Logged()
  {
    hide Inv;
    InvAccel(s, a);
    assert EntryOk(s, a, j);
  }

  lemma QueueLength(s: State, a: nat)
    requires Inv(s) && a < |s.workers|
    ensures First(s.workers[a]) + |s.mem.accels[a].queue| == |s.workers[a].log|
  {
    hide Inv;
    InvAccel(s, a);
  }

  /** A task that waited together with a later one was taken when that one was in the queue. */
  lemma TakenTogether(ss: seq<State>, es: seq<Event>, n: nat, a: nat, k: nat, j: nat) returns (i: nat)
    requires DriverRun(ss, es) && n < |ss| && a < |ss[n].workers|
    requires k < j < |ss[n].workers[a].log| && k < First(ss[n].workers[a]) && T.AheadOf(ss[n].workers[a].log, k, j)
    ensures i < n && Takes(ss[i], es[i], a) && First(ss[i].workers[a]) == k
    ensures j < |ss[i].workers[a].log| && ss[i].workers[a].log <= ss[n].workers[a].log
  {
    hide Inv, Apply, Enabled, First, Takes;
    DriverInv(ss, es);
    i := WasTaken(ss, es, n, a, k);
    assert Step(ss[i], es[i], ss[i + 1]);
    TakesHere(ss[i], es[i], a);
    FirstStep(ss[i], es[i], a);
    TakeIsWork(ss[i], es[i], a);
    LaterArrivals(ss, es, i, n, a);
    LaterArrivals(ss, es, i + 1, n, a);
  }

  lemma TakesHere(s: State, e: Event, a: nat)
    requires Takes(s, e, a)
    ensures a < |s.workers|
  {
  }

  lemma OrderWhenTaken(ss: seq<State>, es: seq<Event>, n: nat, a: nat, k: nat, j: nat)
    requires DriverRun(ss, es) && n < |ss| && a < |ss[n].workers| && RespectsPriority(ss, es, n, a)
    requires k < j < |ss[n].workers[a].log| && k < First(ss[n].workers[a]) && T.AheadOf(ss[n].workers[a].log, k, j)
    ensures T.LogShape(ss[n], a) && |ss[n].mem.tasks| == |ss[n].hist|
    ensures var log := ss[n].workers[a].log;
            ss[n].mem.tasks[log[k].slot].priority >= ss[n].mem.tasks[log[j].slot].priority
  {
    hide Inv, Apply, Enabled, First, TakesMostUrgent, T.AheadOf, Shape, T.TimeOk;
    DriverInv(ss, es);
    T.RunTimes(ss, es, n, a);
    HasLogShape(ss[n], a);
    var i := TakenTogether(ss, es, n, a, k, j);
    InvAccel(ss[i], a);
    QueueIsLog(ss[i], a, k);
    QueueIsLog(ss[i], a, j);
    PriorityKept(ss, es, i, n, ss[i].workers[a].log[k].slot);
    PriorityKept(ss, es, i, n, ss[i].workers[a].log[j].slot);
    MostUrgent(ss[i], a, j - k);
  }

  lemma HasLogShape(s: State, a: nat)
    requires Inv(s) && T.TimeOk(s, a)
    ensures T.LogShape(s, a) && |s.mem.tasks| == |s.hist|
  {
  }

  lemma TakeIsWork(s: State, e: Event, a: nat)
    requires Inv(s) && Enabled(s, e) && Takes(s, e, a)
    ensures |Apply(s, e).workers| == |s.workers| && Apply(s, e).workers[a].log == s.workers[a].log
  {
    hide Inv, WorkStep;
    InvShape(s);
    F.WorkGrows(s, a, a);
  }

  lemma MostUrgent(s: State, a: nat, d: nat)
    requires Shape(s) && a < |s.workers| && AccelShape(s.mem, a) && d < |s.mem.accels[a].queue| && TakesMostUrgent(s, a)
    ensures s.mem.tasks[s.mem.accels[a].queue[d]].priority <= s.mem.tasks[s.mem.accels[a].queue[0]].priority
  {
  }

  lemma UrgentIfInOrder(ss: seq<State>, es: seq<Event>, n: nat, a: nat, i: nat)
    requires DriverRun(ss, es) && n < |ss| && a < |ss[n].workers| && i < n && i < |es| && Takes(ss[i], es[i], a)
    requires Shape(ss[i]) && T.LogShape(ss[n], a) && |ss[n].mem.tasks| == |ss[n].hist| && ArrivedInOrder(ss[n], a)
    ensures TakesMostUrgent(ss[i], a)
  {
    hide Inv, Apply, Enabled;
    DriverInv(ss, es);
    var s, queue := ss[i], ss[i].mem.accels[a].queue;
    var k := First(s.workers[a]);
    LaterArrivals(ss, es, i, n, a);
    TakenIsPast(ss, es, i, n, a);
    WaitersWereAhead(ss, es, i, a);
    QueueLength(s, a);
    QueueIsLog(s, a, k);
    forall d | 0 <= d < |queue| ensures queue[d] < |s.mem.tasks| && queue[0] < |s.mem.tasks|
                                        && s.mem.tasks[queue[d]].priority <= s.mem.tasks[queue[0]].priority {
      QueueIsLog(s, a, k + d);
      PriorityKept(ss, es, i, n, queue[0]);
      PriorityKept(ss, es, i, n, queue[d]);
      if d > 0 {
        assert ss[n].workers[a].log[k + d] == s.workers[a].log[k + d];
        assert T.AheadOf(ss[n].workers[a].log, k, k + d);
      }
    }
  }

  lemma TakenIsPast(ss: seq<State>, es: seq<Event>, i: nat, n: nat, a: nat)
    requires DriverRun(ss, es) && i < n < |ss| && a < |ss[i].workers| && Takes(ss[i], es[i], a)
    ensures a < |ss[n].workers| && First(ss[i].workers[a]) < First(ss[n].workers[a])
  {
    hide Inv, Apply, Enabled, First;
    DriverInv(ss, es);
    assert Step(ss[i], es[i], ss[i + 1]);
    FirstStep(ss[i], es[i], a);
    LaterArrivals(ss, es, i + 1, n, a);
  }

  /** The worker takes tasks in the order of their priorities, in a given run, exactly if those that
      had to wait together arrived in that order: the queue itself never reorders them. */
  lemma PriorityIffArrivalOrder(ss: seq<State>, es: seq<Event>, n: nat, a: nat)
    requires DriverRun(ss, es) && n < |ss| && a < |ss[n].workers|
    ensures T.LogShape(ss[n], a) && |ss[n].mem.tasks| == |ss[n].hist|
    ensures RespectsPriority(ss, es, n, a) <==> ArrivedInOrder(ss[n], a)
  {
    hide Inv, Apply, Enabled, First, TakesMostUrgent, T.AheadOf;
    DriverInv(ss, es);
    InvShape(ss[n]);
    T.RunTimes(ss, es, n, a);
    if RespectsPriority(ss, es, n, a) {
      var log := ss[n].workers[a].log;
      forall k, j | 0 <= k < j < |log| && k < First(ss[n].workers[a]) && T.AheadOf(log, k, j)
        ensures ss[n].mem.tasks[log[k].slot].priority >= ss[n].mem.tasks[log[j].slot].priority
      {
        OrderWhenTaken(ss, es, n, a, k, j);
      }
    }
    if ArrivedInOrder(ss[n], a) {
      forall i | 0 <= i < n && i < |es| && i < |ss| && Takes(ss[i], es[i], a) && Shape(ss[i])
        ensures TakesMostUrgent(ss[i], a)
      {
        UrgentIfInOrder(ss, es, n, a, i);
      }
    }
  }

  // ---- A run that takes the less urgent task first ----

  const LOW := Desc(0, 0, 0, 0, 0, 0, 0, 0)
  const HIGH := Desc(0, 9, 0, 0, 0, 0, 0, 0)

  /** After both submits the more urgent task waits behind the other. */
  lemma TwoSubmits(j0: nat, j1: nat)
    ensures var m0 := SubmitCall(InitialMem(2, 1), LOW, j0);
            && m0.free == [1] && |m0.tasks| == 2 && |m0.accels| == 1
            && var m := SubmitCall(m0, HIGH, j1);
            && |m.tasks| == 2 && |m.accels| == 1 && m.accels[0].queue == [0, 1]
            && m.tasks[0].priority == 0 && m.tasks[1].priority == 9
  {
    var m := InitialMem(2, 1);
    assert m.free == [0, 1];
    SubmitCallMeans(m, LOW, j0);
    var m0 := SubmitCall(m, LOW, j0);
    assert m0.free == [1];
    SubmitCallMeans(m0, HIGH, j1);
  }

  /** Both tasks queued, the worker still at the head of its loop. */
  lemma BothQueued() returns (ss: seq<State>, es: seq<Event>)
    ensures DriverRun(ss, es) && ss != [] && |Last(ss).workers| == 1
    ensures Last(ss).workers[0].running && Last(ss).workers[0].pc.Head? && Last(ss).workers[0].retired == 0
    ensures var m := Last(ss).mem;
            && |m.tasks| == 2 && |m.accels| == 1 && m.accels[0].queue == [0, 1]
            && m.tasks[0].priority == 0 && m.tasks[1].priority == 9
  {
    hide SubmitCall;
    var s := Init(2, 1, 2, 0);
    assert s.mem.free == [0, 1];
    var ss0, es0, j0 := SubmitRun([s], [], 0, LOW);
    TwoSubmits(j0, 0);
    var j1;
    ss, es, j1 := SubmitRun(ss0, es0, 1, HIGH);
    TwoSubmits(j0, j1);
  }

  /** Two tasks wait, the one with the higher priority behind, and the worker takes the other. */
  lemma LessUrgentFirst() returns (ss: seq<State>, es: seq<Event>)
    ensures DriverRun(ss, es) && |ss| == |es| + 1 && |Last(ss).workers| == 1
    ensures !RespectsPriority(ss, es, |es|, 0)
  {
    hide Inv, Run, Apply, First, TakesMostUrgent, Shape;
    var s0, e0 := BothQueued();
    RunEnds(s0, e0);
    QueueLength(Last(s0), 0);
    var s1, e1 := Forward(s0, e0, 0);
    var s2, e2 := Forward(s1, e1, 0);
    var s3, e3 := Forward(s2, e2, 0);
    RunEnds(s3, e3);
    ss, es := Forward(s3, e3, 0);
    RunEnds(ss, es);
    var i := |e3|;
    assert ss[i] == Last(s3) && es[i] == Work(0);
    InvShape(ss[i]);
    NotMostUrgent(ss[i]);
    assert Takes(ss[i], es[i], 0);
  }

  lemma NotMostUrgent(s: State)
    requires Shape(s) && |s.workers| == 1 && |s.mem.tasks| == 2 && s.mem.accels[0].queue == [0, 1]
    requires s.mem.tasks[0].priority == 0 && s.mem.tasks[1].priority == 9
    ensures !TakesMostUrgent(s, 0)
  {
    assert AccelShape(s.mem, 0);
    assert s.mem.accels[0].queue[1] == 1;
  }
}
