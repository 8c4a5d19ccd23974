/** The ticks recorded for a task are what the clock showed at the steps of the driver that read it:
    at task_submit's stamp, at the start of the run and at the completion stamp. */
module Moments {
  import opened Types
  import opened Memory
  import opened Steps
  import opened Invariant
  import opened Runs
  import S = Scans
  import W = WorkerPreservation

  /** Event k is the step in which task_submit stamps slot t. */
  ghost predicate StampsSubmit(s: State, e: Event, t: nat) {
    e.Client? && e.c < |s.clients| && s.clients[e.c].SStamp? && s.clients[e.c].t == t
  }

  ghost predicate StartsRun(s: State, e: Event, t: nat) {
    e.Work? && e.a < |s.workers| && s.workers[e.a].pc == TestTimeout(t)
  }

  ghost predicate StampsComplete(s: State, e: Event, t: nat) {
    e.Work? && e.a < |s.workers| && s.workers[e.a].pc == StampComplete(t)
  }

  /** Each recorded tick is the old one, or the present time at the step that records it. */
  ghost predicate TicksStep(s: State, e: Event, s': State, t: nat)
    requires t < |s.hist| == |s'.hist|
  {
    var h, h' := s.hist[t], s'.hist[t];
    && (h'.phase.Rank() >= 3 ==>
          (h.phase.Rank() >= 3 && h'.submitTick == h.submitTick) || (StampsSubmit(s, e, t) && h'.submitTick == s.now))
    && (h'.phase.Rank() >= 7 ==>
          (h.phase.Rank() >= 7 && h'.startTick == h.startTick) || (StartsRun(s, e, t) && h'.startTick == s.now))
    && (h'.phase.Rank() >= 8 ==>
          (h.phase.Rank() >= 8 && h'.doneTick == h.doneTick) || (StampsComplete(s, e, t) && h'.doneTick == s.now))
  }

  lemma SubmitTicks(s: State, c: nat, copied: bool, t: nat)
    requires Inv(s) && c < |s.clients| && s.clients[c].InSubmit() && t < |s.hist|
    ensures |SubmitStep(s, c, copied).hist| == |s.hist|
    ensures TicksStep(s, Client(c, copied), SubmitStep(s, c, copied), t)
  {
    hide Inv;
    InvClient(s, c);
    InvSlot(s, t);
  }

  lemma ScanTicks(s: State, c: nat, copied: bool, t: nat)
    requires Inv(s) && c < |s.clients| && s.clients[c].InScan() && t < |s.hist|
    ensures |ScanStep(s, c, copied).hist| == |s.hist|
    ensures TicksStep(s, Client(c, copied), ScanStep(s, c, copied), t)
  {
    hide Inv, ClientOk;
    InvClient(s, c);
  }

  lemma IdleTicks(s: State, a: nat, t: nat)
    requires Inv(s) && Enabled(s, Work(a)) && !s.workers[a].pc.Busy() && t < |s.hist|
    ensures |IdleStep(s, a).hist| == |s.hist|
    ensures TicksStep(s, Work(a), IdleStep(s, a), t)
  {
    hide Inv;
    InvAccel(s, a);
    if s.mem.accels[a].queue != [] {
      assert EntryOk(s, a, s.workers[a].retired);
    }
  }

  lemma RunTicks(s: State, a: nat, t: nat)
    requires Inv(s) && Enabled(s, Work(a)) && s.workers[a].pc.InRun() && t < |s.hist|
    ensures |RunStep(s, a).hist| == |s.hist|
    ensures TicksStep(s, Work(a), RunStep(s, a), t)
  {
    hide Inv, Shape, AccelOk, CurrentOk, SlotOk;
    InvShape(s);
    W.CurrentFacts(s, a);
  }

  lemma FinishTicks(s: State, a: nat, t: nat)
    requires Inv(s) && Enabled(s, Work(a)) && s.workers[a].pc.InFinish() && t < |s.hist|
    ensures |FinishStep(s, a).hist| == |s.hist|
    ensures TicksStep(s, Work(a), FinishStep(s, a), t)
  {
    hide Inv, Shape, AccelOk, CurrentOk, SlotOk;
    InvShape(s);
    W.CurrentFacts(s, a);
  }

  lemma AnyTicks(s: State, e: Event, t: nat)
    requires Inv(s) && Enabled(s, e) && t < |s.hist|
    ensures |Apply(s, e).hist| == |s.hist| && TicksStep(s, e, Apply(s, e), t)
  {
    hide Inv, SubmitStep, ScanStep, IdleStep, RunStep, FinishStep;
    InvShape(s);
    if e.Client? {
      if s.clients[e.c].InSubmit() {
        SubmitTicks(s, e.c, e.copied, t);
      } else if s.clients[e.c].InScan() {
        ScanTicks(s, e.c, e.copied, t);
      } else {
        assert ClientShape(s, s.clients[e.c]);
      }
    } else if e.Work? {
      if s.workers[e.a].pc.InRun() {
        RunTicks(s, e.a, t);
      } else if s.workers[e.a].pc.InFinish() {
        FinishTicks(s, e.a, t);
      } else {
        IdleTicks(s, e.a, t);
      }
    }
  }

  ghost predicate SubmittedAt(ss: seq<State>, es: seq<Event>, k: nat, j: nat, t: nat, tick: nat) {
    k < j && k < |es| && k < |ss| && StampsSubmit(ss[k], es[k], t) && ss[k].now == tick
  }

  ghost predicate StartedAt(ss: seq<State>, es: seq<Event>, k: nat, j: nat, t: nat, tick: nat) {
    k < j && k < |es| && k < |ss| && StartsRun(ss[k], es[k], t) && ss[k].now == tick
  }

  ghost predicate CompletedAt(ss: seq<State>, es: seq<Event>, k: nat, j: nat, t: nat, tick: nat) {
    k < j && k < |es| && k < |ss| && StampsComplete(ss[k], es[k], t) && ss[k].now == tick
  }

  /** In every run: a recorded tick is the time of the very step that the record stands for. */
  ghost predicate TicksAreTrue(ss: seq<State>, es: seq<Event>, j: nat, t: nat)
    requires j < |ss| && t < |ss[j].hist|
  {
    var h := ss[j].hist[t];
    && (h.phase.Rank() >= 3 ==> exists k: nat :: SubmittedAt(ss, es, k, j, t, h.submitTick))
    && (h.phase.Rank() >= 7 ==> exists k: nat :: StartedAt(ss, es, k, j, t, h.startTick))
    && (h.phase.Rank() >= 8 ==> exists k: nat :: CompletedAt(ss, es, k, j, t, h.doneTick))
  }

  lemma {:induction false} RecordedTicks(ss: seq<State>, es: seq<Event>, j: nat, t: nat)
    requires DriverRun(ss, es) && j < |ss| && t < |ss[j].hist|
    ensures TicksAreTrue(ss, es, j, t)
    decreases j
  {
    hide Inv, Apply, Enabled, StampsSubmit, StartsRun, StampsComplete;
    DriverInv(ss, es);
    SameSizes(ss, es, j);
    if j == 0 {
      NothingRecorded(ss[0], t);
    } else {
      SameSizes(ss, es, j - 1);
      RecordedTicks(ss, es, j - 1, t);
      assert Step(ss[j - 1], es[j - 1], ss[j]);
      AnyTicks(ss[j - 1], es[j - 1], t);
      TicksStayTrue(ss, es, j, t);
    }
  }

  lemma NothingRecorded(s: State, t: nat)
    requires s == Init(|s.mem.tasks|, |s.workers|, |s.clients|, s.boot) && t < |s.hist|
    ensures s.hist[t].phase.Rank() == 0
  {
  }

  lemma TicksStayTrue(ss: seq<State>, es: seq<Event>, j: nat, t: nat)
    requires 0 < j < |ss| && j <= |es| && t < |ss[j - 1].hist| == |ss[j].hist|
    requires TicksAreTrue(ss, es, j - 1, t) && TicksStep(ss[j - 1], es[j - 1], ss[j], t)
    ensures TicksAreTrue(ss, es, j, t)
  {
    hide StampsSubmit, StartsRun, StampsComplete;
    var h, h' := ss[j - 1].hist[t], ss[j].hist[t];
    if h'.phase.Rank() >= 3 {
      if h.phase.Rank() >= 3 && h'.submitTick == h.submitTick {
        var k: nat :| SubmittedAt(ss, es, k, j - 1, t, h.submitTick);
        assert SubmittedAt(ss, es, k, j, t, h'.submitTick);
      } else {
        assert SubmittedAt(ss, es, j - 1, j, t, h'.submitTick);
      }
    }
    if h'.phase.Rank() >= 7 {
      if h.phase.Rank() >= 7 && h'.startTick == h.startTick {
        var k: nat :| StartedAt(ss, es, k, j - 1, t, h.startTick);
        assert StartedAt(ss, es, k, j, t, h'.startTick);
      } else {
        assert StartedAt(ss, es, j - 1, j, t, h'.startTick);
      }
    }
    if h'.phase.Rank() >= 8 {
      if h.phase.Rank() >= 8 && h'.doneTick == h.doneTick {
        var k: nat :| CompletedAt(ss, es, k, j - 1, t, h.doneTick);
        assert CompletedAt(ss, es, k, j, t, h'.doneTick);
      } else {
        assert CompletedAt(ss, es, j - 1, j, t, h'.doneTick);
      }
    }
  }

  /** A query that reports COMPLETE reports the microseconds, rounded down, from the step that stamped
      the submission to the step that stamped the completion, exactly if their product fits 64 bits. */
  lemma ReportedTimeIsElapsed(ss: seq<State>, es: seq<Event>, j: nat, c: nat, r: Request, status: Status)
    returns (t: nat, k: nat, l: nat)
    requires DriverRun(ss, es) && j < |ss| && c < |ss[j].clients|
    requires ss[j].clients[c] == Done(r, Reported(status)) && status.state == Complete
    ensures status.taskId == t + 1 && k < j && l < j
    ensures SubmittedAt(ss, es, k, j, t, ss[k].now) && CompletedAt(ss, es, l, j, t, ss[l].now)
    ensures ss[k].now <= ss[l].now
    ensures ss[l].now - ss[k].now < 0x1_0000_0000_0000_0000 ==>
              (status.execUsec == (ss[l].now - ss[k].now) * 1000000 / HZ
               <==> (ss[l].now - ss[k].now) * 1000000 < 0x1_0000_0000_0000_0000)
  {
    hide DriverRun, StampsSubmit, StampsComplete;
    S.CompleteReportsTrueTime(ss, es, j, c, r, status);
    t := status.taskId - 1;
    var h := ss[j].hist[t];
    RecordedTicks(ss, es, j, t);
    k :| SubmittedAt(ss, es, k, j, t, h.submitTick);
    l :| CompletedAt(ss, es, l, j, t, h.doneTick);
  }
}
