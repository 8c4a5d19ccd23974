/** Cancels that are accepted and have no effect: how every early one can be lost, and a run of the
    driver from its start in which one is. */
module LostCancel {
  import opened Types
  import opened Memory
  import opened Calls
  import opened Steps
  import opened Invariant
  import opened Runs
  import opened Extensions
  import opened Alone
  import C = Scans
  import F = Fifo
  import L = TaskLife
  import P = Placement

  const DESC := Desc(0, 0, 0, 0, 0, 0, 0, 0)

  // ---- Any early cancel ----

  /** The worker has taken on the task of slot t and not yet written COMPLETE. */
  ghost predicate Unfinished(s: State, t: nat) {
    t < |s.hist| && s.hist[t].phase.Logged() && s.hist[t].phase.Rank() < 9
  }

  lemma UnfinishedFacts(s: State, t: nat)
    requires Inv(s) && Unfinished(s, t)
    ensures var p := s.hist[t].phase;
            && p.a < |s.workers| && p.k < |s.workers[p.a].log| && s.workers[p.a].log[p.k].slot == t
            && !s.hist[t].lateCancel
  {
    hide Inv;
    InvSlot(s, t);
  }

  lemma PassedIsFinal(s: State, a: nat, p: nat, t: nat)
    requires Inv(s) && a < |s.workers| && p < |s.workers[a].log| && s.workers[a].log[p].slot == t
    requires p < s.workers[a].retired
    ensures t < |s.hist| == |s.mem.tasks|
    ensures !s.hist[t].lateCancel ==> s.mem.tasks[t].state == Complete
  {
    hide Inv;
    InvAccel(s, a);
    assert EntryOk(s, a, p);
    InvSlot(s, t);
  }

  /** Steps of a worker and of the clock cancel nothing. */
  lemma NobodyCancels(ss: seq<State>, es: seq<Event>, ss': seq<State>, es': seq<Event>, more: seq<Event>, a: nat, t: nat)
    requires Continues(ss, es, ss', es', more) && OnlyWorker(more, a) && t < |Last(ss).hist|
    ensures t < |Last(ss').hist| && Last(ss').hist[t].lateCancel == Last(ss).hist[t].lateCancel
  {
    hide Inv;
    var i := |es|;
    RunEnds(ss, es);
    RunEnds(ss', es');
    forall m | i <= m < |es'| ensures !L.CancelsAt(ss', es', m, t) {
      assert es'[m] == more[m - i];
    }
    assert ss'[i] == ss[i];
    L.LateKept(ss', es', i, |es'|, t);
  }

  /** Whenever a cancel has been accepted before its task's worker wrote COMPLETE, and the worker is
      kept running, the run can go on so that the cancel has no effect: the worker and the clock
      alone bring the task to COMPLETE. */
  lemma EarlyCancelCanBeLost(ss: seq<State>, es: seq<Event>, i: nat, c: nat, id: nat)
    returns (ss': seq<State>, es': seq<Event>, more: seq<Event>)
    requires C.InCall(ss, es, i, |es|, c, ScanTask(Cancel, id)) && c < |Last(ss).clients|
    requires Last(ss).clients[c] == Done(ScanTask(Cancel, id), CancelAccepted)
    requires id > 0 && Unfinished(Last(ss), id - 1)
    requires var a := Last(ss).hist[id - 1].phase.a; a < |Last(ss).workers| && Last(ss).workers[a].running
    ensures Continues(ss, es, ss', es', more) && OnlyWorker(more, Last(ss).hist[id - 1].phase.a)
    ensures Last(ss').clients == Last(ss).clients
    ensures id <= |Last(ss').mem.tasks| && Last(ss').mem.tasks[id - 1].state == Complete
  {
    hide Inv, Run;
    RunEnds(ss, es);
    var s, t := Last(ss), id - 1;
    UnfinishedFacts(s, t);
    var a, p := s.hist[t].phase.a, s.hist[t].phase.k;
    ss', es', more := RunDown(ss, es, a, p);
    RunEnds(ss', es');
    NobodyCancels(ss, es, ss', es', more, a, t);
    PassedIsFinal(Last(ss'), a, p, t);
  }

  /** If the worker finishes between a cancel's first write and its second, the task ends COMPLETE
      with error code -ECANCELED. */
  lemma SplitCancel(ss: seq<State>, es: seq<Event>, c: nat, id: nat, t: nat)
    returns (ss': seq<State>, es': seq<Event>, more: seq<Event>)
    requires DriverRun(ss, es) && ss != [] && c < |Last(ss).clients| && Last(ss).clients[c] == CError(id, t)
    requires Unfinished(Last(ss), t)
    requires var a := Last(ss).hist[t].phase.a; a < |Last(ss).workers| && Last(ss).workers[a].running
    ensures Continues(ss, es, ss', es', more + [Client(c, true)]) && OnlyWorker(more, Last(ss).hist[t].phase.a)
    ensures t < |Last(ss').mem.tasks|
    ensures Last(ss').mem.tasks[t].state == Complete && Last(ss').mem.tasks[t].errorCode == -ECANCELED
  {
    hide Inv, Run;
    RunEnds(ss, es);
    var s := Last(ss);
    UnfinishedFacts(s, t);
    var a, p := s.hist[t].phase.a, s.hist[t].phase.k;
    var ss1, es1;
    ss1, es1, more := RunDown(ss, es, a, p);
    RunEnds(ss1, es1);
    NobodyCancels(ss, es, ss1, es1, more, a, t);
    PassedIsFinal(Last(ss1), a, p, t);
    ss', es' := Extend(ss1, es1, Client(c, true));
    ContinuesTwice(ss, es, ss1, es1, ss', es', more, [Client(c, true)]);
    ErrorStep(Last(ss1), c, id, t);
  }

  lemma ErrorStep(s: State, c: nat, id: nat, t: nat)
    requires Inv(s) && c < |s.clients| && s.clients[c] == CError(id, t)
    ensures t < |s.mem.tasks| && ClientStep(s, c, true).mem == SetError(s.mem, t, -ECANCELED)
  {
    hide Inv;
    InvClient(s, c);
  }

  // ---- A run from the start ----

  /** Caller 0 submits; one slot, one accelerator, two callers. */
  lemma Submitted() returns (ss: seq<State>, es: seq<Event>, t: nat)
    ensures DriverRun(ss, es) && ss != [] && |Last(ss).clients| == 2 && Last(ss).clients[1].Idle?
    ensures |Last(ss).workers| == 1 && Last(ss).workers[0].running
    ensures Last(ss).mem == SubmitCall(InitialMem(1, 1), DESC, t)
  {
    hide SubmitCall;
    var s := Init(1, 1, 2, 0);
    assert s.mem.free == [0];
    ss, es, t := SubmitRun([s], [], 0, DESC);
  }

  /** What the whole submit leaves: the slot matches ID 1 and waits on accelerator 0. */
  lemma AfterSubmit(j: nat)
    ensures var m := SubmitCall(InitialMem(1, 1), DESC, j);
            && |m.tasks| == 1 && Matches(m.tasks[0], 1) && |m.accels| == 1 && m.accels[0].queue == [0]
            && |CancelSlot(m, 0).tasks| == 1 && CancelSlot(m, 0).accels == m.accels
            && |SetState(m, 0, Cancelled).tasks| == 1 && SetState(m, 0, Cancelled).accels == m.accels
  {
  }

  /** A run of the driver from its start in which caller 1 cancels the task with ID 1, is told that
      the cancel was accepted, and the task ends COMPLETE. */
  lemma AcceptedCancelIsLost() returns (ss: seq<State>, es: seq<Event>, i: nat, j: nat)
    ensures C.InCall(ss, es, i, j, 1, ScanTask(Cancel, 1)) && 1 < |ss[j].clients|
    ensures ss[j].clients[1] == Done(ScanTask(Cancel, 1), CancelAccepted)
    ensures |ss| == |es| + 1 && 1 <= |Last(ss).mem.tasks| && Last(ss).mem.tasks[0].state == Complete
    ensures OnlyWorker(es[j..], 0)
  {
    hide Inv, Solo, SubmitCall, CancelSlot, Run;
    var ss0, es0, t := Submitted();
    AfterSubmit(t);
    i := |es0|;
    RunEnds(ss0, es0);
    var ss1, es1 := Extend(ss0, es0, Begin(1, ScanTask(Cancel, 1), true));
    RunEnds(ss1, es1);
    CancelAlone(Last(ss1), 1, 1);
    var ss2, es2, m2 := SoloRun(ss1, es1, 1, ScanLength(Last(ss1).mem.tasks, 1, 0) + 3);
    RunEnds(ss2, es2);
    j := |es2|;
    forall m | i < m < j ensures es2[m] != Return(1) {
      assert es2[m] == m2[m - i - 1];
    }
    InvShape(Last(ss2));
    P.QueuedPhase(Last(ss2), 0, 0);
    var more;
    ss, es, more := EarlyCancelCanBeLost(ss2, es2, i, 1, 1);
    RunEnds(ss, es);
    assert ss[j] == ss2[j];
    assert es[j..] == more;
  }

  lemma FirstWriteAlone(s: State, c: nat, id: nat)
    requires Inv(s) && c < |s.clients| && s.clients[c] == ScanId(Cancel, id, 0) && FirstMatch(s.mem.tasks, id, 0) < |s.mem.tasks|
    ensures var k := FirstMatch(s.mem.tasks, id, 0);
            var s' := Solo(s, c, ScanLength(s.mem.tasks, id, 0) + 1);
            && s'.mem == SetState(s.mem, k, Cancelled) && c < |s'.clients| && s'.clients[c] == CError(id, k)
  {
    hide Inv;
    var n, k := ScanLength(s.mem.tasks, id, 0) + 1, FirstMatch(s.mem.tasks, id, 0);
    ScanAlone(s, c, Cancel, id, 0, n);
    var s1 := Pc(s, c, CMark(id, k));
    InvClient(s1, c);
    SoloStep(s1, c, 1, ClientStep(s1, c, true));
  }

  /** A run of the driver from its start that ends with a COMPLETE task whose error code is
      -ECANCELED. */
  lemma CompleteWithError() returns (ss: seq<State>, es: seq<Event>)
    ensures DriverRun(ss, es) && ss != [] && 1 <= |Last(ss).mem.tasks|
    ensures Last(ss).mem.tasks[0].state == Complete && Last(ss).mem.tasks[0].errorCode == -ECANCELED
  {
    hide Inv, Solo, SubmitCall, SetState, Run;
    var ss0, es0, t := Submitted();
    AfterSubmit(t);
    var ss1, es1 := Extend(ss0, es0, Begin(1, ScanTask(Cancel, 1), true));
    RunEnds(ss1, es1);
    FirstWriteAlone(Last(ss1), 1, 1);
    var ss2, es2, m2 := SoloRun(ss1, es1, 1, ScanLength(Last(ss1).mem.tasks, 1, 0) + 1);
    RunEnds(ss2, es2);
    InvShape(Last(ss2));
    P.QueuedPhase(Last(ss2), 0, 0);
    var more;
    ss, es, more := SplitCancel(ss2, es2, 1, 1, 0);
  }
}
