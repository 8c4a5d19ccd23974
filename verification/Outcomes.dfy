/** What a task's record ends up with in the running driver, in terms of the steps a run took:
    the worker's writes and the cancels' writes, whichever came last. */
module Outcomes {
  import opened Types
  import opened Memory
  import opened Steps
  import opened Invariant
  import opened Runs
  import A = Abstract
  import P = Protocol
  import R = Refinement
  import S = StageRefinement
  import L = TaskLife
  import C = Scans
  import N = Answers
  import W = WorkerPreservation

  // ---- A run and its abstract image, step by step ----

  predicate IsCancelWrite(pc: ClientPc) {
    pc.CMark? || pc.CError? || pc.CSignal?
  }

  /** Event m is a cancel's write of this field of slot t. */
  ghost predicate CancelWrites(ss: seq<State>, es: seq<Event>, m: nat, t: nat, f: A.Field) {
    && m < |es| && m < |ss| && es[m].Client? && es[m].c < |ss[m].clients|
    && IsCancelWrite(ss[m].clients[es[m].c]) && ss[m].clients[es[m].c].t == t
    && R.CancelField(ss[m].clients[es[m].c]) == f
  }

  /** Event k is worker a's step at this place of its program. */
  ghost predicate WorkerSteps(ss: seq<State>, es: seq<Event>, k: nat, a: nat, pc: WorkerPc) {
    k < |es| && k < |ss| && es[k] == Work(a) && a < |ss[k].workers| && ss[k].workers[a].pc == pc
  }

  lemma CancelImage(s: State, e: Event, t: nat, f: A.Field)
    requires Shape(s) && Enabled(s, e)
    requires f.StateCancelled? || f.CancelError? || f.DoneSignal?
    ensures R.Image(s, e) == A.CancelWrite(t + 1, f)
            <==> e.Client? && IsCancelWrite(s.clients[e.c]) && s.clients[e.c].t == t && R.CancelField(s.clients[e.c]) == f
  {
  }

  /** ys and acts are what the run looks like to the abstract driver. */
  ghost predicate Imaged(ss: seq<State>, es: seq<Event>, ys: seq<A.System>, acts: seq<A.Action>) {
    && DriverRun(ss, es)
    && (forall i :: 0 <= i < |ss| ==> Shape(ss[i]))
    && ys == S.AbsRun(ss) && acts == S.ImageRun(ss, es)
    && A.AbstractRun(ys, acts)
  }

  lemma HasImage(ss: seq<State>, es: seq<Event>) returns (ys: seq<A.System>, acts: seq<A.Action>)
    requires DriverRun(ss, es)
    ensures Imaged(ss, es, ys, acts) && A.AbstractRun(ys, acts) && |ys| == |ss| == |es| + 1
  {
    S.DriverRefines(ss, es);
    ys, acts := S.AbsRun(ss), S.ImageRun(ss, es);
  }

  lemma ImageAt(ss: seq<State>, es: seq<Event>, ys: seq<A.System>, acts: seq<A.Action>, m: nat)
    requires Imaged(ss, es, ys, acts) && m < |es|
    ensures m + 1 < |ss| && m < |acts| && m < |ys|
    ensures Step(ss[m], es[m], ss[m + 1]) && acts[m] == R.Image(ss[m], es[m])
    ensures ys[m].driver == R.Abs(ss[m])
  {
    hide A.AbstractStep, Apply, Shape, R.Image, R.Abs, S.StageMap;
    assert Step(ss[m], es[m], ss[m + 1]);
    assert ys[m] == S.AbsSystem(ss[m]);
  }

  lemma RecordIs(ss: seq<State>, es: seq<Event>, ys: seq<A.System>, acts: seq<A.Action>, j: nat, t: nat)
    requires Imaged(ss, es, ys, acts) && j < |ss| && j < |ys| && t + 1 in ys[j].driver.tasks
    ensures t < |ss[j].mem.tasks| && ys[j].driver.tasks[t + 1] == ss[j].mem.tasks[t]
  {
    hide A.AbstractRun, DriverRun, S.StageMap, Shape;
    assert ys[j] == S.AbsSystem(ss[j]);
  }

  /** The cancels of the run are the cancel writes of its image. */
  lemma SameCancels(ss: seq<State>, es: seq<Event>, ys: seq<A.System>, acts: seq<A.Action>, m: nat, t: nat, f: A.Field)
    requires Imaged(ss, es, ys, acts) && A.AbstractRun(ys, acts) && m < |es|
    requires f.StateCancelled? || f.CancelError? || f.DoneSignal?
    ensures P.CancelsAt(ys, acts, m, t + 1, f) <==> CancelWrites(ss, es, m, t, f)
  {
    hide A.AbstractRun, Apply, R.Abs, R.Image, Imaged;
    ImageAt(ss, es, ys, acts, m);
    CancelImage(ss[m], es[m], t, f);
    P.RunKeys(ys, acts, m);
    P.StepOf(ys, acts, m);
  }

  lemma MoveImage(s: State, a: nat)
    requires Inv(s) && Enabled(s, Work(a)) && (s.workers[a].pc.MarkComplete? || s.workers[a].pc.ClearError?)
    ensures var act := R.Image(s, Work(a));
            && A.Moves(act) && A.Allowed(R.Abs(s), act) && A.Moved(R.Abs(s), act) == s.workers[a].pc.t + 1
            && A.DueStage(act) == if s.workers[a].pc.MarkComplete? then A.Ended else A.Finished
  {
    hide Inv, R.Abs, A.Allowed, A.Moved, R.Simulates, Apply;
    InvShape(s);
    R.DataRefines(s, Work(a));
    Allows(s, a);
    S.MovedIs(s, a);
  }

  lemma Allows(s: State, a: nat)
    requires Shape(s) && Enabled(s, Work(a)) && R.Simulates(s, Work(a))
    ensures A.Allowed(R.Abs(s), R.WorkImage(s, a))
  {
  }

  /** The worker's writes of COMPLETE and of error 0 are moves of the image. */
  lemma SameMoves(ss: seq<State>, es: seq<Event>, ys: seq<A.System>, acts: seq<A.Action>, k: nat, a: nat, pc: WorkerPc)
    requires Imaged(ss, es, ys, acts) && DriverRun(ss, es)
    requires WorkerSteps(ss, es, k, a, pc) && (pc.MarkComplete? || pc.ClearError?)
    ensures P.MovesAt(ys, acts, k, pc.t + 1, if pc.MarkComplete? then A.Ended else A.Finished)
  {
    hide Inv, Apply, R.Abs, A.Allowed, A.Moved, R.Image, Imaged, DriverRun;
    InvAt(ss, es, k);
    ImageAt(ss, es, ys, acts, k);
    MoveImage(ss[k], a);
  }

  lemma InvAt(ss: seq<State>, es: seq<Event>, k: nat)
    requires DriverRun(ss, es) && k < |ss|
    ensures Inv(ss[k])
  {
    hide Inv;
    DriverInv(ss, es);
  }

  ghost predicate WrittenBetween(ss: seq<State>, es: seq<Event>, k: nat, j: nat, t: nat, f: A.Field) {
    exists m: nat :: k < m < j && CancelWrites(ss, es, m, t, f)
  }

  lemma SameBetween(ss: seq<State>, es: seq<Event>, ys: seq<A.System>, acts: seq<A.Action>, k: nat, j: nat, t: nat, f: A.Field)
    requires Imaged(ss, es, ys, acts) && A.AbstractRun(ys, acts) && j <= |es|
    requires f.StateCancelled? || f.CancelError? || f.DoneSignal?
    ensures P.CancelledBetween(ys, acts, k, j, t + 1, f) <==> WrittenBetween(ss, es, k, j, t, f)
  {
    hide A.AbstractRun, CancelWrites, P.CancelsAt, Imaged;
    forall m: nat | k < m < j ensures P.CancelsAt(ys, acts, m, t + 1, f) <==> CancelWrites(ss, es, m, t, f) {
      SameCancels(ss, es, ys, acts, m, t, f);
    }
    if P.CancelledBetween(ys, acts, k, j, t + 1, f) {
      var m: nat :| k < m < j && P.CancelsAt(ys, acts, m, t + 1, f);
      assert CancelWrites(ss, es, m, t, f);
    }
    if WrittenBetween(ss, es, k, j, t, f) {
      var m: nat :| k < m < j && CancelWrites(ss, es, m, t, f);
      assert P.CancelsAt(ys, acts, m, t + 1, f);
    }
  }

  // ---- What lasts ----

  /** Once the worker has written COMPLETE the task shows CANCELLED exactly if some cancel wrote it
      after that, and otherwise COMPLETE: every cancel that wrote before is overwritten. */
  lemma FinalState(ss: seq<State>, es: seq<Event>, k: nat, j: nat, a: nat, t: nat)
    requires DriverRun(ss, es) && WorkerSteps(ss, es, k, a, MarkComplete(t)) && k < j < |ss|
    ensures t < |ss[j].mem.tasks|
    ensures ss[j].mem.tasks[t].state == if WrittenBetween(ss, es, k, j, t, A.StateCancelled) then Cancelled else Complete
  {
    hide A.AbstractRun, DriverRun, Imaged, WorkerSteps, P.MovesAt, WrittenBetween, P.CancelledBetween;
    var ys, acts := HasImage(ss, es);
    SameMoves(ss, es, ys, acts, k, a, MarkComplete(t));
    P.AfterComplete(ys, acts, k, j, t + 1);
    SameBetween(ss, es, ys, acts, k, j, t, A.StateCancelled);
    RecordIs(ss, es, ys, acts, j, t);
  }

  /** Once the worker has cleared the error it shows -ECANCELED exactly if some cancel wrote it
      after that, and otherwise 0. The two answers need not agree: a cancel whose first write came
      before COMPLETE and whose second came after the clearing leaves COMPLETE with -ECANCELED. */
  lemma FinalError(ss: seq<State>, es: seq<Event>, k: nat, j: nat, a: nat, t: nat)
    requires DriverRun(ss, es) && WorkerSteps(ss, es, k, a, ClearError(t)) && k < j < |ss|
    ensures t < |ss[j].mem.tasks|
    ensures ss[j].mem.tasks[t].errorCode == if WrittenBetween(ss, es, k, j, t, A.CancelError) then -ECANCELED else 0
  {
    hide A.AbstractRun, DriverRun, Imaged, WorkerSteps, P.MovesAt, WrittenBetween, P.CancelledBetween;
    var ys, acts := HasImage(ss, es);
    SameMoves(ss, es, ys, acts, k, a, ClearError(t));
    P.AfterClear(ys, acts, k, j, t + 1);
    SameBetween(ss, es, ys, acts, k, j, t, A.CancelError);
    RecordIs(ss, es, ys, acts, j, t);
  }

  // ---- What a caller can see of it ----

  /** A cancel writes CANCELLED at event m into a slot that shows COMPLETE at that moment. */
  ghost predicate CancelsComplete(ss: seq<State>, es: seq<Event>, m: nat, t: nat) {
    CancelWrites(ss, es, m, t, A.StateCancelled) && t < |ss[m].mem.tasks| && ss[m].mem.tasks[t].state == Complete
  }

  lemma {:induction false} FirstWrite(ss: seq<State>, es: seq<Event>, k: nat, j: nat, t: nat, f: A.Field) returns (m: nat)
    requires WrittenBetween(ss, es, k, j, t, f)
    ensures k < m < j && CancelWrites(ss, es, m, t, f) && !WrittenBetween(ss, es, k, m, t, f)
    decreases j
  {
    m :| k < m < j && CancelWrites(ss, es, m, t, f);
    if WrittenBetween(ss, es, k, m, t, f) {
      m := FirstWrite(ss, es, k, m, t, f);
    }
  }

  /** Before the worker's write of COMPLETE no slot shows it. */
  lemma CompleteIsLater(ss: seq<State>, es: seq<Event>, k: nat, m: nat, a: nat, t: nat)
    requires DriverRun(ss, es) && WorkerSteps(ss, es, k, a, MarkComplete(t)) && m < |ss|
    requires t < |ss[m].mem.tasks| && ss[m].mem.tasks[t].state == Complete
    ensures m > k
  {
    hide Inv, Apply, Enabled;
    InvAt(ss, es, 0);
    InvAt(ss, es, m);
    InvAt(ss, es, k);
    InvShape(ss[m]);
    L.CompleteShowsOnlyAfter(ss[m], t);
    if m <= k {
      L.RunEvolves(ss, es, m, k, t);
      TimedNow(ss[k], a, t);
    }
  }

  lemma TimedNow(s: State, a: nat, t: nat)
    requires Inv(s) && a < |s.workers| && s.workers[a].pc == MarkComplete(t)
    ensures t < |s.hist| && s.hist[t].phase.Rank() == 8
  {
    hide Inv;
    W.CurrentFacts(s, a);
  }

  /** So whether the final state is CANCELLED shows in the records alone: it is exactly if some
      cancel found COMPLETE in the slot when it wrote. */
  lemma CancelLastsIffItFoundComplete(ss: seq<State>, es: seq<Event>, k: nat, j: nat, a: nat, t: nat)
    requires DriverRun(ss, es) && WorkerSteps(ss, es, k, a, MarkComplete(t)) && k < j < |ss|
    ensures t < |ss[j].mem.tasks|
    ensures ss[j].mem.tasks[t].state == Cancelled <==> exists m: nat :: m < j && CancelsComplete(ss, es, m, t)
    ensures ss[j].mem.tasks[t].state in {Complete, Cancelled}
  {
    hide Inv, DriverRun, WorkerSteps, CancelWrites;
    FinalState(ss, es, k, j, a, t);
    if WrittenBetween(ss, es, k, j, t, A.StateCancelled) {
      var m := FirstWrite(ss, es, k, j, t, A.StateCancelled);
      FinalState(ss, es, k, m, a, t);
      assert CancelsComplete(ss, es, m, t);
    }
    forall m: nat | m < j && CancelsComplete(ss, es, m, t) ensures m > k {
      WriteInRun(ss, es, m, t);
      CompleteIsLater(ss, es, k, m, a, t);
    }
  }

  lemma WriteInRun(ss: seq<State>, es: seq<Event>, m: nat, t: nat)
    requires CancelsComplete(ss, es, m, t)
    ensures m < |ss|
  {
  }

  lemma LaterWriteLasts(ss: seq<State>, es: seq<Event>, i: nat, m: nat, l: nat, t: nat)
    requires DriverRun(ss, es) && i <= m < l < |ss| && L.CancelsAt(ss, es, m, t)
    requires t < |ss[i].mem.tasks| && ss[i].mem.tasks[t].state == Complete
    ensures t < |ss[l].mem.tasks| && ss[l].mem.tasks[t].state == Cancelled
  {
    hide Inv, Apply, Enabled;
    InvAt(ss, es, 0);
    InvAt(ss, es, i);
    InvShape(ss[i]);
    L.CompleteShowsOnlyAfter(ss[i], t);
    L.RunEvolves(ss, es, i, m, t);
    L.LateCancelLasts(ss, es, m, l, t);
  }

  /** What a caller can rely on: a task that shows COMPLETE before its cancel is called, and whose
      cancel is accepted, shows CANCELLED from the answer on, for the rest of the run. */
  lemma CancelOfCompleteLasts(ss: seq<State>, es: seq<Event>, i: nat, j: nat, l: nat, c: nat, id: nat)
    requires C.InCall(ss, es, i, j, c, ScanTask(Cancel, id)) && j <= l < |ss|
    requires 1 <= id <= |ss[i].mem.tasks| && ss[i].mem.tasks[id - 1].state == Complete
    requires c < |ss[j].clients| && ss[j].clients[c] == Done(ScanTask(Cancel, id), CancelAccepted)
    ensures id <= |ss[l].mem.tasks| && ss[l].mem.tasks[id - 1].state == Cancelled
  {
    hide Inv, Apply, Enabled, L.CancelsAt, C.Known;
    N.CancelDidCancel(ss, es, i, j, c, id);
    var m :| i < m < j && es[m].Client? && es[m].c == c && L.CancelsAt(ss, es, m, id - 1) && C.Known(ss[m], id);
    LaterWriteLasts(ss, es, i, m, l, id - 1);
  }
}
