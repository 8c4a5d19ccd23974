/** What the abstract driver guarantees by itself, whatever runs it: every task goes through its
    stages once and in order, and what its record shows is decided by who wrote last. */
module Protocol {
  import opened Types
  import opened Abstract

  // ---- Once, and in order ----

  lemma StepKeys(y: System, act: Action)
    requires Permitted(y, act) && y.stages.Keys == y.driver.tasks.Keys
    ensures Follow(y, act).stages.Keys == Follow(y, act).driver.tasks.Keys
  {
  }

  lemma {:induction false} RunKeys(ys: seq<System>, acts: seq<Action>, j: nat)
    requires AbstractRun(ys, acts) && j < |ys|
    ensures ys[j].stages.Keys == ys[j].driver.tasks.Keys
  {
    hide AbstractStep;
    if j > 0 {
      RunKeys(ys, acts, j - 1);
      StepOf(ys, acts, j - 1);
      StepKeys(ys[j - 1], acts[j - 1]);
    }
  }

  lemma StepOf(ys: seq<System>, acts: seq<Action>, i: nat)
    requires AbstractRun(ys, acts) && i < |acts|
    ensures Permitted(ys[i], acts[i]) && ys[i + 1] == Follow(ys[i], acts[i])
  {
    assert AbstractStep(ys[i], acts[i], ys[i + 1]);
  }

  lemma StepAdvances(y: System, act: Action, id: nat)
    requires Permitted(y, act) && y.stages.Keys == y.driver.tasks.Keys && id in y.stages
    ensures var y' := Follow(y, act);
            && id in y'.stages
            && (y'.stages[id] == y.stages[id]
                || (Moves(act) && Moved(y.driver, act) == id && y.stages[id] == DueStage(act) && y'.stages[id] == DueStage(act).Succ()))
  {
  }

  /** A record, once published, stays, and its stage never goes back. */
  lemma {:induction false} StagesAdvance(ys: seq<System>, acts: seq<Action>, i: nat, j: nat, id: nat)
    requires AbstractRun(ys, acts) && i <= j < |ys| && id in ys[i].stages
    ensures id in ys[j].stages && ys[i].stages[id].Rank() <= ys[j].stages[id].Rank()
    decreases j
  {
    hide AbstractStep, Permitted, Follow;
    if i < j {
      StagesAdvance(ys, acts, i, j - 1, id);
      StepOf(ys, acts, j - 1);
      RunKeys(ys, acts, j - 1);
      StepAdvances(ys[j - 1], acts[j - 1], id);
    }
  }

  /** Action m moves record id on from stage g. */
  ghost predicate MovesAt(ys: seq<System>, acts: seq<Action>, m: nat, id: nat, g: Stage) {
    && m < |acts| && m < |ys|
    && Moves(acts[m]) && DueStage(acts[m]) == g
    && Allowed(ys[m].driver, acts[m]) && Moved(ys[m].driver, acts[m]) == id
  }

  /** Two moves of one record are different moves, made in the order of the stages. */
  lemma MovedOnce(ys: seq<System>, acts: seq<Action>, i: nat, j: nat, id: nat, g: Stage, h: Stage)
    requires AbstractRun(ys, acts) && i < j && MovesAt(ys, acts, i, id, g) && MovesAt(ys, acts, j, id, h)
    ensures g.Rank() < h.Rank()
  {
    hide AbstractRun;
    MoveShows(ys, acts, i, id, g);
    MoveShows(ys, acts, j, id, h);
    StagesAdvance(ys, acts, i + 1, j, id);
  }

  lemma MoveShows(ys: seq<System>, acts: seq<Action>, i: nat, id: nat, g: Stage)
    requires AbstractRun(ys, acts) && MovesAt(ys, acts, i, id, g)
    ensures i + 1 < |ys| && id in ys[i].stages && ys[i].stages[id] == g
    ensures id in ys[i + 1].stages && ys[i + 1].stages[id] == g.Succ() && g.Rank() < g.Succ().Rank()
  {
    StepOf(ys, acts, i);
  }

  /** A record that has passed a stage was moved on from it: nothing is skipped. */
  lemma {:induction false} NothingSkipped(ys: seq<System>, acts: seq<Action>, j: nat, id: nat, g: Stage)
    requires AbstractRun(ys, acts) && j < |ys| && id in ys[j].stages && g.Rank() < ys[j].stages[id].Rank()
    ensures exists i: nat :: i < j && MovesAt(ys, acts, i, id, g)
    decreases j
  {
    hide Follow, Permitted;
    StepOf(ys, acts, j - 1);
    RunKeys(ys, acts, j - 1);
    var y, act := ys[j - 1], acts[j - 1];
    if id in y.stages {
      StepAdvances(y, act, id);
      if g.Rank() < y.stages[id].Rank() {
        NothingSkipped(ys, acts, j - 1, id, g);
      } else {
        SuccIsNext(y.stages[id], g);
        PermittedAllows(y, act);
        assert MovesAt(ys, acts, j - 1, id, g);
      }
    } else {
      NewIsFresh(y, act, id);
    }
  }

  lemma SuccIsNext(s: Stage, g: Stage)
    requires s.Rank() <= g.Rank() < s.Succ().Rank()
    ensures s == g
  {
  }

  lemma PermittedAllows(y: System, act: Action)
    requires Permitted(y, act)
    ensures Allowed(y.driver, act)
  {
  }

  lemma NewIsFresh(y: System, act: Action, id: nat)
    requires Permitted(y, act) && y.stages.Keys == y.driver.tasks.Keys
    requires id !in y.stages && id in Follow(y, act).stages
    ensures act.Publish? && act.task.id == id && Follow(y, act).stages[id] == Fresh
  {
  }

  // ---- The last writer decides ----

  /** What the state field shows at a stage when no cancel interferes. */
  function StageState(g: Stage): TaskState {
    if g.Rank() <= 3 then Pending else if g.Rank() <= 6 then Running else Complete
  }

  ghost predicate CancelsAt(ys: seq<System>, acts: seq<Action>, m: nat, id: nat, f: Field) {
    m < |acts| && m < |ys| && acts[m] == CancelWrite(id, f) && id in ys[m].stages
  }

  /** A cancel has written CANCELLED since the worker's last write of the state. */
  ghost predicate Overridden(ys: seq<System>, acts: seq<Action>, j: nat, id: nat)
    requires j < |ys| && id in ys[j].stages
  {
    exists m: nat :: m < j && CancelsAt(ys, acts, m, id, StateCancelled)
                && StageState(ys[m].stages[id]) == StageState(ys[j].stages[id])
  }

  ghost predicate ErrorAfterClear(ys: seq<System>, acts: seq<Action>, j: nat, id: nat)
    requires j < |ys| && id in ys[j].stages
  {
    exists m: nat :: m < j && CancelsAt(ys, acts, m, id, CancelError)
                && (ys[m].stages[id].Rank() >= 8 <==> ys[j].stages[id].Rank() >= 8)
  }

  ghost predicate SignalledByCancel(ys: seq<System>, acts: seq<Action>, j: nat, id: nat) {
    exists m: nat :: m < j && CancelsAt(ys, acts, m, id, DoneSignal)
  }

  /** What the three fields show that both a worker and cancels write. */
  ghost predicate Shows(ys: seq<System>, acts: seq<Action>, j: nat, id: nat)
    requires j < |ys| && id in ys[j].stages
  {
    id in ys[j].driver.tasks &&
    var x, g := ys[j].driver.tasks[id], ys[j].stages[id];
    && x.state == (if Overridden(ys, acts, j, id) then Cancelled else StageState(g))
    && x.errorCode == (if ErrorAfterClear(ys, acts, j, id) then -ECANCELED else 0)
    && (x.done <==> g.Rank() >= 10 || SignalledByCancel(ys, acts, j, id))
  }

  ghost predicate MovedOn(y: System, act: Action, id: nat, g: Stage)
    requires Permitted(y, act) && id in y.stages && id in Follow(y, act).stages
  {
    y.stages[id] == g && Follow(y, act).stages[id] == g.Succ()
  }

  /** One action's effect on the three fields. */
  lemma FieldsStep(y: System, act: Action, id: nat)
    requires Permitted(y, act) && y.stages.Keys == y.driver.tasks.Keys && id in y.stages
    ensures var y' := Follow(y, act);
            id in y'.stages && id in y'.driver.tasks &&
            var x, x' := y.driver.tasks[id], y'.driver.tasks[id];
            && x'.state == (if act == CancelWrite(id, StateCancelled) then Cancelled
                            else if MovedOn(y, act, id, Taken) then TaskState.Running
                            else if MovedOn(y, act, id, Ended) then Complete
                            else x.state)
            && x'.errorCode == (if act == CancelWrite(id, CancelError) then -ECANCELED
                                else if MovedOn(y, act, id, Finished) then 0
                                else x.errorCode)
            && (x'.done <==> act == CancelWrite(id, DoneSignal) || MovedOn(y, act, id, Unloaded) || x.done)
  {
  }

  lemma OverriddenNext(ys: seq<System>, acts: seq<Action>, j: nat, id: nat)
    requires AbstractRun(ys, acts) && 0 < j < |ys| && id in ys[j - 1].stages && id in ys[j].stages
    requires ys[j - 1].stages[id].Rank() <= ys[j].stages[id].Rank()
    ensures Overridden(ys, acts, j, id) <==>
              && StageState(ys[j - 1].stages[id]) == StageState(ys[j].stages[id])
              && (Overridden(ys, acts, j - 1, id) || CancelsAt(ys, acts, j - 1, id, StateCancelled))
  {
    forall m: nat | m < j && CancelsAt(ys, acts, m, id, StateCancelled)
      ensures ys[m].stages[id].Rank() <= ys[j - 1].stages[id].Rank()
    {
      StagesAdvance(ys, acts, m, j - 1, id);
    }
  }

  lemma ErrorNext(ys: seq<System>, acts: seq<Action>, j: nat, id: nat)
    requires AbstractRun(ys, acts) && 0 < j < |ys| && id in ys[j - 1].stages && id in ys[j].stages
    requires ys[j - 1].stages[id].Rank() <= ys[j].stages[id].Rank()
    ensures ErrorAfterClear(ys, acts, j, id) <==>
              && (ys[j - 1].stages[id].Rank() >= 8 <==> ys[j].stages[id].Rank() >= 8)
              && (ErrorAfterClear(ys, acts, j - 1, id) || CancelsAt(ys, acts, j - 1, id, CancelError))
  {
    forall m: nat | m < j && CancelsAt(ys, acts, m, id, CancelError)
      ensures ys[m].stages[id].Rank() <= ys[j - 1].stages[id].Rank()
    {
      StagesAdvance(ys, acts, m, j - 1, id);
    }
  }

  lemma SignalNext(ys: seq<System>, acts: seq<Action>, j: nat, id: nat)
    requires 0 < j < |ys|
    ensures SignalledByCancel(ys, acts, j, id) <==>
              SignalledByCancel(ys, acts, j - 1, id) || CancelsAt(ys, acts, j - 1, id, DoneSignal)
  {
  }

  lemma StillShows(ys: seq<System>, acts: seq<Action>, j: nat, id: nat)
    requires AbstractRun(ys, acts) && 0 < j < |ys| && id in ys[j - 1].stages && Shows(ys, acts, j - 1, id)
    ensures id in ys[j].stages && Shows(ys, acts, j, id)
  {
    hide AbstractStep, Permitted, Follow, Overridden, ErrorAfterClear, SignalledByCancel;
    RunKeys(ys, acts, j - 1);
    StepOf(ys, acts, j - 1);
    StepAdvances(ys[j - 1], acts[j - 1], id);
    FieldsStep(ys[j - 1], acts[j - 1], id);
    StagesAdvance(ys, acts, j - 1, j, id);
    OverriddenNext(ys, acts, j, id);
    ErrorNext(ys, acts, j, id);
    SignalNext(ys, acts, j, id);
  }

  /** A record that just appeared has not been cancelled before. */
  lemma ShowsFirst(ys: seq<System>, acts: seq<Action>, j: nat, id: nat)
    requires AbstractRun(ys, acts) && 0 < j < |ys| && id !in ys[j - 1].stages && id in ys[j].stages
    ensures Shows(ys, acts, j, id)
  {
    StepOf(ys, acts, j - 1);
    RunKeys(ys, acts, j - 1);
    NewIsFresh(ys[j - 1], acts[j - 1], id);
    forall m: nat, f | m < j && CancelsAt(ys, acts, m, id, f) ensures false {
      StagesAdvance(ys, acts, m, j - 1, id);
    }
  }

  /** In every run: a record shows CANCELLED exactly if a cancel wrote it since the worker's last
      write of the state, and otherwise the state of its stage; -ECANCELED exactly if a cancel
      wrote it since the worker cleared the error, or at all if it has not yet; and completion
      exactly if the worker or any cancel has signalled it. */
  lemma {:induction false} LastWriterDecides(ys: seq<System>, acts: seq<Action>, j: nat, id: nat)
    requires AbstractRun(ys, acts) && j < |ys| && id in ys[j].stages
    ensures Shows(ys, acts, j, id)
    decreases j
  {
    hide AbstractStep, Shows;
    if id in ys[j - 1].stages {
      LastWriterDecides(ys, acts, j - 1, id);
      StillShows(ys, acts, j, id);
    } else {
      ShowsFirst(ys, acts, j, id);
    }
  }

  /** A record is past a stage exactly in the states after the move that leaves it. */
  lemma PastIffLater(ys: seq<System>, acts: seq<Action>, k: nat, m: nat, id: nat, g: Stage)
    requires AbstractRun(ys, acts) && MovesAt(ys, acts, k, id, g) && m < |ys| && id in ys[m].stages
    ensures ys[m].stages[id].Rank() > g.Rank() <==> m > k
  {
    hide AbstractStep;
    MoveShows(ys, acts, k, id, g);
    if m > k {
      StagesAdvance(ys, acts, k + 1, m, id);
    } else {
      StagesAdvance(ys, acts, m, k, id);
    }
  }

  ghost predicate CancelledBetween(ys: seq<System>, acts: seq<Action>, k: nat, j: nat, id: nat, f: Field) {
    exists m: nat :: k < m < j && CancelsAt(ys, acts, m, id, f)
  }

  /** After the worker has written COMPLETE: CANCELLED exactly if a cancel wrote it since. */
  lemma AfterComplete(ys: seq<System>, acts: seq<Action>, k: nat, j: nat, id: nat)
    requires AbstractRun(ys, acts) && MovesAt(ys, acts, k, id, Ended) && k < j < |ys|
    ensures id in ys[j].driver.tasks
    ensures ys[j].driver.tasks[id].state == if CancelledBetween(ys, acts, k, j, id, StateCancelled) then Cancelled else Complete
  {
    hide AbstractStep, MovesAt;
    MoveShows(ys, acts, k, id, Ended);
    StagesAdvance(ys, acts, k + 1, j, id);
    LastWriterDecides(ys, acts, j, id);
    forall m: nat | m < j && CancelsAt(ys, acts, m, id, StateCancelled)
      ensures StageState(ys[m].stages[id]) == StageState(ys[j].stages[id]) <==> m > k
    {
      PastIffLater(ys, acts, k, m, id, Ended);
    }
  }

  /** After the worker has cleared the error: -ECANCELED exactly if a cancel wrote it since. */
  lemma AfterClear(ys: seq<System>, acts: seq<Action>, k: nat, j: nat, id: nat)
    requires AbstractRun(ys, acts) && MovesAt(ys, acts, k, id, Finished) && k < j < |ys|
    ensures id in ys[j].driver.tasks
    ensures ys[j].driver.tasks[id].errorCode == if CancelledBetween(ys, acts, k, j, id, CancelError) then -ECANCELED else 0
  {
    hide AbstractStep, MovesAt;
    MoveShows(ys, acts, k, id, Finished);
    StagesAdvance(ys, acts, k + 1, j, id);
    LastWriterDecides(ys, acts, j, id);
    forall m: nat | m < j && CancelsAt(ys, acts, m, id, CancelError)
      ensures (ys[m].stages[id].Rank() >= 8 <==> ys[j].stages[id].Rank() >= 8) <==> m > k
    {
      PastIffLater(ys, acts, k, m, id, Finished);
    }
  }
}
