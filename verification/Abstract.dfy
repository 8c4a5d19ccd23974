/** The driver as its users see it: a map from task ID to record, one FIFO queue per accelerator
    and how far each record has come. No slots, no free list, no scans, no half-filled tasks. */
module Abstract {
  import opened Types

  datatype Option<T> = None | Some(value: T)

  datatype Driver = Driver(
    tasks: map<nat, Task>,
    queues: seq<seq<nat>>,
    active: seq<Option<nat>>,
    loads: seq<int>,
    now: nat)

  /** One field of a record that the running worker, or a cancel, writes. */
  datatype Field = StateRunning | CompleteTime | StateComplete | NoError | StateCancelled | CancelError | DoneSignal

  datatype Action =
    | Stutter
    | Advance(d: nat)
    | Publish(task: Task)
    | StampSubmit(id: nat)
    | Append(id: nat)
    | TakeNext(a: nat)
    | WorkerWrite(a: nat, field: Field)
    | ChangeLoad(a: nat, up: bool)
    | Drop(a: nat)
    | CancelWrite(id: nat, field: Field)

  ghost predicate Placed(d: Driver, id: nat) {
    || (exists a :: 0 <= a < |d.queues| && id in d.queues[a])
    || (exists a :: 0 <= a < |d.active| && d.active[a] == Some(id))
  }

  ghost predicate Shaped(d: Driver) {
    |d.queues| == |d.active| == |d.loads|
  }

  predicate HasActive(d: Driver, a: nat) {
    a < |d.active| && d.active[a].Some? && d.active[a].value in d.tasks
  }

  ghost predicate Allowed(d: Driver, act: Action) {
    && Shaped(d)
    && match act
       case Stutter => true
       case Advance(_) => true
       case Publish(task) =>
         && task.id > 0 && task.id !in d.tasks && task.accelType < |d.queues|
         && task.state == Pending && task.errorCode == 0 && !task.done
       case StampSubmit(id) => id in d.tasks && !Placed(d, id)
       case Append(id) => id in d.tasks && d.tasks[id].accelType < |d.queues| && !Placed(d, id)
       case TakeNext(a) => a < |d.queues| && d.queues[a] != [] && d.active[a].None?
       case WorkerWrite(a, f) => HasActive(d, a) && !f.StateCancelled? && !f.CancelError?
       case ChangeLoad(a, up) => a < |d.loads| && d.active[a].Some? && d.loads[a] == (if up then 0 else 10)
       case Drop(a) => HasActive(d, a) && d.tasks[d.active[a].value].done
       case CancelWrite(id, f) => id in d.tasks && (f.StateCancelled? || f.CancelError? || f.DoneSignal?)
  }

  function Written(x: Task, f: Field, now: nat): Task {
    match f
    case StateRunning => x.(state := Running)
    case CompleteTime => x.(completeJiffies := Jiffies(now))
    case StateComplete => x.(state := Complete)
    case NoError => x.(errorCode := 0)
    case StateCancelled => x.(state := Cancelled)
    case CancelError => x.(errorCode := -ECANCELED)
    case DoneSignal => x.(done := true)
  }

  ghost function Next(d: Driver, act: Action): Driver
    requires Allowed(d, act)
  {
    match act
    case Stutter => d
    case Advance(n) => d.(now := d.now + n)
    case Publish(task) => d.(tasks := d.tasks[task.id := task])
    case StampSubmit(id) => d.(tasks := d.tasks[id := d.tasks[id].(submitJiffies := Jiffies(d.now))])
    case Append(id) =>
      var a := d.tasks[id].accelType;
      d.(queues := d.queues[a := d.queues[a] + [id]])
    case TakeNext(a) =>
      d.(queues := d.queues[a := d.queues[a][1..]], active := d.active[a := Some(d.queues[a][0])])
    case WorkerWrite(a, f) =>
      var id := d.active[a].value;
      d.(tasks := d.tasks[id := Written(d.tasks[id], f, d.now)])
    case ChangeLoad(a, up) => d.(loads := d.loads[a := if up then 10 else 0])
    case Drop(a) => d.(active := d.active[a := None])
    case CancelWrite(id, f) => d.(tasks := d.tasks[id := Written(d.tasks[id], f, d.now)])
  }

  // ---- The order of a task's life ----

  /** How far a record has come; the moves are made in this order. Publishing makes it Fresh. */
  datatype Stage =
    | Fresh
    | Dated
    | InQueue
    | Taken
    | Begun
    | Loaded
    | Ended
    | Finished
    | Cleared
    | Unloaded
    | Signalled
    | Gone
  {
    function Rank(): nat {
      match this
      case Fresh => 0
      case Dated => 1
      case InQueue => 2
      case Taken => 3
      case Begun => 4
      case Loaded => 5
      case Ended => 6
      case Finished => 7
      case Cleared => 8
      case Unloaded => 9
      case Signalled => 10
      case Gone => 11
    }

    function Succ(): Stage {
      match this
      case Fresh => Dated
      case Dated => InQueue
      case InQueue => Taken
      case Taken => Begun
      case Begun => Loaded
      case Loaded => Ended
      case Ended => Finished
      case Finished => Cleared
      case Cleared => Unloaded
      case Unloaded => Signalled
      case Signalled => Gone
      case Gone => Gone
    }
  }

  predicate Moves(act: Action) {
    act.StampSubmit? || act.Append? || act.TakeNext? || act.WorkerWrite? || act.ChangeLoad? || act.Drop?
  }

  /** The stage a record must have reached for this move. */
  function DueStage(act: Action): Stage {
    match act
    case StampSubmit(_) => Fresh
    case Append(_) => Dated
    case TakeNext(_) => InQueue
    case ChangeLoad(_, up) => if up then Begun else Cleared
    case Drop(_) => Signalled
    case WorkerWrite(_, f) => WriteStage(f)
    case _ => Gone
  }

  function WriteStage(f: Field): Stage {
    match f
    case StateRunning => Taken
    case CompleteTime => Loaded
    case StateComplete => Ended
    case NoError => Finished
    case DoneSignal => Unloaded
    case _ => Gone
  }

  /** The record a move concerns. */
  ghost function Moved(d: Driver, act: Action): nat
    requires Allowed(d, act) && Moves(act)
  {
    match act
    case StampSubmit(id) => id
    case Append(id) => id
    case TakeNext(a) => d.queues[a][0]
    case WorkerWrite(a, _) => d.active[a].value
    case ChangeLoad(a, _) => d.active[a].value
    case Drop(a) => d.active[a].value
  }

  datatype System = System(driver: Driver, stages: map<nat, Stage>)

  /** Each move only when it is due: so each once, and all in order. */
  ghost predicate Permitted(y: System, act: Action) {
    && Allowed(y.driver, act)
    && (Moves(act) ==>
          Moved(y.driver, act) in y.stages && y.stages[Moved(y.driver, act)] == DueStage(act))
  }

  ghost function Follow(y: System, act: Action): System
    requires Permitted(y, act)
  {
    System(Next(y.driver, act),
           if act.Publish? then y.stages[act.task.id := Fresh]
           else if Moves(act) then y.stages[Moved(y.driver, act) := DueStage(act).Succ()]
           else y.stages)
  }

  /** A run of the abstract driver from no tasks at all, one action between consecutive states. */
  ghost predicate AbstractRun(ys: seq<System>, acts: seq<Action>) {
    && |ys| == |acts| + 1
    && ys[0].driver.tasks == map[] && ys[0].stages == map[]
    && forall i :: 0 <= i < |acts| ==> AbstractStep(ys[i], acts[i], ys[i + 1])
  }

  ghost predicate AbstractStep(y: System, act: Action, y': System) {
    Permitted(y, act) && y' == Follow(y, act)
  }
}
