/** Every run of the concrete driver is a run of the abstract one, stages included. */
module StageRefinement {
  import opened Types
  import opened Memory
  import opened Steps
  import opened Invariant
  import opened Runs
  import opened Abstract
  import R = Refinement
  import W = WorkerPreservation
  import F = Fifo

  /** Two phases cover several stages; there the worker's place in its program decides. */
  function StageOf(p: Phase, pc: WorkerPc): Stage {
    match p
    case Stamped(_) => Dated
    case Queued(_, _) => InQueue
    case Picked(_, _) => Taken
    case Marked(_, _) => if pc.AddLoad? then Begun else Loaded
    case Started(_, _) => Loaded
    case Timed(_, _) => Ended
    case Completed(_, _) =>
      if pc.ClearError? then Finished
      else if pc.DropLoad? then Cleared
      else if pc.Signal? then Unloaded
      else Signalled
    case Retired(_, _) => Gone
    case _ => Fresh
  }

  function StageAt(s: State, t: nat): Stage
    requires t < |s.hist|
  {
    var p := s.hist[t].phase;
    StageOf(p, if p.Logged() && p.a < |s.workers| then s.workers[p.a].pc else Head)
  }

  function StageMap(s: State): map<nat, Stage>
    requires |s.hist| == |s.mem.tasks|
  {
    map id: nat | id <= |s.mem.tasks| && R.PublishedId(s.mem.tasks, id) :: StageAt(s, id - 1)
  }

  ghost function AbsSystem(s: State): System
    requires Shape(s)
  {
    System(R.Abs(s), StageMap(s))
  }

  /** Slot i is as published as before, and at the same stage. */
  ghost predicate StageSame(s: State, s': State, i: nat)
    requires i < |s.hist| == |s.mem.tasks| == |s'.hist| == |s'.mem.tasks|
  {
    && (s'.mem.tasks[i].state == Free <==> s.mem.tasks[i].state == Free)
    && (s.mem.tasks[i].state != Free ==> StageAt(s', i) == StageAt(s, i))
  }

  ghost predicate SameButFor(s: State, s': State, t: int)
    requires |s.hist| == |s.mem.tasks|
  {
    && |s'.hist| == |s'.mem.tasks| == |s.hist|
    && forall i :: 0 <= i < |s.hist| && i != t ==> StageSame(s, s', i)
  }

  lemma StagesSame(s: State, s': State)
    requires |s.hist| == |s.mem.tasks| && SameButFor(s, s', -1)
    ensures StageMap(s') == StageMap(s)
  {
    hide StageAt;
    forall id: nat | 1 <= id <= |s.hist|
      ensures R.PublishedId(s'.mem.tasks, id) <==> R.PublishedId(s.mem.tasks, id)
      ensures R.PublishedId(s.mem.tasks, id) ==> StageAt(s', id - 1) == StageAt(s, id - 1)
    {
      assert StageSame(s, s', id - 1);
    }
  }

  lemma StageMoves(s: State, s': State, t: nat)
    requires t < |s.hist| == |s.mem.tasks| && SameButFor(s, s', t) && s'.mem.tasks[t].state != Free
    ensures StageMap(s') == StageMap(s)[t + 1 := StageAt(s', t)]
  {
    hide StageAt;
    forall id: nat | 1 <= id <= |s.hist| && id != t + 1
      ensures R.PublishedId(s'.mem.tasks, id) <==> R.PublishedId(s.mem.tasks, id)
      ensures R.PublishedId(s.mem.tasks, id) ==> StageAt(s', id - 1) == StageAt(s, id - 1)
    {
      assert StageSame(s, s', id - 1);
    }
  }

  // ---- Which stages a step leaves alone ----

  predicate MovesOn(pc: ClientPc) {
    pc.SPublish? || pc.SStamp? || pc.SEnqueue?
  }

  lemma SubmitStageSame(s: State, c: nat, copied: bool, i: nat)
    requires Inv(s) && c < |s.clients| && s.clients[c].InSubmit() && i < |s.hist|
    requires MovesOn(s.clients[c]) ==> s.clients[c].t != i
    ensures |SubmitStep(s, c, copied).hist| == |SubmitStep(s, c, copied).mem.tasks| == |s.hist| == |s.mem.tasks|
    ensures StageSame(s, SubmitStep(s, c, copied), i)
  {
    hide Inv;
    InvClient(s, c);
    InvSlot(s, i);
    InvPool(s);
  }

  lemma ScanStageSame(s: State, c: nat, copied: bool, i: nat)
    requires Inv(s) && c < |s.clients| && s.clients[c].InScan() && i < |s.hist|
    ensures |ScanStep(s, c, copied).hist| == |ScanStep(s, c, copied).mem.tasks| == |s.hist| == |s.mem.tasks|
    ensures StageSame(s, ScanStep(s, c, copied), i)
  {
    hide Inv;
    InvClient(s, c);
    InvSlot(s, i);
  }

  lemma ClientStageSame(s: State, c: nat, copied: bool, i: nat)
    requires Inv(s) && Enabled(s, Client(c, copied)) && i < |s.hist|
    requires MovesOn(s.clients[c]) ==> s.clients[c].t != i
    ensures |ClientStep(s, c, copied).hist| == |ClientStep(s, c, copied).mem.tasks| == |s.hist| == |s.mem.tasks|
    ensures StageSame(s, ClientStep(s, c, copied), i)
  {
    hide Inv, SubmitStep, ScanStep;
    InvClient(s, c);
    if s.clients[c].InSubmit() {
      SubmitStageSame(s, c, copied, i);
    } else if s.clients[c].InScan() {
      ScanStageSame(s, c, copied, i);
    }
  }

  /** The task a worker's next step concerns, or -1. */
  function Concerned(s: State, a: nat): int
    requires a < |s.workers| && a < |s.mem.accels|
  {
    var pc := s.workers[a].pc;
    if pc.Busy() then pc.t
    else if pc.Take? && s.mem.accels[a].queue != [] then s.mem.accels[a].queue[0]
    else -1
  }

  /** Of the tasks of accelerator a only the one its worker holds is Marked or Completed. */
  lemma OnlyCurrent(s: State, a: nat, i: nat)
    requires Inv(s) && a < |s.workers| && i < |s.hist| && s.hist[i].phase.Logged() && s.hist[i].phase.a == a
    requires s.hist[i].phase.Marked? || s.hist[i].phase.Completed?
    ensures s.workers[a].pc.Busy() && s.workers[a].pc.t == i
  {
    hide Inv;
    InvSlot(s, i);
    InvAccel(s, a);
    assert EntryOk(s, a, s.hist[i].phase.k);
  }

  /** A worker's step writes no slot but the one it concerns, and moves no other thread. */
  lemma WorkTouches(s: State, a: nat, i: nat)
    requires Inv(s) && Enabled(s, Work(a)) && i < |s.hist|
    requires |s.mem.accels| == |s.workers| && i != Concerned(s, a)
    ensures |WorkStep(s, a).hist| == |WorkStep(s, a).mem.tasks| == |s.hist| == |s.mem.tasks|
    ensures WorkStep(s, a).mem.tasks[i] == s.mem.tasks[i] && WorkStep(s, a).hist[i] == s.hist[i]
  {
    hide Inv;
    InvAccel(s, a);
  }

  lemma WorkStageSame(s: State, a: nat, i: nat)
    requires Inv(s) && Enabled(s, Work(a)) && i < |s.hist|
    requires |s.mem.accels| == |s.workers| && i != Concerned(s, a)
    ensures |WorkStep(s, a).hist| == |WorkStep(s, a).mem.tasks| == |s.hist| == |s.mem.tasks|
    ensures StageSame(s, WorkStep(s, a), i)
  {
    hide Inv, WorkStep;
    InvShape(s);
    WorkTouches(s, a, i);
    F.WorkPc(s, a);
    var p := s.hist[i].phase;
    if (p.Marked? || p.Completed?) && p.a == a {
      OnlyCurrent(s, a, i);
    }
  }

  // ---- How the task it concerns moves ----

  /** From a stage to the next one if the step is a move of the abstract driver, else nowhere. */
  ghost predicate StageNext(s: State, s': State, t: nat, act: Action)
    requires t < |s.hist| == |s.mem.tasks| == |s'.hist| == |s'.mem.tasks|
  {
    && s.mem.tasks[t].state != Free && s'.mem.tasks[t].state != Free
    && (Moves(act) ==> StageAt(s, t) == DueStage(act) && StageAt(s', t) == DueStage(act).Succ())
    && (!Moves(act) ==> StageAt(s', t) == StageAt(s, t))
  }

  ghost predicate WorkerMoves(s: State, s': State, a: nat)
    requires a < |s.workers| == |s.mem.accels|
  {
    var t := Concerned(s, a);
    && 0 <= t < |s.hist| == |s.mem.tasks| == |s'.hist| == |s'.mem.tasks|
    && StageNext(s, s', t, R.WorkImage(s, a))
  }

  lemma TakeMoves(s: State, a: nat)
    requires Inv(s) && Enabled(s, Work(a)) && s.workers[a].pc.Take?
    requires |s.mem.accels| == |s.workers| && s.mem.accels[a].queue != []
    ensures WorkerMoves(s, IdleStep(s, a), a)
  {
    hide Inv;
    NextTask(s, a);
  }

  lemma NextTask(s: State, a: nat)
    requires Inv(s) && a < |s.workers| && s.workers[a].pc.Take? && |s.mem.accels| == |s.workers| && s.mem.accels[a].queue != []
    ensures |s.hist| == |s.mem.tasks| && Shape(s) && s.mem.accels[a].queue[0] < |s.hist|
    ensures s.hist[s.mem.accels[a].queue[0]].phase == Queued(a, s.workers[a].retired)
    ensures s.mem.tasks[s.mem.accels[a].queue[0]].state != Free
  {
    hide Inv;
    InvAccel(s, a);
    assert EntryOk(s, a, s.workers[a].retired);
    InvSlot(s, s.mem.accels[a].queue[0]);
  }

  /** What WorkerMoves needs to know of the task a busy worker holds. */
  lemma HeldTask(s: State, a: nat)
    requires Inv(s) && a < |s.workers| && s.workers[a].pc.Busy()
    ensures |s.hist| == |s.mem.tasks| && Shape(s) && s.workers[a].pc.t < |s.hist|
    ensures s.hist[s.workers[a].pc.t].phase == PhaseOf(s.workers[a].pc, a, s.workers[a].retired)
    ensures s.mem.tasks[s.workers[a].pc.t].state != Free
  {
    hide Inv;
    InvShape(s);
    W.CurrentFacts(s, a);
  }

  lemma RunMoves(s: State, a: nat)
    requires Inv(s) && Enabled(s, Work(a)) && s.workers[a].pc.InRun() && |s.mem.accels| == |s.workers|
    ensures WorkerMoves(s, RunStep(s, a), a)
  {
    hide Inv, Shape;
    HeldTask(s, a);
  }

  lemma ResultMoves(s: State, a: nat)
    requires Inv(s) && Enabled(s, Work(a)) && |s.mem.accels| == |s.workers|
    requires s.workers[a].pc.StampComplete? || s.workers[a].pc.MarkComplete? || s.workers[a].pc.ClearError?
    ensures WorkerMoves(s, FinishStep(s, a), a)
  {
    hide Inv, Shape;
    HeldTask(s, a);
  }

  lemma FinishMoves(s: State, a: nat)
    requires Inv(s) && Enabled(s, Work(a)) && s.workers[a].pc.InFinish() && |s.mem.accels| == |s.workers|
    ensures WorkerMoves(s, FinishStep(s, a), a)
  {
    hide Inv, Shape;
    InvShape(s);
    if s.workers[a].pc.StampComplete? || s.workers[a].pc.MarkComplete? || s.workers[a].pc.ClearError? {
      hide WorkerMoves, FinishStep;
      ResultMoves(s, a);
    } else {
      HeldTask(s, a);
    }
  }

  lemma ClientMoves(s: State, c: nat, copied: bool)
    requires Inv(s) && Enabled(s, Client(c, copied)) && MovesOn(s.clients[c])
    ensures s.clients[c].t < |s.hist| == |s.mem.tasks|
    ensures var s', t := SubmitStep(s, c, copied), s.clients[c].t;
            && |s'.hist| == |s'.mem.tasks| == |s.hist| && s'.mem.tasks[t].state != Free
            && (s.clients[c].SPublish? ==> s.mem.tasks[t].id == t + 1 && StageAt(s', t) == Fresh)
            && (!s.clients[c].SPublish? ==> StageNext(s, s', t, R.ClientImage(s, s.clients[c])))
  {
    hide Inv;
    InvClient(s, c);
    InvSlot(s, s.clients[c].t);
  }

  // ---- The simulation ----

  ghost predicate Simulates(s: State, e: Event) {
    && Shape(s) && Enabled(s, e) && Shape(Apply(s, e))
    && AbstractStep(AbsSystem(s), R.Image(s, e), AbsSystem(Apply(s, e)))
  }

  /** The abstract record a worker's move concerns. */
  lemma MovedIs(s: State, a: nat)
    requires Inv(s) && Enabled(s, Work(a)) && Allowed(R.Abs(s), R.WorkImage(s, a)) && Moves(R.WorkImage(s, a))
    ensures Moved(R.Abs(s), R.WorkImage(s, a)) == Concerned(s, a) + 1
  {
    hide Inv;
    InvAccel(s, a);
    if s.workers[a].pc.Busy() {
      W.CurrentFacts(s, a);
      assert s.mem.accels[a].active == [s.workers[a].pc.t];
      assert R.Abs(s).active[a] == Some(s.workers[a].pc.t + 1);
    } else {
      assert R.Abs(s).queues[a][0] == s.mem.accels[a].queue[0] + 1;
    }
  }

  lemma WorkerMovesOrRests(s: State, a: nat)
    requires Inv(s) && Enabled(s, Work(a)) && |s.mem.accels| == |s.workers|
    ensures Concerned(s, a) >= 0 ==> WorkerMoves(s, WorkStep(s, a), a)
    ensures Concerned(s, a) < 0 ==> R.WorkImage(s, a) == Stutter
  {
    hide Inv, RunStep, FinishStep, IdleStep, WorkerMoves;
    InvAccel(s, a);
    var pc := s.workers[a].pc;
    if pc.InRun() {
      RunMoves(s, a);
    } else if pc.InFinish() {
      FinishMoves(s, a);
    } else if Concerned(s, a) >= 0 {
      TakeMoves(s, a);
    }
  }

  lemma WorkStages(s: State, a: nat)
    requires Inv(s) && Enabled(s, Work(a)) && |s.mem.accels| == |s.workers|
    ensures |WorkStep(s, a).hist| == |WorkStep(s, a).mem.tasks| && |s.hist| == |s.mem.tasks|
    ensures var act, t := R.WorkImage(s, a), Concerned(s, a);
            && (Moves(act) ==> t >= 0 && t + 1 in StageMap(s) && StageMap(s)[t + 1] == DueStage(act))
            && StageMap(WorkStep(s, a)) == if Moves(act) then StageMap(s)[t + 1 := DueStage(act).Succ()] else StageMap(s)
  {
    hide Inv, StageAt, WorkStep, StageSame;
    InvShape(s);
    var s', t := WorkStep(s, a), Concerned(s, a);
    WorkerMovesOrRests(s, a);
    OthersStay(s, a);
    if Moves(R.WorkImage(s, a)) {
      StageMoves(s, s', t);
    } else {
      if t >= 0 {
        RestIsSame(s, s', t, R.WorkImage(s, a));
      }
      StagesSame(s, s');
    }
  }

  lemma RestIsSame(s: State, s': State, t: nat, act: Action)
    requires t < |s.hist| == |s.mem.tasks| == |s'.hist| == |s'.mem.tasks| && !Moves(act)
    requires StageNext(s, s', t, act)
    ensures StageSame(s, s', t)
  {
  }

  lemma OthersStay(s: State, a: nat)
    requires Inv(s) && Enabled(s, Work(a)) && |s.mem.accels| == |s.workers|
    ensures |s.hist| == |s.mem.tasks| && SameButFor(s, WorkStep(s, a), Concerned(s, a))
  {
    hide Inv, StageSame, WorkStep;
    InvShape(s);
    StepInv(s, Work(a));
    InvShape(Apply(s, Work(a)));
    StepSizes(s, Work(a));
    forall i | 0 <= i < |s.hist| && i != Concerned(s, a) ensures StageSame(s, WorkStep(s, a), i) {
      WorkStageSame(s, a, i);
    }
  }

  lemma WorkSimulates(s: State, a: nat)
    requires Inv(s) && Enabled(s, Work(a))
    ensures Simulates(s, Work(a))
  {
    hide Inv, WorkStep, StageMap, R.Abs, Allowed, Next, Moves;
    StepInv(s, Work(a));
    InvShape(s);
    InvShape(Apply(s, Work(a)));
    R.DataRefines(s, Work(a));
    WorkStages(s, a);
    if Moves(R.WorkImage(s, a)) {
      MovedIs(s, a);
    }
    NoPublish(s, a);
  }

  lemma NoPublish(s: State, a: nat)
    requires a < |s.workers| && a < |s.mem.accels|
    ensures !R.WorkImage(s, a).Publish?
  {
  }

  // ---- Callers ----

  lemma CallersStay(s: State, c: nat, copied: bool)
    requires Inv(s) && Enabled(s, Client(c, copied))
    ensures |s.hist| == |s.mem.tasks|
    ensures SameButFor(s, ClientStep(s, c, copied), if MovesOn(s.clients[c]) then s.clients[c].t else -1)
  {
    hide Inv, StageSame, ClientStep;
    InvShape(s);
    StepInv(s, Client(c, copied));
    InvShape(Apply(s, Client(c, copied)));
    StepSizes(s, Client(c, copied));
    forall i | 0 <= i < |s.hist| && (MovesOn(s.clients[c]) ==> i != s.clients[c].t)
      ensures StageSame(s, ClientStep(s, c, copied), i)
    {
      ClientStageSame(s, c, copied, i);
    }
  }

  lemma ClientStages(s: State, c: nat, copied: bool)
    requires Inv(s) && Enabled(s, Client(c, copied))
    ensures |ClientStep(s, c, copied).hist| == |ClientStep(s, c, copied).mem.tasks| && |s.hist| == |s.mem.tasks|
    ensures var pc, m, m' := s.clients[c], StageMap(s), StageMap(ClientStep(s, c, copied));
            && (pc.SPublish? ==> pc.t < |s.mem.tasks| && s.mem.tasks[pc.t].id == pc.t + 1 && m' == m[pc.t + 1 := Fresh])
            && (pc.SStamp? ==> pc.t + 1 in m && m[pc.t + 1] == Fresh && m' == m[pc.t + 1 := Dated])
            && (pc.SEnqueue? ==> pc.t + 1 in m && m[pc.t + 1] == Dated && m' == m[pc.t + 1 := InQueue])
            && (!MovesOn(pc) ==> m' == m)
  {
    hide Inv, StageAt, SubmitStep, ScanStep, StageSame;
    InvShape(s);
    CallersStay(s, c, copied);
    var pc, s' := s.clients[c], ClientStep(s, c, copied);
    if MovesOn(pc) {
      ClientMoves(s, c, copied);
      StageMoves(s, s', pc.t);
    } else {
      StagesSame(s, s');
    }
  }

  lemma ClientSimulates(s: State, c: nat, copied: bool)
    requires Inv(s) && Enabled(s, Client(c, copied))
    ensures Simulates(s, Client(c, copied))
  {
    hide Inv, ClientStep, StageMap, R.Abs, Allowed, Next;
    var e := Client(c, copied);
    StepInv(s, e);
    InvShape(s);
    InvShape(Apply(s, e));
    R.DataRefines(s, e);
    ClientStages(s, c, copied);
  }

  /** Every step of every thread is one permitted abstract action, or none. */
  lemma StepRefines(s: State, e: Event)
    requires Inv(s) && Enabled(s, e)
    ensures Simulates(s, e)
  {
    hide Inv, ClientStep, WorkStep, R.Abs, StageAt, Allowed, Next;
    if e.Client? {
      ClientSimulates(s, e.c, e.copied);
    } else if e.Work? {
      WorkSimulates(s, e.a);
    } else {
      StepInv(s, e);
      InvShape(s);
      InvShape(Apply(s, e));
      R.DataRefines(s, e);
      QuietStages(s, e);
    }
  }

  lemma QuietStages(s: State, e: Event)
    requires Shape(s) && Enabled(s, e) && !e.Client? && !e.Work?
    ensures |Apply(s, e).hist| == |Apply(s, e).mem.tasks| && StageMap(Apply(s, e)) == StageMap(s)
    ensures !R.Image(s, e).Publish? && !Moves(R.Image(s, e))
  {
    StagesSame(s, Apply(s, e));
  }

  ghost function AbsRun(ss: seq<State>): (ys: seq<System>)
    requires forall i :: 0 <= i < |ss| ==> Shape(ss[i])
    ensures |ys| == |ss| && forall i :: 0 <= i < |ss| ==> ys[i] == AbsSystem(ss[i])
  {
    seq(|ss|, i requires 0 <= i < |ss| => AbsSystem(ss[i]))
  }

  ghost function ImageRun(ss: seq<State>, es: seq<Event>): (acts: seq<Action>)
    requires Run(ss, es)
    ensures |acts| == |es| && forall i :: 0 <= i < |es| ==> Step(ss[i], es[i], ss[i + 1]) && acts[i] == R.Image(ss[i], es[i])
  {
    seq(|es|, i requires 0 <= i < |es| && Step(ss[i], es[i], ss[i + 1]) => R.Image(ss[i], es[i]))
  }

  /** Refinement: any interleaving of callers and workers, seen through AbsSystem, is a run of the
      abstract driver: its queues, records and loads, and every move of every task in its turn. */
  lemma DriverRefines(ss: seq<State>, es: seq<Event>)
    requires DriverRun(ss, es)
    ensures forall i :: 0 <= i < |ss| ==> Shape(ss[i])
    ensures AbstractRun(AbsRun(ss), ImageRun(ss, es))
    ensures forall a :: 0 <= a < |ss[0].workers| ==> R.Abs(ss[0]).queues[a] == []
  {
    hide Inv, AbsSystem, AbstractStep;
    DriverInv(ss, es);
    forall i | 0 <= i < |ss| ensures Shape(ss[i]) {
      InvShape(ss[i]);
    }
    var ys, acts := AbsRun(ss), ImageRun(ss, es);
    forall i | 0 <= i < |acts| ensures AbstractStep(ys[i], acts[i], ys[i + 1]) {
      assert Step(ss[i], es[i], ss[i + 1]);
      StepRefines(ss[i], es[i]);
    }
    StartsEmpty(ss[0]);
  }

  lemma StartsEmpty(s: State)
    requires Shape(s) && s == Init(|s.mem.tasks|, |s.workers|, |s.clients|, s.boot)
    ensures AbsSystem(s).driver.tasks == map[] && AbsSystem(s).stages == map[]
    ensures forall a :: 0 <= a < |s.workers| ==> R.Abs(s).queues[a] == []
  {
  }
}
