/** What every step of the concrete driver does to the abstract records, queues and loads. */
module Refinement {
  import opened Types
  import opened Memory
  import opened Steps
  import opened Invariant
  import opened Runs
  import opened Abstract
  import P = Placement
  import W = WorkerPreservation

  predicate PublishedId(tasks: seq<Task>, id: nat) {
    1 <= id <= |tasks| && tasks[id - 1].state != Free
  }

  function RecordMap(tasks: seq<Task>): map<nat, Task> {
    map id: nat | id <= |tasks| && PublishedId(tasks, id) :: tasks[id - 1]
  }

  function Ids(slots: seq<nat>): seq<nat> {
    seq(|slots|, i requires 0 <= i < |slots| => slots[i] + 1)
  }

  function ActiveId(slots: seq<nat>): Option<nat> {
    if slots == [] then None else Some(slots[0] + 1)
  }

  function Queues(ms: seq<AccelMem>): seq<seq<nat>> {
    seq(|ms|, a requires 0 <= a < |ms| => Ids(ms[a].queue))
  }

  function Actives(ms: seq<AccelMem>): seq<Option<nat>> {
    seq(|ms|, a requires 0 <= a < |ms| => ActiveId(ms[a].active))
  }

  /** The load as a reader of the abstract driver sees it. */
  function Loads(ms: seq<AccelMem>): seq<int> {
    seq(|ms|, a requires 0 <= a < |ms| => ms[a].load)
  }

  function Abs(s: State): Driver {
    Driver(RecordMap(s.mem.tasks), Queues(s.mem.accels), Actives(s.mem.accels), Loads(s.mem.accels), s.now)
  }

  /** The map is keyed by the tasks' own IDs: every published slot is found under its `id`. */
  lemma KeyedById(s: State, i: nat)
    requires Inv(s) && i < |s.mem.tasks| && s.mem.tasks[i].state != Free
    ensures s.mem.tasks[i].id in Abs(s).tasks && Abs(s).tasks[s.mem.tasks[i].id] == s.mem.tasks[i]
  {
    assert SlotOk(s, i);
  }

  function ClientImage(s: State, pc: ClientPc): Action
    requires pc.SPublish? ==> pc.t < |s.mem.tasks|
  {
    match pc
    case SPublish(_, t) => Publish(s.mem.tasks[t].(state := Pending))
    case SStamp(_, t) => StampSubmit(t + 1)
    case SEnqueue(_, t) => Append(t + 1)
    case CMark(_, t) => CancelWrite(t + 1, StateCancelled)
    case CError(_, t) => CancelWrite(t + 1, CancelError)
    case CSignal(_, t) => CancelWrite(t + 1, DoneSignal)
    case _ => Stutter
  }

  function WorkImage(s: State, a: nat): Action
    requires a < |s.workers| && a < |s.mem.accels|
  {
    match s.workers[a].pc
    case Take => if s.mem.accels[a].queue == [] then Stutter else TakeNext(a)
    case MarkRunning(_) => WorkerWrite(a, StateRunning)
    case AddLoad(_) => ChangeLoad(a, true)
    case StampComplete(_) => WorkerWrite(a, CompleteTime)
    case MarkComplete(_) => WorkerWrite(a, StateComplete)
    case ClearError(_) => WorkerWrite(a, NoError)
    case DropLoad(_) => ChangeLoad(a, false)
    case Signal(_) => WorkerWrite(a, DoneSignal)
    case RetireTask(_) => Drop(a)
    case _ => Stutter
  }

  function Image(s: State, e: Event): Action
    requires Shape(s) && Enabled(s, e)
  {
    match e
    case Tick(d) => Advance(d)
    case Client(c, _) => (assert ClientShape(s, s.clients[c]); ClientImage(s, s.clients[c]))
    case Work(a) => WorkImage(s, a)
    case _ => Stutter
  }

  // ---- Map and sequence bookkeeping ----

  /** Writing a published slot is writing its record. */
  lemma PutRecord(tasks: seq<Task>, t: nat, x: Task)
    requires t < |tasks| && x.state != Free
    ensures RecordMap(tasks[t := x]) == RecordMap(tasks)[t + 1 := x]
  {
  }

  /** Writing a slot nobody can see yet changes no record. */
  lemma PutHidden(tasks: seq<Task>, t: nat, x: Task)
    requires t < |tasks| && tasks[t].state == Free && x.state == Free
    ensures RecordMap(tasks[t := x]) == RecordMap(tasks)
  {
  }

  lemma NotWaiting(s: State, t: nat)
    requires Inv(s) && t < |s.hist| && s.hist[t].phase.Owned()
    ensures !Placed(Abs(s), t + 1)
  {
    P.OnlyPlace(s, t);
    forall a | 0 <= a < |Abs(s).queues| ensures t + 1 !in Abs(s).queues[a] && Abs(s).active[a] != Some(t + 1) {
      assert !P.At(s, t, P.OnQueue(a)) && !P.At(s, t, P.OnActive(a));
    }
  }

  // ---- Simulation ----

  ghost predicate Simulates(s: State, e: Event)
    requires Shape(s) && Enabled(s, e)
  {
    Allowed(Abs(s), Image(s, e)) && Abs(Apply(s, e)) == Next(Abs(s), Image(s, e))
  }

  lemma AllocSimulates(s: State, c: nat, copied: bool)
    requires Inv(s) && c < |s.clients| && s.clients[c].SAlloc?
    ensures Enabled(s, Client(c, copied)) && Simulates(s, Client(c, copied))
  {
    if s.mem.free != [] {
      assert SlotOk(s, s.mem.free[0]);
      PutHidden(s.mem.tasks, s.mem.free[0], AllocHead(s.mem).tasks[s.mem.free[0]]);
    }
  }

  lemma StampSimulates(s: State, c: nat, copied: bool)
    requires Inv(s) && c < |s.clients| && s.clients[c].SStamp?
    ensures Enabled(s, Client(c, copied)) && Simulates(s, Client(c, copied))
  {
    hide Inv;
    var t := s.clients[c].t;
    InvClient(s, c);
    InvSlot(s, t);
    NotWaiting(s, t);
    PutRecord(s.mem.tasks, t, s.mem.tasks[t].(submitJiffies := Jiffies(s.now)));
  }

  lemma SubmitSimulates(s: State, c: nat, copied: bool)
    requires Inv(s) && c < |s.clients| && s.clients[c].InSubmit()
    ensures Enabled(s, Client(c, copied)) && Simulates(s, Client(c, copied))
  {
    var pc := s.clients[c];
    assert ClientShape(s, pc) && ClientOk(s, c, pc);
    match pc
    case SAlloc(_) => AllocSimulates(s, c, copied);
    case SFill(d, t) =>
      assert SlotOk(s, t);
      PutHidden(s.mem.tasks, t, Filled(s.mem.tasks[t], d));
    case SPublish(_, t) =>
      assert SlotOk(s, t);
      PutRecord(s.mem.tasks, t, s.mem.tasks[t].(state := Pending));
    case SStamp(_, _) => StampSimulates(s, c, copied);
    case SEnqueue(_, t) => AppendSimulates(s, c, copied);
    case _ =>
  }

  lemma AppendSimulates(s: State, c: nat, copied: bool)
    requires Inv(s) && c < |s.clients| && s.clients[c].SEnqueue?
    ensures Enabled(s, Client(c, copied)) && Simulates(s, Client(c, copied))
  {
    var d, t := s.clients[c].desc, s.clients[c].t;
    assert ClientShape(s, s.clients[c]) && ClientOk(s, c, s.clients[c]);
    assert SlotOk(s, t);
    NotWaiting(s, t);
    var s' := EnqueueStep(s, c, d, t);
    assert Ids(s.mem.accels[d.accelType].queue + [t]) == Ids(s.mem.accels[d.accelType].queue) + [t + 1];
    assert Queues(s'.mem.accels) == Next(Abs(s), Append(t + 1)).queues;
    assert Actives(s'.mem.accels) == Actives(s.mem.accels) && Loads(s'.mem.accels) == Loads(s.mem.accels);
  }

  function CancelField(pc: ClientPc): Field
    requires pc.CMark? || pc.CError? || pc.CSignal?
  {
    if pc.CMark? then StateCancelled else if pc.CError? then CancelError else DoneSignal
  }

  lemma CancelEffect(s: State, c: nat, copied: bool)
    requires Shape(s) && c < |s.clients| && (s.clients[c].CMark? || s.clients[c].CError? || s.clients[c].CSignal?)
    ensures var pc, s' := s.clients[c], ScanStep(s, c, copied);
            && pc.t < |s.mem.tasks|
            && s'.mem == Put(s.mem, pc.t, Written(s.mem.tasks[pc.t], CancelField(pc), s.now))
            && s'.now == s.now
  {
    assert ClientShape(s, s.clients[c]);
  }

  lemma CancelSimulates(s: State, c: nat, copied: bool)
    requires Inv(s) && c < |s.clients| && (s.clients[c].CMark? || s.clients[c].CError? || s.clients[c].CSignal?)
    ensures Enabled(s, Client(c, copied)) && Simulates(s, Client(c, copied))
  {
    hide Inv, ScanStep, SubmitStep, Next, Abs, Allowed;
    InvClient(s, c);
    CancelEffect(s, c, copied);
    MatchedIsPublished(s, c);
    CancelMatches(s, ScanStep(s, c, copied), s.clients[c].t, CancelField(s.clients[c]));
  }

  /** Writing a cancel's field into a published slot is the abstract cancel write. */
  lemma CancelMatches(s: State, s': State, t: nat, f: Field)
    requires t < |s.mem.tasks| && s.mem.tasks[t].state != Free && (f.StateCancelled? || f.CancelError? || f.DoneSignal?)
    requires s'.mem == Put(s.mem, t, Written(s.mem.tasks[t], f, s.now)) && s'.now == s.now
    ensures Allowed(Abs(s), CancelWrite(t + 1, f)) && Abs(s') == Next(Abs(s), CancelWrite(t + 1, f))
  {
    PutRecord(s.mem.tasks, t, Written(s.mem.tasks[t], f, s.now));
  }

  lemma MatchedIsPublished(s: State, c: nat)
    requires Inv(s) && c < |s.clients| && (s.clients[c].CMark? || s.clients[c].CError? || s.clients[c].CSignal?)
    ensures s.clients[c].t < |s.mem.tasks| && s.mem.tasks[s.clients[c].t].state != Free
  {
    assert ClientShape(s, s.clients[c]) && ClientOk(s, c, s.clients[c]);
    assert SlotOk(s, s.clients[c].t);
  }

  lemma ReadsChangeNothing(s: State, c: nat, copied: bool)
    requires Shape(s) && c < |s.clients| && s.clients[c].InScan()
    requires !s.clients[c].CMark? && !s.clients[c].CError? && !s.clients[c].CSignal?
    ensures ScanStep(s, c, copied).mem == s.mem && ScanStep(s, c, copied).now == s.now
  {
  }

  lemma ScanSimulates(s: State, c: nat, copied: bool)
    requires Inv(s) && c < |s.clients| && s.clients[c].InScan()
    ensures Enabled(s, Client(c, copied)) && Simulates(s, Client(c, copied))
  {
    var pc := s.clients[c];
    if pc.CMark? || pc.CError? || pc.CSignal? {
      CancelSimulates(s, c, copied);
    } else {
      ReadsChangeNothing(s, c, copied);
    }
  }

  lemma TakeSimulates(s: State, a: nat)
    requires Inv(s) && Enabled(s, Work(a)) && s.workers[a].pc.Take?
    ensures Simulates(s, Work(a))
  {
    assert AccelOk(s, a);
    var m := s.mem.accels[a];
    if m.queue != [] {
      var s' := WorkStep(s, a);
      assert Ids(m.queue[1..]) == Ids(m.queue)[1..];
      assert Queues(s'.mem.accels) == Next(Abs(s), TakeNext(a)).queues;
      assert Actives(s'.mem.accels) == Next(Abs(s), TakeNext(a)).active;
      assert Loads(s'.mem.accels) == Loads(s.mem.accels);
    }
  }

  lemma WriteSimulates(s: State, a: nat)
    requires Inv(s) && Enabled(s, Work(a)) && WorkImage(s, a).WorkerWrite?
    ensures Simulates(s, Work(a))
  {
    hide Inv, RunStep, FinishStep, IdleStep;
    InvAccel(s, a);
    W.CurrentFacts(s, a);
    var t := s.workers[a].pc.t;
    assert Actives(s.mem.accels)[a] == Some(t + 1);
    WorkerWriteEffect(s, a);
    PutRecord(s.mem.tasks, t, Written(s.mem.tasks[t], WorkImage(s, a).field, s.now));
  }

  lemma WorkerWriteEffect(s: State, a: nat)
    requires Inv(s) && Enabled(s, Work(a)) && WorkImage(s, a).WorkerWrite?
    ensures var t, s' := s.workers[a].pc.t, WorkStep(s, a);
            && t < |s.mem.tasks|
            && s'.mem == Put(s.mem, t, Written(s.mem.tasks[t], WorkImage(s, a).field, s.now))
            && s'.now == s.now
  {
    hide Inv;
    InvAccel(s, a);
  }

  lemma LoadSimulates(s: State, a: nat)
    requires Inv(s) && Enabled(s, Work(a)) && WorkImage(s, a).ChangeLoad?
    ensures Simulates(s, Work(a))
  {
    hide Inv;
    InvAccel(s, a);
    W.CurrentFacts(s, a);
    var s' := WorkStep(s, a);
    assert Queues(s'.mem.accels) == Queues(s.mem.accels) && Actives(s'.mem.accels) == Actives(s.mem.accels);
    assert Actives(s.mem.accels)[a].Some?;
    assert Loads(s'.mem.accels) == Next(Abs(s), WorkImage(s, a)).loads;
  }

  lemma DropSimulates(s: State, a: nat)
    requires Inv(s) && Enabled(s, Work(a)) && s.workers[a].pc.RetireTask?
    ensures Simulates(s, Work(a))
  {
    W.CurrentFacts(s, a);
    var t := s.workers[a].pc.t;
    var s' := WorkStep(s, a);
    assert s.mem.accels[a].active == [t];
    assert Queues(s'.mem.accels) == Queues(s.mem.accels) && Loads(s'.mem.accels) == Loads(s.mem.accels);
    assert Actives(s'.mem.accels) == Next(Abs(s), Drop(a)).active;
  }

  lemma WorkSimulates(s: State, a: nat)
    requires Inv(s) && Enabled(s, Work(a))
    ensures Simulates(s, Work(a))
  {
    var act := WorkImage(s, a);
    if s.workers[a].pc.Take? {
      TakeSimulates(s, a);
    } else if act.WorkerWrite? {
      WriteSimulates(s, a);
    } else if act.ChangeLoad? {
      LoadSimulates(s, a);
    } else if act.Drop? {
      DropSimulates(s, a);
    }
  }

  lemma DataRefines(s: State, e: Event)
    requires Inv(s) && Enabled(s, e)
    ensures Simulates(s, e)
  {
    if e.Client? {
      if s.clients[e.c].InSubmit() {
        SubmitSimulates(s, e.c, e.copied);
      } else if s.clients[e.c].InScan() {
        ScanSimulates(s, e.c, e.copied);
      } else {
        assert ClientShape(s, s.clients[e.c]);
      }
    } else if e.Work? {
      WorkSimulates(s, e.a);
    }
  }
}
