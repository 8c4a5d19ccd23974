/** Steps of workers, of the clock and of the stopping thread keep the invariant. */
module WorkerPreservation {
  import opened Types
  import opened Memory
  import opened Steps
  import opened Invariant
  import opened Preservation

  lemma KeepTick(s: State, d: nat)
    requires Inv(s)
    ensures Inv(Apply(s, Tick(d)))
  {
    var s' := Apply(s, Tick(d));
    ShapeKept(s, s', -1, -1);
    Assemble(s, s', -1, -1, -1);
  }

  lemma KeepStop(s: State, e: Event)
    requires Inv(s) && Enabled(s, e) && (e.ClearRunning? || e.RequestStop?)
    ensures Inv(Apply(s, e))
  {
    var s' := Apply(s, e);
    ShapeKept(s, s', -1, -1);
    Assemble(s, s', -1, -1, -1);
  }

  /** A step that changes nothing but the worker's own program counter and variables. */
  lemma KeepWorkerLocal(s: State, a: nat, pc: WorkerPc)
    requires Inv(s) && a < |s.workers|
    requires s.workers[a].pc.Busy() == pc.Busy()
    requires pc.Busy() ==>
               && pc.t == s.workers[a].pc.t
               && pc.t < |s.hist|
               && PhaseOf(pc, a, Current(s, a)) == PhaseOf(s.workers[a].pc, a, Current(s, a))
               && Load(pc) == Load(s.workers[a].pc)
               && WaitOk(pc, s.mem.tasks[pc.t], s.hist[pc.t], s.boot, s.now)
    ensures Inv(WPc(s, a, pc))
  {
    var s' := WPc(s, a, pc);
    assert AccelShape(s.mem, a) && WorkerShape(s, s.workers[a].pc);
    ShapeKept(s, s', -1, a);
    assert AccelOk(s, a);
    forall k | 0 <= k < |s.workers[a].log| ensures EntryOk(s', a, k) {
      assert EntryOk(s, a, k);
    }
    Assemble(s, s', -1, -1, a);
  }

  /** The log never names a slot twice. */
  lemma LogDistinct(s: State, a: nat, j: nat, k: nat)
    requires Inv(s) && a < |s.workers| && j < |s.workers[a].log| && k < |s.workers[a].log| && j != k
    ensures s.workers[a].log[j].slot != s.workers[a].log[k].slot
  {
    assert AccelOk(s, a);
    assert EntryOk(s, a, j) && EntryOk(s, a, k);
  }

  /** What is known of the task a busy worker holds. */
  lemma CurrentFacts(s: State, a: nat)
    requires Inv(s) && a < |s.workers| && s.workers[a].pc.Busy()
    ensures var w := s.workers[a];
            && w.retired < |w.log|
            && w.pc.t == w.log[w.retired].slot < |s.hist|
            && AccelOk(s, a)
            && CurrentOk(s, a)
            && s.mem.accels[a].load == Load(w.pc)
            && SlotOk(s, w.pc.t)
            && s.hist[w.pc.t].phase == PhaseOf(w.pc, a, w.retired)
            && s.mem.tasks[w.pc.t].accelType == a
            && AccelShape(s.mem, a)
  {
    assert AccelOk(s, a);
    assert EntryOk(s, a, s.workers[a].retired);
    assert AccelShape(s.mem, a);
  }

  /** A step of a busy worker that stays busy: it may write its own task and its own load. */
  lemma BusyStep(s: State, s': State, a: nat)
    requires Inv(s) && a < |s.workers| && s.workers[a].pc.Busy()
    requires |s.hist| == |s'.hist| == |s'.mem.tasks|
    requires |s.workers| == |s'.workers| == |s'.mem.accels|
    requires s'.clients == s.clients && s'.boot == s.boot && s'.now == s.now
    requires s'.mem.free == s.mem.free && s'.mem.nextId == s.mem.nextId
    requires s'.workers == s.workers[a := s.workers[a].(pc := s'.workers[a].pc)]
    requires s'.mem.accels == s.mem.accels[a := s.mem.accels[a].(load := s'.mem.accels[a].load)]
    requires var t, pc, pc' := s.workers[a].pc.t, s.workers[a].pc, s'.workers[a].pc;
             && pc'.Busy() && pc'.t == t < |s.hist|
             && s'.mem.tasks == s.mem.tasks[t := s'.mem.tasks[t]]
             && s'.hist == s.hist[t := s'.hist[t]]
             && s'.mem.accels[a].load == Load(pc')
             && s'.hist[t].phase == PhaseOf(pc', a, Current(s, a))
             && s'.mem.tasks[t].timeoutMs == s.mem.tasks[t].timeoutMs
             && s'.mem.tasks[t].accelType == s.mem.tasks[t].accelType
             && WaitOk(pc', s'.mem.tasks[t], s'.hist[t], s'.boot, s'.now)
             && (Shape(s') ==> SlotOk(s', t))
             && Evolves(s, s', t)
    ensures Inv(s')
  {
    hide Inv, SlotOk, Evolves, WaitOk;
    var t := s.workers[a].pc.t;
    InvPool(s);
    CurrentFacts(s, a);
    ShapeKept(s, s', -1, a);
    forall k | 0 <= k < |s.workers[a].log| ensures EntryOk(s', a, k) {
      assert EntryOk(s, a, k);
      if k != Current(s, a) {
        LogDistinct(s, a, k, Current(s, a));
      }
    }
    Assemble(s, s', t, -1, a);
  }

  lemma KeepIdle(s: State, a: nat)
    requires Inv(s) && Enabled(s, Work(a)) && !s.workers[a].pc.Busy()
    ensures Inv(IdleStep(s, a))
  {
    var w := s.workers[a];
    if w.pc.Take? && s.mem.accels[a].queue != [] {
      KeepTake(s, a);
    } else {
      KeepWorkerLocal(s, a, IdleStep(s, a).workers[a].pc);
    }
  }

  lemma KeepTake(s: State, a: nat)
    requires Inv(s) && a < |s.workers| && s.workers[a].pc.Take? && s.mem.accels[a].queue != []
    ensures Inv(IdleStep(s, a))
  {
    hide Inv, AccelOk, SlotOk, Evolves;
    InvAccel(s, a);
    InvPool(s);
    var s' := IdleStep(s, a);
    var t := s.mem.accels[a].queue[0];
    TakeSlot(s, s', a, t);
    TakeAccel(s, s', a, t);
    Assemble(s, s', t, -1, a);
  }

  lemma TakeSlot(s: State, s': State, a: nat, t: nat)
    requires Inv(s) && a < |s.workers| && s.workers[a].pc.Take? && s.mem.accels[a].queue != []
    requires s' == IdleStep(s, a) && t == s.mem.accels[a].queue[0]
    ensures SameShape(s, s') && t < |s.hist| && SlotOk(s', t) && Evolves(s, s', t)
    ensures s.hist[t].phase == Queued(a, s.workers[a].retired)
  {
    hide Inv;
    InvAccel(s, a);
    assert t == s.workers[a].log[s.workers[a].retired].slot;
    assert EntryOk(s, a, s.workers[a].retired);
    InvSlot(s, t);
    ShapeKept(s, s', -1, a);
  }

  lemma TakeAccel(s: State, s': State, a: nat, t: nat)
    requires Inv(s) && a < |s.workers| && s.workers[a].pc.Take? && s.mem.accels[a].queue != []
    requires s' == IdleStep(s, a) && Shape(s') && t == s.mem.accels[a].queue[0]
    ensures AccelOk(s', a)
  {
    var w := s.workers[a];
    hide Inv, SlotOk;
    InvAccel(s, a);
    assert t == w.log[w.retired].slot;
    forall k | 0 <= k < |w.log| ensures EntryOk(s', a, k) {
      assert EntryOk(s, a, k);
      if k != w.retired {
        LogDistinct(s, a, k, w.retired);
      }
    }
  }

  lemma KeepStart(s: State, a: nat)
    requires Inv(s) && a < |s.workers|
    requires s.workers[a].pc.MarkRunning? || s.workers[a].pc.AddLoad? || s.workers[a].pc.TestTimeout?
    ensures Inv(RunStep(s, a))
  {
    hide Inv, AccelOk;
    InvAccel(s, a);
    InvPool(s);
    CurrentFacts(s, a);
    BusyStep(s, RunStep(s, a), a);
  }

  /** The wait loop's tests and naps. Only CheckStop may write (history). */
  lemma KeepWait(s: State, a: nat)
    requires Inv(s) && Enabled(s, Work(a)) && s.workers[a].pc.InRun()
    requires !s.workers[a].pc.MarkRunning? && !s.workers[a].pc.AddLoad? && !s.workers[a].pc.TestTimeout?
    ensures Inv(RunStep(s, a))
  {
    hide Inv, AccelOk, SlotOk;
    InvAccel(s, a);
    InvPool(s);
    CurrentFacts(s, a);
    var pc := s.workers[a].pc;
    TicksPositive(1);
    if pc.CheckClock? {
      ElapsedNeverTooBig(s.hist[pc.t].startTick, s.now);
    }
    if pc.CheckStop? && s.workers[a].stop {
      KeepStopSeen(s, a);
    } else {
      NotRunningMeansDisturbed(s, a);
      KeepWorkerLocal(s, a, RunStep(s, a).workers[a].pc);
    }
  }

  /** While the worker waits, only a cancel can have changed the state it set. */
  lemma NotRunningMeansDisturbed(s: State, a: nat)
    requires Inv(s) && a < |s.workers| && s.workers[a].pc.Busy()
    ensures s.workers[a].pc.t < |s.hist| == |s.mem.tasks|
    ensures s.workers[a].pc.CheckState? && s.mem.tasks[s.workers[a].pc.t].state != Running ==> s.hist[s.workers[a].pc.t].disturbed
  {
    hide Inv;
    InvShape(s);
    CurrentFacts(s, a);
  }

  lemma KeepStopSeen(s: State, a: nat)
    requires Inv(s) && a < |s.workers| && s.workers[a].pc.CheckStop? && s.workers[a].stop
    ensures Inv(RunStep(s, a))
  {
    hide Inv, AccelOk;
    InvAccel(s, a);
    InvPool(s);
    CurrentFacts(s, a);
    BusyStep(s, RunStep(s, a), a);
  }

  lemma KeepStampComplete(s: State, a: nat)
    requires Inv(s) && a < |s.workers| && (s.workers[a].pc.StampComplete? || s.workers[a].pc.MarkComplete?)
    ensures Inv(FinishStep(s, a))
  {
    hide Inv, AccelOk;
    InvAccel(s, a);
    InvPool(s);
    CurrentFacts(s, a);
    BusyStep(s, FinishStep(s, a), a);
  }

  lemma KeepClear(s: State, a: nat)
    requires Inv(s) && a < |s.workers| && (s.workers[a].pc.ClearError? || s.workers[a].pc.Signal?)
    ensures Inv(FinishStep(s, a))
  {
    hide Inv, AccelOk, Evolves;
    InvAccel(s, a);
    CurrentFacts(s, a);
    ClearEvolves(s, a);
    BusyStep(s, FinishStep(s, a), a);
  }

  lemma KeepDrop(s: State, a: nat)
    requires Inv(s) && a < |s.workers| && s.workers[a].pc.DropLoad?
    ensures Inv(FinishStep(s, a))
  {
    hide Inv, AccelOk, Evolves;
    InvAccel(s, a);
    CurrentFacts(s, a);
    ClearEvolves(s, a);
    BusyStep(s, FinishStep(s, a), a);
  }

  /** These three steps write one field the others do not rely on. */
  lemma ClearEvolves(s: State, a: nat)
    requires Inv(s) && a < |s.workers| && s.workers[a].pc.Busy() && s.workers[a].pc.t < |s.hist|
    requires s.workers[a].pc.ClearError? || s.workers[a].pc.DropLoad? || s.workers[a].pc.Signal?
    ensures FinishStep(s, a).hist == s.hist && Evolves(s, FinishStep(s, a), s.workers[a].pc.t)
  {
    hide Inv;
    InvShape(s);
  }

  lemma KeepRetire(s: State, a: nat)
    requires Inv(s) && a < |s.workers| && s.workers[a].pc.RetireTask?
    ensures Inv(FinishStep(s, a))
  {
    hide Inv, AccelOk, SlotOk, Evolves;
    InvAccel(s, a);
    InvPool(s);
    CurrentFacts(s, a);
    var s' := FinishStep(s, a);
    RetireAccel(s, s', a);
    RetireSlot(s, s', a);
    Assemble(s, s', s.workers[a].pc.t, -1, a);
  }

  lemma RetireSlot(s: State, s': State, a: nat)
    requires Inv(s) && a < |s.workers| && s.workers[a].pc.RetireTask? && s' == FinishStep(s, a) && Shape(s')
    ensures s.workers[a].pc.t < |s.hist| == |s'.hist| && SlotOk(s', s.workers[a].pc.t)
    ensures Evolves(s, s', s.workers[a].pc.t)
  {
    hide Inv, AccelOk;
    InvAccel(s, a);
    CurrentFacts(s, a);
  }

  lemma RetireAccel(s: State, s': State, a: nat)
    requires Inv(s) && a < |s.workers| && s.workers[a].pc.RetireTask? && s' == FinishStep(s, a)
    ensures SameShape(s, s') && AccelOk(s', a)
  {
    hide Inv;
    InvAccel(s, a);
    CurrentFacts(s, a);
    var w := s.workers[a];
    assert s.mem.accels[a].active == [w.pc.t];
    ShapeKept(s, s', -1, a);
    forall k | 0 <= k < |w.log| ensures EntryOk(s', a, k) {
      assert EntryOk(s, a, k);
      if k != w.retired {
        LogDistinct(s, a, k, w.retired);
      }
    }
  }

  lemma KeepWork(s: State, a: nat)
    requires Inv(s) && Enabled(s, Work(a))
    ensures Inv(Apply(s, Work(a)))
  {
    var pc := s.workers[a].pc;
    if !pc.Busy() {
      KeepIdle(s, a);
    } else if pc.MarkRunning? || pc.AddLoad? || pc.TestTimeout? {
      KeepStart(s, a);
    } else if pc.InRun() {
      KeepWait(s, a);
    } else if pc.StampComplete? || pc.MarkComplete? {
      KeepStampComplete(s, a);
    } else if pc.RetireTask? {
      KeepRetire(s, a);
    } else if pc.DropLoad? {
      KeepDrop(s, a);
    } else {
      KeepClear(s, a);
    }
  }
}
