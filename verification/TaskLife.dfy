/** The life of one task over a whole run: which writes its slot can see, and what is final. */
module TaskLife {
  import opened Types
  import opened Memory
  import opened Steps
  import opened Invariant
  import opened Preservation
  import opened Runs
  import W = WorkerPreservation

  // ---- No step takes a slot back ----

  lemma AllocEvolves(s: State, c: nat, d: Desc, i: nat)
    requires Inv(s) && c < |s.clients| && s.clients[c] == SAlloc(d) && i < |s.hist|
    ensures |AllocStep(s, c, d).hist| == |s.hist| && Evolves(s, AllocStep(s, c, d), i)
  {
    assert SlotOk(s, i);
  }

  lemma SubmitEvolves(s: State, c: nat, copied: bool, i: nat)
    requires Inv(s) && c < |s.clients| && s.clients[c].InSubmit() && i < |s.hist|
    ensures |SubmitStep(s, c, copied).hist| == |s.hist| && Evolves(s, SubmitStep(s, c, copied), i)
  {
    var pc := s.clients[c];
    assert ClientShape(s, pc) && ClientOk(s, c, pc);
    if pc.SAlloc? {
      AllocEvolves(s, c, pc.desc, i);
    }
  }

  lemma ScanEvolves(s: State, c: nat, copied: bool, i: nat)
    requires Inv(s) && c < |s.clients| && s.clients[c].InScan() && i < |s.hist|
    ensures |ScanStep(s, c, copied).hist| == |s.hist| && Evolves(s, ScanStep(s, c, copied), i)
  {
    assert ClientShape(s, s.clients[c]);
  }

  lemma TakeEvolves(s: State, a: nat, i: nat)
    requires Inv(s) && Enabled(s, Work(a)) && !s.workers[a].pc.Busy() && i < |s.hist|
    ensures |IdleStep(s, a).hist| == |s.hist| && Evolves(s, IdleStep(s, a), i)
  {
    assert AccelOk(s, a) && AccelShape(s.mem, a);
    if s.mem.accels[a].queue != [] {
      assert EntryOk(s, a, s.workers[a].retired + ActiveCount(s.workers[a].pc));
    }
  }

  lemma BusyEvolves(s: State, a: nat, i: nat)
    requires Inv(s) && Enabled(s, Work(a)) && s.workers[a].pc.Busy() && i < |s.hist|
    ensures |WorkStep(s, a).hist| == |s.hist| && Evolves(s, WorkStep(s, a), i)
  {
    hide Inv, Shape, AccelOk, CurrentOk, SlotOk;
    InvShape(s);
    W.CurrentFacts(s, a);
  }

  /** Phases only advance, and the time stamps they fix stay fixed. */
  lemma StepEvolves(s: State, e: Event, i: nat)
    requires Inv(s) && Enabled(s, e) && i < |s.hist|
    ensures |Apply(s, e).hist| == |s.hist| && Evolves(s, Apply(s, e), i)
  {
    if e.Client? {
      if s.clients[e.c].InSubmit() {
        SubmitEvolves(s, e.c, e.copied, i);
      } else if s.clients[e.c].InScan() {
        ScanEvolves(s, e.c, e.copied, i);
      } else {
        assert ClientShape(s, s.clients[e.c]);
      }
    } else if e.Work? {
      if s.workers[e.a].pc.Busy() {
        BusyEvolves(s, e.a, i);
      } else {
        TakeEvolves(s, e.a, i);
      }
    }
  }

  lemma {:induction false} RunEvolves(ss: seq<State>, es: seq<Event>, i: nat, j: nat, t: nat)
    requires Run(ss, es) && Inv(ss[0]) && i <= j < |ss| && t < |ss[i].hist|
    ensures |ss[j].hist| == |ss[i].hist| && Evolves(ss[i], ss[j], t)
    decreases j
  {
    hide Inv, Apply, Enabled;
    if i < j {
      RunInv(ss, es);
      RunEvolves(ss, es, i, j - 1, t);
      assert Step(ss[j - 1], es[j - 1], ss[j]);
      StepEvolves(ss[j - 1], es[j - 1], t);
    }
  }

  // ---- The writes a state field can see ----

  /** The only writes of a slot's state are: the submitting caller's FREE to PENDING; its
      worker's RUNNING, once, then COMPLETE, once; and a cancel of a task that is not FREE. */
  ghost predicate LegalWrite(s: State, e: Event, t: nat)
    requires t < |s.hist| == |s.mem.tasks|
  {
    && (e.Client? ==> e.c < |s.clients|)
    && (e.Work? ==> e.a < |s.workers|)
    && var st := s.mem.tasks[t].state;
    var p := s.hist[t].phase;
    || (e.Client? && st == Free && p == Held(e.c) && s.clients[e.c].SPublish? && s.clients[e.c].t == t)
    || (e.Client? && st != Free && s.clients[e.c].CMark? && s.clients[e.c].t == t)
    || (e.Work? && st in {Pending, Cancelled} && p.Picked? && p.a == e.a && s.workers[e.a].pc == MarkRunning(t))
    || (e.Work? && st in {Running, Cancelled} && p.Timed? && p.a == e.a && s.workers[e.a].pc == MarkComplete(t))
  }

  ghost function WrittenState(s: State, e: Event): TaskState
    requires e.Client? ==> e.c < |s.clients|
    requires e.Work? ==> e.a < |s.workers|
  {
    if e.Client? then (if s.clients[e.c].SPublish? then Pending else Cancelled)
    else if e.Work? && s.workers[e.a].pc.MarkRunning? then Running
    else Complete
  }

  ghost predicate StateStepTo(s: State, e: Event, s': State, t: nat)
    requires Shape(s) && Enabled(s, e) && t < |s.hist|
  {
    && |s'.mem.tasks| == |s.mem.tasks|
    && (s'.mem.tasks[t].state == s.mem.tasks[t].state
        || (LegalWrite(s, e, t) && s'.mem.tasks[t].state == WrittenState(s, e)))
  }

  ghost predicate StateStep(s: State, e: Event, t: nat)
    requires Shape(s) && Enabled(s, e) && t < |s.hist|
  {
    StateStepTo(s, e, Apply(s, e), t)
  }

  lemma SubmitStates(s: State, c: nat, copied: bool, t: nat)
    requires Inv(s) && c < |s.clients| && s.clients[c].InSubmit() && t < |s.hist|
    ensures StateStep(s, Client(c, copied), t)
  {
    var pc := s.clients[c];
    assert ClientShape(s, pc) && ClientOk(s, c, pc);
    assert SlotOk(s, t);
    if pc.SAlloc? && s.mem.free != [] {
      assert SlotOk(s, s.mem.free[0]);
    }
  }

  lemma ScanStates(s: State, c: nat, copied: bool, t: nat)
    requires Inv(s) && c < |s.clients| && s.clients[c].InScan() && t < |s.hist|
    ensures StateStep(s, Client(c, copied), t)
  {
    hide Inv;
    InvClient(s, c);
    InvSlot(s, t);
  }

  lemma RunStates(s: State, a: nat, t: nat)
    requires Inv(s) && Enabled(s, Work(a)) && s.workers[a].pc.InRun() && t < |s.hist|
    ensures StateStepTo(s, Work(a), RunStep(s, a), t)
  {
    hide Inv, Shape, AccelOk, CurrentOk;
    InvShape(s);
    W.CurrentFacts(s, a);
  }

  lemma FinishStates(s: State, a: nat, t: nat)
    requires Inv(s) && Enabled(s, Work(a)) && s.workers[a].pc.InFinish() && t < |s.hist|
    ensures StateStepTo(s, Work(a), FinishStep(s, a), t)
  {
    hide Inv, Shape, AccelOk, CurrentOk;
    InvShape(s);
    W.CurrentFacts(s, a);
  }

  lemma WorkStates(s: State, a: nat, t: nat)
    requires Inv(s) && Enabled(s, Work(a)) && t < |s.hist|
    ensures StateStep(s, Work(a), t)
  {
    hide Inv, RunStep, FinishStep, LegalWrite, WrittenState;
    InvShape(s);
    if s.workers[a].pc.InRun() {
      RunStates(s, a, t);
    } else if s.workers[a].pc.InFinish() {
      FinishStates(s, a, t);
    }
  }

  lemma StatesStep(s: State, e: Event, t: nat)
    requires Inv(s) && Enabled(s, e) && t < |s.hist|
    ensures StateStep(s, e, t)
  {
    if e.Client? {
      if s.clients[e.c].InSubmit() {
        SubmitStates(s, e.c, e.copied, t);
      } else if s.clients[e.c].InScan() {
        ScanStates(s, e.c, e.copied, t);
      } else {
        assert ClientShape(s, s.clients[e.c]);
      }
    } else if e.Work? {
      WorkStates(s, e.a, t);
    }
  }

  /** Over a whole run: every change of a slot's state is one of the four writes above, FAILED
      is never reached, and a task that was published never becomes FREE again. */
  lemma StateMachine(ss: seq<State>, es: seq<Event>, i: nat, t: nat)
    requires DriverRun(ss, es) && i < |es| && t < |ss[i].hist|
    ensures Shape(ss[i]) && |ss[i + 1].mem.tasks| == |ss[i].mem.tasks|
    ensures ss[i].mem.tasks[t].state != Failed
    ensures ss[i].mem.tasks[t].state != Free ==> ss[i + 1].mem.tasks[t].state != Free
    ensures ss[i + 1].mem.tasks[t].state != ss[i].mem.tasks[t].state ==>
              LegalWrite(ss[i], es[i], t) && ss[i + 1].mem.tasks[t].state == WrittenState(ss[i], es[i])
  {
    DriverInv(ss, es);
    assert Step(ss[i], es[i], ss[i + 1]);
    assert SlotOk(ss[i], t);
    StatesStep(ss[i], es[i], t);
  }

  /** A worker marks a task RUNNING at most once, and COMPLETE at most once, in any run. */
  lemma MarkedOnce(ss: seq<State>, es: seq<Event>, i: nat, j: nat, a: nat, b: nat)
    requires DriverRun(ss, es) && i < j < |ss| && es[i] == Work(a)
    requires a < |ss[i].workers| && b < |ss[j].workers|
    ensures ss[i].workers[a].pc.MarkRunning? ==> ss[j].workers[b].pc != ss[i].workers[a].pc
    ensures ss[i].workers[a].pc.MarkComplete? ==> ss[j].workers[b].pc != ss[i].workers[a].pc
  {
    var pc := ss[i].workers[a].pc;
    if (pc.MarkRunning? || pc.MarkComplete?) && ss[j].workers[b].pc == pc {
      DriverInv(ss, es);
      MarkAdvances(ss, es, i, a);
      RunEvolves(ss, es, i + 1, j, pc.t);
      W.CurrentFacts(ss[j], b);
      assert false;
    }
  }

  lemma MarkAdvances(ss: seq<State>, es: seq<Event>, i: nat, a: nat)
    requires DriverRun(ss, es) && i < |es| && es[i] == Work(a) && a < |ss[i].workers|
    requires ss[i].workers[a].pc.MarkRunning? || ss[i].workers[a].pc.MarkComplete?
    ensures ss[i].workers[a].pc.t < |ss[i + 1].hist|
    ensures ss[i + 1].hist[ss[i].workers[a].pc.t].phase.Rank() > if ss[i].workers[a].pc.MarkRunning? then 5 else 8
  {
    DriverInv(ss, es);
    assert Step(ss[i], es[i], ss[i + 1]);
    W.CurrentFacts(ss[i], a);
  }

  // ---- After retirement ----

  /** What can still change once the worker is finished with a slot. */
  ghost predicate FinalKept(x: Task, x': Task) {
    && x'.id == x.id && x'.done
    && x'.submitJiffies == x.submitJiffies && x'.completeJiffies == x.completeJiffies
    && (x'.state == x.state || (x.state == Complete && x'.state == Cancelled))
    && (x'.errorCode == x.errorCode || x'.errorCode == -ECANCELED)
  }

  lemma RetiredStep(s: State, e: Event, t: nat)
    requires Inv(s) && Enabled(s, e) && t < |s.hist| && s.hist[t].phase.Retired?
    ensures |Apply(s, e).hist| == |s.hist| && Apply(s, e).hist[t].phase.Retired?
    ensures |Apply(s, e).mem.tasks| == |s.mem.tasks| && FinalKept(s.mem.tasks[t], Apply(s, e).mem.tasks[t])
  {
    hide Inv, ClientStep, WorkStep;
    InvSlot(s, t);
    StepSizes(s, e);
    StepEvolves(s, e, t);
    if e.Client? {
      RetiredClientStep(s, e.c, e.copied, t);
    } else if e.Work? {
      RetiredWorkStep(s, e.a, t);
    }
  }

  lemma RetiredWorkStep(s: State, a: nat, t: nat)
    requires Inv(s) && Enabled(s, Work(a)) && t < |s.hist| && s.hist[t].phase.Retired?
    ensures |WorkStep(s, a).mem.tasks| == |s.mem.tasks|
    ensures FinalKept(s.mem.tasks[t], WorkStep(s, a).mem.tasks[t])
  {
    hide Inv, Shape, AccelOk, CurrentOk;
    InvSlot(s, t);
    InvAccel(s, a);
    if s.workers[a].pc.Busy() {
      W.CurrentFacts(s, a);
    }
  }

  lemma RetiredClientStep(s: State, c: nat, copied: bool, t: nat)
    requires Inv(s) && Enabled(s, Client(c, copied)) && t < |s.hist| && s.hist[t].phase.Retired?
    ensures |ClientStep(s, c, copied).mem.tasks| == |s.mem.tasks|
    ensures FinalKept(s.mem.tasks[t], ClientStep(s, c, copied).mem.tasks[t])
  {
    hide Inv;
    InvSlot(s, t);
    InvClient(s, c);
    if s.clients[c].SAlloc? && s.mem.free != [] {
      InvFree(s);
      InvSlot(s, s.mem.free[0]);
    }
  }

  lemma InvFree(s: State)
    requires Inv(s) && s.mem.free != []
    ensures s.mem.free[0] == s.mem.nextId < |s.hist|
  {
  }

  /** After retirement the completion stays signalled and the times stay put; a COMPLETE may
      still be turned into CANCELLED by a cancel, and CANCELLED is for ever. */
  lemma {:induction false} RetiredIsFinal(ss: seq<State>, es: seq<Event>, i: nat, j: nat, t: nat)
    requires DriverRun(ss, es) && i <= j < |ss| && t < |ss[i].hist| && ss[i].hist[t].phase.Retired?
    ensures t < |ss[j].hist| && ss[j].hist[t].phase.Retired?
    ensures t < |ss[i].mem.tasks| && t < |ss[j].mem.tasks|
    ensures FinalKept(ss[i].mem.tasks[t], ss[j].mem.tasks[t])
    ensures ss[j].mem.tasks[t].state == Complete || ss[j].mem.tasks[t].state == Cancelled
    decreases j
  {
    hide Inv, Apply;
    DriverInv(ss, es);
    RetiredShows(ss[i], t);
    if i < j {
      RetiredIsFinal(ss, es, i, j - 1, t);
      assert Step(ss[j - 1], es[j - 1], ss[j]);
      RetiredStep(ss[j - 1], es[j - 1], t);
    }
    RetiredShows(ss[j], t);
  }

  lemma RetiredShows(s: State, t: nat)
    requires Inv(s) && t < |s.hist| && s.hist[t].phase.Retired?
    ensures |s.mem.tasks| == |s.hist| && s.mem.tasks[t].done && s.mem.tasks[t].state in {Complete, Cancelled}
  {
    assert SlotOk(s, t);
  }

  // ---- Which cancels last ----

  /** Event i is the step in which a cancel writes CANCELLED into slot t. */
  ghost predicate CancelsAt(ss: seq<State>, es: seq<Event>, i: nat, t: nat) {
    && i < |es| && i < |ss| && es[i].Client? && es[i].c < |ss[i].clients|
    && ss[i].clients[es[i].c].CMark? && ss[i].clients[es[i].c].t == t
  }

  lemma LateOnlyByCancel(s: State, e: Event, t: nat)
    requires Inv(s) && Enabled(s, e) && t < |s.hist|
    requires e.Client? && s.clients[e.c].CMark? ==> s.clients[e.c].t != t
    ensures |Apply(s, e).hist| == |s.hist| && Apply(s, e).hist[t].lateCancel == s.hist[t].lateCancel
  {
    hide Inv;
    InvShape(s);
    if e.Client? {
      ClientKeepsLate(s, e.c, e.copied, t);
    } else if e.Work? {
      WorkKeepsLate(s, e.a, t);
    }
  }

  lemma ClientKeepsLate(s: State, c: nat, copied: bool, t: nat)
    requires Inv(s) && Enabled(s, Client(c, copied)) && t < |s.hist|
    requires s.clients[c].CMark? ==> s.clients[c].t != t
    ensures |ClientStep(s, c, copied).hist| == |s.hist|
    ensures ClientStep(s, c, copied).hist[t].lateCancel == s.hist[t].lateCancel
  {
    hide Inv;
    InvClient(s, c);
    InvSlot(s, t);
  }

  lemma WorkKeepsLate(s: State, a: nat, t: nat)
    requires Inv(s) && Enabled(s, Work(a)) && t < |s.hist|
    ensures |WorkStep(s, a).hist| == |s.hist| && WorkStep(s, a).hist[t].lateCancel == s.hist[t].lateCancel
  {
    assert WorkerShape(s, s.workers[a].pc) && AccelShape(s.mem, a);
  }

  lemma {:induction false} LateKept(ss: seq<State>, es: seq<Event>, i: nat, j: nat, t: nat)
    requires DriverRun(ss, es) && i <= j < |ss| && t < |ss[i].hist|
    requires forall m :: i <= m < j ==> !CancelsAt(ss, es, m, t)
    ensures t < |ss[j].hist| && ss[j].hist[t].lateCancel == ss[i].hist[t].lateCancel
    decreases j
  {
    hide Inv, Apply;
    DriverInv(ss, es);
    if i < j {
      LateKept(ss, es, i, j - 1, t);
      assert Step(ss[j - 1], es[j - 1], ss[j]);
      assert !CancelsAt(ss, es, j - 1, t);
      LateOnlyByCancel(ss[j - 1], es[j - 1], t);
    }
  }

  lemma LateStep(s: State, e: Event, t: nat)
    requires Inv(s) && Enabled(s, e) && t < |s.hist| && s.hist[t].lateCancel
    ensures t < |Apply(s, e).hist| && Apply(s, e).hist[t].lateCancel
  {
    hide Inv, ClientStep, WorkStep;
    InvShape(s);
    if e.Client? && s.clients[e.c].CMark? && s.clients[e.c].t == t {
      MarkKeepsLate(s, e.c, e.copied);
    } else {
      LateOnlyByCancel(s, e, t);
    }
  }

  lemma MarkKeepsLate(s: State, c: nat, copied: bool)
    requires Inv(s) && Enabled(s, Client(c, copied)) && s.clients[c].CMark?
    ensures s.clients[c].t < |s.hist| == |ClientStep(s, c, copied).hist|
    ensures s.hist[s.clients[c].t].lateCancel ==> ClientStep(s, c, copied).hist[s.clients[c].t].lateCancel
  {
    hide Inv;
    InvClient(s, c);
  }

  lemma {:induction false} LateStays(ss: seq<State>, es: seq<Event>, i: nat, j: nat, t: nat)
    requires DriverRun(ss, es) && i <= j < |ss| && t < |ss[i].hist| && ss[i].hist[t].lateCancel
    ensures t < |ss[j].hist| && ss[j].hist[t].lateCancel
    decreases j
  {
    hide Inv, Apply, Enabled;
    DriverInv(ss, es);
    if i < j {
      LateStays(ss, es, i, j - 1, t);
      assert Step(ss[j - 1], es[j - 1], ss[j]);
      LateStep(ss[j - 1], es[j - 1], t);
    }
  }

  /** A cancel that writes while the slot shows COMPLETE lasts for the rest of the run. */
  lemma LateCancelLasts(ss: seq<State>, es: seq<Event>, m: nat, j: nat, t: nat)
    requires DriverRun(ss, es) && m < j < |ss| && CancelsAt(ss, es, m, t)
    requires t < |ss[m].hist| && ss[m].hist[t].phase.Rank() >= 9
    ensures t < |ss[j].mem.tasks| && ss[j].mem.tasks[t].state == Cancelled
  {
    hide Inv, Apply, Enabled;
    CancelStepMarks(ss, es, m, t);
    LateStays(ss, es, m + 1, j, t);
    DriverInv(ss, es);
    InvSlot(ss[j], t);
  }

  /** A cancel reports success whenever it finds its task, but it is lost unless it comes late:
      if event i is the last cancel to write slot t, then once the worker has written COMPLETE
      the slot shows CANCELLED exactly when that was already written before event i. Every
      earlier cancel is overwritten. A caller can tell in advance: its task shows COMPLETE. */
  lemma CancelLastsIffLate(ss: seq<State>, es: seq<Event>, i: nat, j: nat, t: nat)
    requires DriverRun(ss, es) && i < j < |ss| && CancelsAt(ss, es, i, t)
    requires forall m :: i < m < j ==> !CancelsAt(ss, es, m, t)
    requires t < |ss[j].hist| && ss[j].hist[t].phase.Rank() >= 9
    ensures t < |ss[i].hist| && t < |ss[j].mem.tasks|
    ensures ss[j].mem.tasks[t].state == Cancelled <==> ss[i].hist[t].phase.Rank() >= 9
  {
    DriverInv(ss, es);
    CancelStepMarks(ss, es, i, t);
    LateKept(ss, es, i + 1, j, t);
    assert SlotOk(ss[j], t);
  }

  lemma CancelStepMarks(ss: seq<State>, es: seq<Event>, i: nat, t: nat)
    requires DriverRun(ss, es) && CancelsAt(ss, es, i, t)
    ensures t < |ss[i].hist| && t < |ss[i + 1].hist|
    ensures ss[i + 1].hist[t].lateCancel <==> ss[i].hist[t].phase.Rank() >= 9
  {
    DriverInv(ss, es);
    assert Step(ss[i], es[i], ss[i + 1]);
    var s, c := ss[i], es[i].c;
    assert ClientShape(s, s.clients[c]);
    assert SlotOk(s, t);
  }

  /** While the worker has not written COMPLETE, the slot cannot show it. */
  lemma CompleteShowsOnlyAfter(s: State, t: nat)
    requires Inv(s) && t < |s.hist|
    ensures s.mem.tasks[t].state == Complete ==> s.hist[t].phase.Rank() >= 9
    ensures s.hist[t].phase.Rank() >= 9 ==> s.mem.tasks[t].state in {Complete, Cancelled}
  {
    assert SlotOk(s, t);
  }
}
