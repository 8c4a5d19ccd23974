/** What the answers of submit and cancel mean, whatever ran in between. */
module Answers {
  import opened Types
  import opened Memory
  import opened Steps
  import opened Invariant
  import opened Runs
  import R = Refinement
  import L = TaskLife
  import S = Scans

  // ---- Nobody changes a task's description ----

  /** The slot carries this descriptor. */
  ghost predicate Describes(d: Desc, x: Task) {
    Filled(x, d) == x
  }

  ghost predicate SameDescription(x: Task, x': Task) {
    && x'.accelType == x.accelType && x'.priority == x.priority
    && x'.inputAddr == x.inputAddr && x'.inputSize == x.inputSize
    && x'.outputAddr == x.outputAddr && x'.outputSize == x.outputSize
    && x'.timeoutMs == x.timeoutMs
  }

  lemma SubmitKeepsDescription(s: State, c: nat, copied: bool, t: nat)
    requires Inv(s) && c < |s.clients| && s.clients[c].InSubmit() && t < |s.hist| && !s.hist[t].phase.Unused?
    requires s.clients[c].SFill? ==> s.clients[c].t != t
    ensures |SubmitStep(s, c, copied).mem.tasks| == |s.mem.tasks|
    ensures SameDescription(s.mem.tasks[t], SubmitStep(s, c, copied).mem.tasks[t])
  {
    hide Inv;
    InvClient(s, c);
    InvSlot(s, t);
    if s.clients[c].SAlloc? && s.mem.free != [] {
      L.InvFree(s);
    }
  }

  lemma ScanKeepsDescription(s: State, c: nat, copied: bool, t: nat)
    requires Inv(s) && c < |s.clients| && s.clients[c].InScan() && t < |s.hist|
    ensures |ScanStep(s, c, copied).mem.tasks| == |s.mem.tasks|
    ensures SameDescription(s.mem.tasks[t], ScanStep(s, c, copied).mem.tasks[t])
  {
    hide Inv;
    InvClient(s, c);
  }

  lemma WorkKeepsDescription(s: State, a: nat, t: nat)
    requires Inv(s) && Enabled(s, Work(a)) && t < |s.hist|
    ensures |WorkStep(s, a).mem.tasks| == |s.mem.tasks|
    ensures SameDescription(s.mem.tasks[t], WorkStep(s, a).mem.tasks[t])
  {
    hide Inv;
    InvAccel(s, a);
  }

  /** Once handed out, a slot's description is written by its own submitter only. */
  lemma DescriptionKept(s: State, e: Event, t: nat)
    requires Inv(s) && Enabled(s, e) && t < |s.hist| && !s.hist[t].phase.Unused?
    requires e.Client? && s.clients[e.c].SFill? ==> s.clients[e.c].t != t
    ensures |Apply(s, e).mem.tasks| == |s.mem.tasks|
    ensures SameDescription(s.mem.tasks[t], Apply(s, e).mem.tasks[t])
  {
    hide Inv, SubmitStep, ScanStep, WorkStep;
    if e.Client? {
      InvClient(s, e.c);
      if s.clients[e.c].InSubmit() {
        SubmitKeepsDescription(s, e.c, e.copied, t);
      } else if s.clients[e.c].InScan() {
        ScanKeepsDescription(s, e.c, e.copied, t);
      }
    } else if e.Work? {
      InvShape(s);
      WorkKeepsDescription(s, e.a, t);
    } else {
      InvShape(s);
    }
  }

  // ---- Submit ----

  /** At the start of the call the slot had never been handed out. */
  ghost predicate NewSince(s0: State, t: nat) {
    t < |s0.hist| && s0.hist[t].phase.Unused?
  }

  ghost predicate Carries(s0: State, s: State, t: nat, d: Desc) {
    NewSince(s0, t) && t < |s.mem.tasks| && Describes(d, s.mem.tasks[t])
  }

  /** What a submitting caller's program counter says about its slot. */
  ghost predicate Tracks(s0: State, s: State, pc: ClientPc, d: Desc) {
    match pc
    case SAlloc(x) => x == d
    case SFill(x, t) => x == d && NewSince(s0, t)
    case SCheckType(x, t) => x == d && Carries(s0, s, t, d)
    case SPublish(x, t) => x == d && Carries(s0, s, t, d)
    case SStamp(x, t) => x == d && Carries(s0, s, t, d)
    case SEnqueue(x, t) => x == d && Carries(s0, s, t, d)
    case SReadId(x, t) => x == d && Carries(s0, s, t, d)
    case SCopyOut(x, id) => x == d && id > 0 && Carries(s0, s, id - 1, d)
    case Done(_, out) => out.Submitted? ==> out.taskId > 0 && Carries(s0, s, out.taskId - 1, d)
    case _ => false
  }

  lemma AllocOrReadTracks(s0: State, s: State, c: nat, copied: bool, d: Desc)
    requires Inv(s) && Enabled(s, Client(c, copied)) && Tracks(s0, s, s.clients[c], d)
    requires s.clients[c].SAlloc? || s.clients[c].SReadId?
    requires |s0.hist| == |s.hist|
    requires s.mem.nextId < |s.hist| ==> NewSince(s0, s.mem.nextId)
    ensures c < |SubmitStep(s, c, copied).clients|
    ensures Tracks(s0, SubmitStep(s, c, copied), SubmitStep(s, c, copied).clients[c], d)
  {
    hide Inv, Describes;
    InvClient(s, c);
    if s.clients[c].SReadId? {
      InvSlot(s, s.clients[c].t);
    } else if s.mem.free != [] {
      L.InvFree(s);
    }
  }

  lemma OwnStepTracks(s0: State, s: State, c: nat, copied: bool, d: Desc)
    requires Inv(s) && Enabled(s, Client(c, copied)) && Tracks(s0, s, s.clients[c], d)
    requires |s0.hist| == |s.hist|
    requires s.mem.nextId < |s.hist| ==> NewSince(s0, s.mem.nextId)
    ensures c < |SubmitStep(s, c, copied).clients|
    ensures Tracks(s0, SubmitStep(s, c, copied), SubmitStep(s, c, copied).clients[c], d)
  {
    hide Inv;
    var pc := s.clients[c];
    if pc.SAlloc? || pc.SReadId? {
      AllocOrReadTracks(s0, s, c, copied, d);
    } else {
      hide ClientOk;
      InvClient(s, c);
    }
  }

  lemma OtherStepTracks(s0: State, s: State, e: Event, c: nat, d: Desc)
    requires Inv(s) && Enabled(s, e) && c < |s.clients| && Tracks(s0, s, s.clients[c], d)
    requires e.Client? ==> e.c != c
    ensures Tracks(s0, Apply(s, e), s.clients[c], d)
  {
    hide Inv, Apply;
    InvClient(s, c);
    var pc := s.clients[c];
    if pc.SCheckType? || pc.SPublish? || pc.SStamp? || pc.SEnqueue? || pc.SReadId? {
      OtherKeepsSlot(s, e, c, pc.t);
    } else if pc.SCopyOut? {
      OtherKeepsSlot(s, e, c, pc.taskId - 1);
    } else if pc.Done? && pc.outcome.Submitted? {
      OtherKeepsSlot(s, e, c, pc.outcome.taskId - 1);
    }
  }

  lemma OtherKeepsSlot(s: State, e: Event, c: nat, t: nat)
    requires Inv(s) && Enabled(s, e) && c < |s.clients| && t < |s.hist|
    requires e.Client? ==> e.c != c
    requires s.hist[t].phase.Logged() || (s.hist[t].phase.Owned() && s.hist[t].phase.c == c)
    ensures |Apply(s, e).mem.tasks| == |s.mem.tasks|
    ensures SameDescription(s.mem.tasks[t], Apply(s, e).mem.tasks[t])
  {
    hide Inv, Apply;
    if e.Client? {
      InvClient(s, e.c);
    }
    DescriptionKept(s, e, t);
  }

  lemma {:induction false} SubmitTracks(ss: seq<State>, es: seq<Event>, i: nat, j: nat, c: nat, d: Desc)
    requires S.InCall(ss, es, i, j, c, SubmitTask(d))
    ensures c < |ss[j].clients| && Tracks(ss[i], ss[j], ss[j].clients[c], d)
    decreases j
  {
    hide Inv, Apply, Tracks;
    DriverInv(ss, es);
    var s, e := ss[j - 1], es[j - 1];
    assert Step(s, e, ss[j]);
    if j == i + 1 {
      SubmitBegins(s, c, d);
    } else {
      SubmitTracks(ss, es, i, j - 1, c, d);
      S.StillCalling(ss, es, i, j - 1, c, SubmitTask(d));
      if e.Client? && e.c == c {
        SlotIsNew(ss, es, i, j - 1);
        OwnTracks(ss[i], s, e, d);
      } else {
        S.OthersLeavePc(s, e, c);
        OtherStepTracks(ss[i], s, e, c, d);
      }
    }
  }

  lemma OwnTracks(s0: State, s: State, e: Event, d: Desc)
    requires Inv(s) && e.Client? && Enabled(s, e) && Tracks(s0, s, s.clients[e.c], d)
    requires |s0.hist| == |s.hist|
    requires s.mem.nextId < |s.hist| ==> NewSince(s0, s.mem.nextId)
    ensures e.c < |Apply(s, e).clients| && Tracks(s0, Apply(s, e), Apply(s, e).clients[e.c], d)
  {
    hide Inv, SubmitStep, ScanStep;
    InvClient(s, e.c);
    OwnStepTracks(s0, s, e.c, e.copied, d);
  }

  lemma SubmitBegins(s: State, c: nat, d: Desc)
    requires Inv(s) && Enabled(s, Begin(c, SubmitTask(d), true))
    ensures var s' := Apply(s, Begin(c, SubmitTask(d), true));
            c < |s'.clients| && Tracks(s, s', s'.clients[c], d)
  {
  }

  /** The next slot to be handed out had not been handed out earlier. */
  lemma SlotIsNew(ss: seq<State>, es: seq<Event>, i: nat, j: nat)
    requires DriverRun(ss, es) && i <= j < |ss|
    ensures |ss[i].hist| == |ss[j].hist|
    ensures ss[j].mem.nextId < |ss[j].hist| ==> NewSince(ss[i], ss[j].mem.nextId)
  {
    hide Inv;
    DriverInv(ss, es);
    SameSizes(ss, es, i);
    SameSizes(ss, es, j);
    if ss[j].mem.nextId < |ss[j].hist| {
      var t := ss[j].mem.nextId;
      InvSlot(ss[j], t);
      L.RunEvolves(ss, es, i, j, t);
    }
  }

  /** A submit that answers with an ID: the ID was unknown when the call began, is known now, its
      record carries the caller's descriptor field by field, and it is in the enqueue log of the
      accelerator the descriptor names. */
  lemma SubmitAnswersItsTask(ss: seq<State>, es: seq<Event>, i: nat, j: nat, c: nat, d: Desc, id: nat)
    requires S.InCall(ss, es, i, j, c, SubmitTask(d)) && c < |ss[j].clients|
    requires ss[j].clients[c] == Done(SubmitTask(d), Submitted(id))
    ensures !S.Known(ss[i], id) && S.Known(ss[j], id)
    ensures Describes(d, R.Abs(ss[j]).tasks[id])
    ensures 1 <= id <= |ss[j].hist| && ss[j].hist[id - 1].phase.Logged() && ss[j].hist[id - 1].phase.a == d.accelType
  {
    hide Inv;
    DriverInv(ss, es);
    SubmitTracks(ss, es, i, j, c, d);
    InvClient(ss[j], c);
    S.KnownIsVisible(ss[i], id);
    S.KnownIsVisible(ss[j], id);
    LoggedWhereItBelongs(ss[j], id - 1);
  }

  /** If only the final copy-out fails, the caller is told -EFAULT although its task is in the
      map, and in an accelerator's log, and so will run like any other. */
  lemma CopyOutFaultKeepsTask(ss: seq<State>, es: seq<Event>, j: nat, c: nat, d: Desc, id: nat)
    requires DriverRun(ss, es) && j < |es| && es[j] == Client(c, false)
    requires c < |ss[j].clients| && ss[j].clients[c] == SCopyOut(d, id)
    ensures c < |ss[j + 1].clients| && ss[j + 1].clients[c] == Done(SubmitTask(d), Error(-EFAULT))
    ensures S.Known(ss[j + 1], id)
    ensures 1 <= id <= |ss[j + 1].hist| && ss[j + 1].hist[id - 1].phase.Logged()
  {
    hide Inv;
    DriverInv(ss, es);
    assert Step(ss[j], es[j], ss[j + 1]);
    InvClient(ss[j], c);
    S.KnownIsVisible(ss[j + 1], id);
  }

  lemma LoggedWhereItBelongs(s: State, t: nat)
    requires Inv(s) && t < |s.hist| && s.hist[t].phase.Logged()
    ensures t < |s.mem.tasks| && s.mem.tasks[t].accelType == s.hist[t].phase.a
  {
    hide Inv;
    InvSlot(s, t);
    var p := s.hist[t].phase;
    InvAccel(s, p.a);
    assert EntryOk(s, p.a, p.k);
  }

  // ---- Cancel ----

  predicate PastMark(pc: ClientPc) {
    pc.CError? || pc.CSignal? || (pc.Done? && pc.outcome.CancelAccepted?)
  }

  lemma MarkComesFirst(s: State, c: nat, copied: bool)
    requires Inv(s) && Enabled(s, Client(c, copied))
    requires c < |ClientStep(s, c, copied).clients| && PastMark(ClientStep(s, c, copied).clients[c])
    ensures s.clients[c].CMark? || PastMark(s.clients[c])
  {
    hide Inv;
    InvClient(s, c);
  }

  /** A cancel that reports success has, during the call, written CANCELLED into a slot; for a
      non-zero ID, into the slot of that very task. */
  lemma {:induction false} CancelDidCancel(ss: seq<State>, es: seq<Event>, i: nat, j: nat, c: nat, id: nat)
    requires S.InCall(ss, es, i, j, c, ScanTask(Cancel, id)) && id != 0
    requires c < |ss[j].clients| && PastMark(ss[j].clients[c])
    ensures exists m :: i < m < j && es[m].Client? && es[m].c == c && L.CancelsAt(ss, es, m, id - 1) && S.Known(ss[m], id)
    decreases j
  {
    hide Inv, Apply, PastMark, S.Known;
    DriverInv(ss, es);
    var s, e := ss[j - 1], es[j - 1];
    assert Step(s, e, ss[j]);
    if j == i + 1 {
      S.BeginScan(s, c, Cancel, id);
      NotPastYet(ss[j], c);
    } else {
      S.StillCalling(ss, es, i, j - 1, c, ScanTask(Cancel, id));
      if e.Client? && e.c == c {
        MarkOrPast(s, e);
        if s.clients[c].CMark? {
          S.KeepsAsking(ss, es, i, j - 1, c, Cancel, id);
          S.MatchIsTheTask(ss, es, j - 1, c);
          MarksItsSlot(s, c, id);
          assert L.CancelsAt(ss, es, j - 1, id - 1) && S.Known(ss[j - 1], id);
        } else {
          CancelDidCancel(ss, es, i, j - 1, c, id);
        }
      } else {
        S.OthersLeavePc(s, e, c);
        CancelDidCancel(ss, es, i, j - 1, c, id);
      }
    }
  }

  lemma NotPastYet(s: State, c: nat)
    requires c < |s.clients| && s.clients[c].ScanId?
    ensures !PastMark(s.clients[c])
  {
  }

  lemma MarkOrPast(s: State, e: Event)
    requires Inv(s) && e.Client? && Enabled(s, e)
    requires e.c < |Apply(s, e).clients| && PastMark(Apply(s, e).clients[e.c])
    ensures s.clients[e.c].CMark? || PastMark(s.clients[e.c])
  {
    MarkComesFirst(s, e.c, e.copied);
  }

  lemma MarksItsSlot(s: State, c: nat, id: nat)
    requires Inv(s) && c < |s.clients| && s.clients[c].CMark? && id != 0 && s.clients[c].id == id
    ensures s.clients[c].t == id - 1
  {
    hide Inv;
    InvClient(s, c);
  }
}
