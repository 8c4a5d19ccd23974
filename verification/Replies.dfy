/** What every ioctl answers, and when, whatever runs in between: one result for each way a call can
    end. Error numbers are written out as user space sees them. */
module Replies {
  import opened Types
  import opened Memory
  import opened Steps
  import opened Invariant
  import opened Runs
  import F = Fifo
  import U = Shutdown
  import S = Scans

  // ---- A call, from its entry to its answer ----

  /** Caller c enters the call at event i, with its copy-in succeeding or not, and has not returned
      to user space before state j. */
  ghost predicate Calls(ss: seq<State>, es: seq<Event>, i: nat, j: nat, c: nat, r: Request, copied: bool) {
    && DriverRun(ss, es) && i < j < |ss|
    && es[i] == Begin(c, r, copied)
    && forall m :: i < m < j ==> es[m] != Return(c)
  }

  /** The program counter belongs to a call for this request. */
  predicate Serves(pc: ClientPc, r: Request) {
    if pc.InSubmit() then r == SubmitTask(pc.desc)
    else if pc.InMatch() then r == ScanTask(Query, pc.id)
    else match pc
      case Done(q, _) => q == r
      case ScanId(kind, id, _) => r == ScanTask(kind, id)
      case ScanState(kind, id, _) => r == ScanTask(kind, id)
      case CMark(id, _) => r == ScanTask(Cancel, id)
      case CError(id, _) => r == ScanTask(Cancel, id)
      case CSignal(id, _) => r == ScanTask(Cancel, id)
      case IRead(a) => r == AccelInfo(a)
      case ICopyOut(a, _) => r == AccelInfo(a)
      case _ => false
  }

  lemma SubmitServes(s: State, c: nat, copied: bool, r: Request)
    requires Inv(s) && c < |s.clients| && s.clients[c].InSubmit() && Serves(s.clients[c], r)
    ensures c < |SubmitStep(s, c, copied).clients| && Serves(SubmitStep(s, c, copied).clients[c], r)
  {
    hide Inv, ClientOk;
    InvClient(s, c);
  }

  lemma ScanServes(s: State, c: nat, copied: bool, r: Request)
    requires Inv(s) && c < |s.clients| && s.clients[c].InScan() && Serves(s.clients[c], r)
    ensures c < |ScanStep(s, c, copied).clients| && Serves(ScanStep(s, c, copied).clients[c], r)
  {
    hide Inv, ClientOk;
    InvClient(s, c);
  }

  lemma OwnStepServes(s: State, c: nat, copied: bool, r: Request)
    requires Inv(s) && Enabled(s, Client(c, copied)) && Serves(s.clients[c], r)
    ensures c < |ClientStep(s, c, copied).clients| && Serves(ClientStep(s, c, copied).clients[c], r)
  {
    hide Inv, SubmitStep, ScanStep;
    InvShape(s);
    if s.clients[c].InSubmit() {
      SubmitServes(s, c, copied, r);
    } else if s.clients[c].InScan() {
      ScanServes(s, c, copied, r);
    } else {
      assert ClientShape(s, s.clients[c]);
    }
  }

  lemma NextServes(s: State, e: Event, c: nat, r: Request)
    requires Inv(s) && Enabled(s, e) && c < |s.clients| && Serves(s.clients[c], r) && e != Return(c)
    ensures c < |Apply(s, e).clients| && Serves(Apply(s, e).clients[c], r)
  {
    hide Inv, ClientStep;
    InvShape(s);
    if e.Client? && e.c == c {
      OwnStepServes(s, c, e.copied, r);
    } else {
      S.OthersLeavePc(s, e, c);
    }
  }

  /** The first thing a call does, before it touches shared memory. */
  lemma Entered(s: State, c: nat, r: Request, copied: bool)
    requires Inv(s) && Enabled(s, Begin(c, r, copied))
    ensures c < |Apply(s, Begin(c, r, copied)).clients|
    ensures Apply(s, Begin(c, r, copied)).clients[c] == FirstPc(s, r, copied) && Serves(FirstPc(s, r, copied), r)
  {
  }

  lemma {:induction false} CallServes(ss: seq<State>, es: seq<Event>, i: nat, j: nat, c: nat, r: Request, copied: bool)
    requires Calls(ss, es, i, j, c, r, copied)
    ensures c < |ss[j].clients| && Serves(ss[j].clients[c], r)
    decreases j
  {
    hide Inv, Apply, Enabled, Serves;
    DriverInv(ss, es);
    assert Step(ss[j - 1], es[j - 1], ss[j]);
    if j == i + 1 {
      Entered(ss[i], c, r, copied);
    } else {
      CallServes(ss, es, i, j - 1, c, r, copied);
      NextServes(ss[j - 1], es[j - 1], c, r);
    }
  }

  // ---- The step that answers ----

  /** Event m is caller c's step from pc, with its copy-out (if it is one) succeeding or not. */
  ghost predicate StepsFrom(ss: seq<State>, es: seq<Event>, m: nat, c: nat, pc: ClientPc, copied: bool) {
    m < |es| && m < |ss| && es[m] == Client(c, copied) && c < |ss[m].clients| && ss[m].clients[c] == pc
  }

  /** Event m, in the call, is the step that answers it with out. */
  ghost predicate AnsweredAt(ss: seq<State>, es: seq<Event>, i: nat, m: nat, j: nat, c: nat, r: Request, out: Outcome) {
    && i < m < j && m < |es| && m + 1 < |ss| && es[m].Client? && es[m].c == c
    && c < |ss[m].clients| && !ss[m].clients[c].Idle? && !ss[m].clients[c].Done? && Serves(ss[m].clients[c], r)
    && c < |ss[m + 1].clients| && ss[m + 1].clients[c] == Done(r, out)
  }

  lemma DoneStays(s: State, e: Event, c: nat)
    requires Inv(s) && Enabled(s, e) && c < |s.clients| && s.clients[c].Done? && e != Return(c)
    ensures c < |Apply(s, e).clients| && Apply(s, e).clients[c] == s.clients[c]
  {
    S.OthersLeavePc(s, e, c);
  }

  /** Once given, the answer stays until the call returns. */
  lemma {:induction false} AnswerStays(ss: seq<State>, es: seq<Event>, n: nat, j: nat, c: nat, i: nat, r: Request, copied: bool)
    requires Calls(ss, es, i, j, c, r, copied) && i < n <= j && c < |ss[n].clients| && ss[n].clients[c].Done?
    ensures c < |ss[j].clients| && ss[j].clients[c] == ss[n].clients[c]
    decreases j
  {
    hide Inv, Apply, Enabled;
    DriverInv(ss, es);
    if n < j {
      AnswerStays(ss, es, n, j - 1, c, i, r, copied);
      assert Step(ss[j - 1], es[j - 1], ss[j]);
      DoneStays(ss[j - 1], es[j - 1], c);
    }
  }

  /** An answer was given by a step of the caller, or at once on entry. */
  lemma {:induction false} AnswerHasStep(ss: seq<State>, es: seq<Event>, i: nat, j: nat, c: nat, r: Request, copied: bool, out: Outcome)
    requires Calls(ss, es, i, j, c, r, copied) && c < |ss[j].clients| && ss[j].clients[c] == Done(r, out)
    ensures FirstPc(ss[i], r, copied) == Done(r, out) || exists m: nat :: AnsweredAt(ss, es, i, m, j, c, r, out)
    decreases j
  {
    hide Inv, Apply, Enabled, FirstPc, Serves;
    DriverInv(ss, es);
    var s, e := ss[j - 1], es[j - 1];
    assert Step(s, e, ss[j]);
    if j == i + 1 {
      Entered(ss[i], c, r, copied);
    } else {
      CallServes(ss, es, i, j - 1, c, r, copied);
      NotIdle(s.clients[c], r);
      if e.Client? && e.c == c {
        CallerNotDone(s, e);
        assert AnsweredAt(ss, es, i, j - 1, j, c, r, out);
      } else {
        S.OthersLeavePc(s, e, c);
        AnswerHasStep(ss, es, i, j - 1, c, r, copied, out);
        if FirstPc(ss[i], r, copied) != Done(r, out) {
          var m: nat :| AnsweredAt(ss, es, i, m, j - 1, c, r, out);
          assert AnsweredAt(ss, es, i, m, j, c, r, out);
        }
      }
    }
  }

  lemma NotIdle(pc: ClientPc, r: Request)
    requires Serves(pc, r)
    ensures !pc.Idle?
  {
  }

  lemma CallerNotDone(s: State, e: Event)
    requires e.Client? && Enabled(s, e)
    ensures e.c < |s.clients| && !s.clients[e.c].Done? && !s.clients[e.c].Idle?
  {
  }

  // ---- Which steps answer, and what ----

  /** What a step from pc answers, if it does. */
  ghost predicate Ends(s: State, pc: ClientPc, copied: bool, out: Outcome) {
    match pc
    case SAlloc(_) => s.mem.free == [] && out == Error(-12)
    case SCopyOut(_, id) => out == if copied then Submitted(id) else Error(-14)
    case ScanId(_, _, i) => i == |s.mem.tasks| && out == Error(-2)
    case QCopyOut(_, _, status) => out == if copied then Reported(status) else Error(-14)
    case CSignal(_, _) => out == CancelAccepted
    case ICopyOut(_, load) => out == if copied then InfoReturned(load) else Error(-14)
    case _ => false
  }

  lemma SubmitEnds(s: State, c: nat, copied: bool, r: Request, out: Outcome)
    requires Inv(s) && c < |s.clients| && s.clients[c].InSubmit() && Serves(s.clients[c], r)
    ensures c < |SubmitStep(s, c, copied).clients|
    ensures SubmitStep(s, c, copied).clients[c] == Done(r, out) <==> Ends(s, s.clients[c], copied, out)
  {
    hide Inv;
    InvClient(s, c);
  }

  lemma ScanEnds(s: State, c: nat, copied: bool, r: Request, out: Outcome)
    requires Inv(s) && c < |s.clients| && s.clients[c].InScan() && Serves(s.clients[c], r)
    ensures c < |ScanStep(s, c, copied).clients|
    ensures ScanStep(s, c, copied).clients[c] == Done(r, out) <==> Ends(s, s.clients[c], copied, out)
  {
    hide Inv;
    InvClient(s, c);
  }

  lemma StepEnds(s: State, c: nat, copied: bool, r: Request, out: Outcome)
    requires Inv(s) && Enabled(s, Client(c, copied)) && Serves(s.clients[c], r)
    ensures c < |ClientStep(s, c, copied).clients|
    ensures ClientStep(s, c, copied).clients[c] == Done(r, out) <==> Ends(s, s.clients[c], copied, out)
  {
    hide Inv, SubmitStep, ScanStep;
    InvShape(s);
    if s.clients[c].InSubmit() {
      SubmitEnds(s, c, copied, r, out);
    } else if s.clients[c].InScan() {
      ScanEnds(s, c, copied, r, out);
    } else {
      assert ClientShape(s, s.clients[c]);
    }
  }

  /** Event m, in the call, is a step of the caller that ends it with out. */
  ghost predicate EndsAt(ss: seq<State>, es: seq<Event>, i: nat, m: nat, j: nat, c: nat, out: Outcome) {
    && i < m < j && m < |es| && m < |ss| && es[m].Client? && es[m].c == c && c < |ss[m].clients|
    && Ends(ss[m], ss[m].clients[c], es[m].copied, out)
  }

  /** A call that got past its checks has answered out exactly if one of its steps ended it so. */
  lemma AnsweredIffEnded(ss: seq<State>, es: seq<Event>, i: nat, j: nat, c: nat, r: Request, copied: bool, out: Outcome)
    requires Calls(ss, es, i, j, c, r, copied) && !FirstPc(ss[i], r, copied).Done?
    ensures c < |ss[j].clients|
    ensures ss[j].clients[c] == Done(r, out) <==> exists m: nat :: EndsAt(ss, es, i, m, j, c, out)
  {
    hide Inv, Apply, Enabled, FirstPc, Serves, Ends;
    DriverInv(ss, es);
    CallServes(ss, es, i, j, c, r, copied);
    if ss[j].clients[c] == Done(r, out) {
      AnswerHasStep(ss, es, i, j, c, r, copied, out);
      var m: nat :| AnsweredAt(ss, es, i, m, j, c, r, out);
      assert Step(ss[m], es[m], ss[m + 1]);
      StepAnswers(ss[m], es[m], r, out);
      assert EndsAt(ss, es, i, m, j, c, out);
    }
    forall m: nat | EndsAt(ss, es, i, m, j, c, out) ensures ss[j].clients[c] == Done(r, out) {
      assert Step(ss[m], es[m], ss[m + 1]);
      CallServes(ss, es, i, m, c, r, copied);
      StepAnswers(ss[m], es[m], r, out);
      AnswerStays(ss, es, m + 1, j, c, i, r, copied);
    }
  }

  lemma StepAnswers(s: State, e: Event, r: Request, out: Outcome)
    requires Inv(s) && e.Client? && Enabled(s, e) && Serves(s.clients[e.c], r)
    ensures e.c < |Apply(s, e).clients|
    ensures Apply(s, e).clients[e.c] == Done(r, out) <==> Ends(s, s.clients[e.c], e.copied, out)
  {
    StepEnds(s, e.c, e.copied, r, out);
  }

  // ---- Refused on entry ----

  /** A call that is refused on entry shows that answer at once and takes no step. */
  lemma RefusedAtOnce(ss: seq<State>, es: seq<Event>, i: nat, j: nat, c: nat, r: Request, copied: bool, out: Outcome)
    requires Calls(ss, es, i, j, c, r, copied) && FirstPc(ss[i], r, copied) == Done(r, out)
    ensures c < |ss[j].clients| && ss[j].clients[c] == Done(r, out)
  {
    hide Inv, Apply, Enabled, FirstPc;
    DriverInv(ss, es);
    assert Step(ss[i], es[i], ss[i + 1]);
    Entered(ss[i], c, r, copied);
    AnswerStays(ss, es, i + 1, j, c, i, r, copied);
  }

  /** Whatever the request: if it cannot be read from user space the answer is -EFAULT. */
  lemma CopyInFault(ss: seq<State>, es: seq<Event>, i: nat, j: nat, c: nat, r: Request)
    requires Calls(ss, es, i, j, c, r, false)
    ensures c < |ss[j].clients| && ss[j].clients[c] == Done(r, Error(-14))
  {
    RefusedAtOnce(ss, es, i, j, c, r, false, Error(-14));
  }

  /** A descriptor that fails a check is answered by the first check it fails. */
  lemma BadDescriptor(ss: seq<State>, es: seq<Event>, i: nat, j: nat, c: nat, d: Desc)
    requires Calls(ss, es, i, j, c, SubmitTask(d), true)
    ensures c < |ss[j].clients|
    ensures d.accelType >= |ss[i].workers| ==> ss[j].clients[c] == Done(SubmitTask(d), Error(-22))
    ensures d.accelType < |ss[i].workers| && d.flags != 0 ==> ss[j].clients[c] == Done(SubmitTask(d), Error(-22))
    ensures d.accelType < |ss[i].workers| && d.flags == 0 && d.inputSize > 67108864 ==>
              ss[j].clients[c] == Done(SubmitTask(d), Error(-7))
    ensures d.accelType < |ss[i].workers| && d.flags == 0 && d.outputSize > 67108864 ==>
              ss[j].clients[c] == Done(SubmitTask(d), Error(-7))
  {
    var first := FirstPc(ss[i], SubmitTask(d), true);
    if first.Done? {
      RefusedAtOnce(ss, es, i, j, c, SubmitTask(d), true, first.outcome);
    } else {
      CallServes(ss, es, i, j, c, SubmitTask(d), true);
    }
  }

  /** The limits the descriptor of a submit in progress keeps. */
  ghost predicate WithinLimits(s: State, pc: ClientPc) {
    pc.InSubmit() ==>
      pc.desc.accelType < |s.workers| && pc.desc.flags == 0 && pc.desc.inputSize <= 67108864 && pc.desc.outputSize <= 67108864
  }

  lemma LimitsStep(s: State, e: Event, c: nat)
    requires Inv(s) && Enabled(s, e) && c < |s.clients| && WithinLimits(s, s.clients[c])
    ensures c < |Apply(s, e).clients| && WithinLimits(Apply(s, e), Apply(s, e).clients[c])
  {
    hide Inv, ClientStep, WorkStep;
    InvShape(s);
    StepSizes(s, e);
    if e.Client? && e.c == c {
      LimitsOwnStep(s, c, e.copied);
    } else if e.Client? {
      S.ClientLeavesOthers(s, e.c, e.copied, c);
    } else if e.Work? {
      F.WorkPc(s, e.a);
    }
  }

  lemma LimitsOwnStep(s: State, c: nat, copied: bool)
    requires Inv(s) && Enabled(s, Client(c, copied)) && WithinLimits(s, s.clients[c])
    ensures c < |ClientStep(s, c, copied).clients| && |ClientStep(s, c, copied).workers| == |s.workers|
    ensures WithinLimits(ClientStep(s, c, copied), ClientStep(s, c, copied).clients[c])
  {
    hide Inv, ScanStep, SubmitStep;
    InvShape(s);
    ClientSizes(s, c, copied);
    if s.clients[c].InSubmit() {
      SubmitServes(s, c, copied, SubmitTask(s.clients[c].desc));
    } else if s.clients[c].InScan() {
      ScanStaysScan(s, c, copied);
    }
  }

  lemma ScanStaysScan(s: State, c: nat, copied: bool)
    requires Shape(s) && c < |s.clients| && s.clients[c].InScan()
    ensures c < |ScanStep(s, c, copied).clients| && !ScanStep(s, c, copied).clients[c].InSubmit()
  {
  }

  /** In every reachable state: whoever is past the checks of a submit, from task_alloc on, has a
      descriptor within every limit. */
  lemma {:induction false} SubmitsKeepLimits(ss: seq<State>, es: seq<Event>, j: nat, c: nat)
    requires DriverRun(ss, es) && j < |ss| && c < |ss[j].clients|
    ensures WithinLimits(ss[j], ss[j].clients[c])
  {
    hide Inv, Apply, Enabled, WithinLimits;
    DriverInv(ss, es);
    if j > 0 {
      assert Step(ss[j - 1], es[j - 1], ss[j]);
      SameSizes(ss, es, j - 1);
      SameSizes(ss, es, j);
      SubmitsKeepLimits(ss, es, j - 1, c);
      LimitsStep(ss[j - 1], es[j - 1], c);
    } else {
      NobodySubmits(ss[0], c);
    }
  }

  lemma NobodySubmits(s: State, c: nat)
    requires s == Init(|s.mem.tasks|, |s.workers|, |s.clients|, s.boot) && c < |s.clients|
    ensures WithinLimits(s, s.clients[c])
  {
  }

  // ---- Answered after the checks ----

  /** Event m, in the call, is a step of the caller from pc. */
  ghost predicate StepsAt(ss: seq<State>, es: seq<Event>, i: nat, m: nat, j: nat, c: nat) {
    i < m < j && m < |es| && m < |ss| && es[m].Client? && es[m].c == c && c < |ss[m].clients|
  }

  /** The caller's copy-out fails. */
  ghost predicate CopyOutFails(ss: seq<State>, es: seq<Event>, i: nat, m: nat, j: nat, c: nat) {
    && StepsAt(ss, es, i, m, j, c) && !es[m].copied
    && (ss[m].clients[c].SCopyOut? || ss[m].clients[c].QCopyOut? || ss[m].clients[c].ICopyOut?)
  }

  /** The caller's task_alloc finds the free list empty. */
  ghost predicate FindsPoolEmpty(ss: seq<State>, es: seq<Event>, i: nat, m: nat, j: nat, c: nat) {
    StepsAt(ss, es, i, m, j, c) && ss[m].clients[c].SAlloc? && ss[m].mem.free == []
  }

  /** The caller's scan has been past every slot. */
  ghost predicate ScansPastAll(ss: seq<State>, es: seq<Event>, i: nat, m: nat, j: nat, c: nat) {
    StepsAt(ss, es, i, m, j, c) && ss[m].clients[c].ScanId? && ss[m].clients[c].i == |ss[m].mem.tasks|
  }

  /** The step that ends a call, and whom it serves. */
  lemma EndingStep(ss: seq<State>, es: seq<Event>, i: nat, j: nat, c: nat, r: Request, out: Outcome) returns (m: nat)
    requires Calls(ss, es, i, j, c, r, true) && !FirstPc(ss[i], r, true).Done?
    requires c < |ss[j].clients| && ss[j].clients[c] == Done(r, out)
    ensures EndsAt(ss, es, i, m, j, c, out) && StepsAt(ss, es, i, m, j, c) && Serves(ss[m].clients[c], r)
  {
    hide FirstPc, Serves, Ends;
    AnsweredIffEnded(ss, es, i, j, c, r, true, out);
    m :| EndsAt(ss, es, i, m, j, c, out);
    CallServes(ss, es, i, m, c, r, true);
  }

  /** A step of the call that ends it decides its answer. */
  lemma EndDecides(ss: seq<State>, es: seq<Event>, i: nat, m: nat, j: nat, c: nat, r: Request, out: Outcome)
    requires Calls(ss, es, i, j, c, r, true) && !FirstPc(ss[i], r, true).Done?
    requires StepsAt(ss, es, i, m, j, c) && Ends(ss[m], ss[m].clients[c], es[m].copied, out)
    ensures c < |ss[j].clients| && ss[j].clients[c] == Done(r, out)
  {
    hide FirstPc, Serves, Ends;
    AnsweredIffEnded(ss, es, i, j, c, r, true, out);
    assert EndsAt(ss, es, i, m, j, c, out);
  }

  /** A failed copy-out is answered with -EFAULT, whichever call it is. */
  lemma CopyOutDecides(ss: seq<State>, es: seq<Event>, i: nat, m: nat, j: nat, c: nat, r: Request)
    requires Calls(ss, es, i, j, c, r, true) && !FirstPc(ss[i], r, true).Done? && CopyOutFails(ss, es, i, m, j, c)
    ensures c < |ss[j].clients| && ss[j].clients[c] == Done(r, Error(-14))
  {
    EndDecides(ss, es, i, m, j, c, r, Error(-14));
  }

  /** A submit within the limits answers -ENOMEM exactly if it found the pool empty, -EFAULT exactly
      if its copy-out failed, and otherwise an ID. */
  lemma SubmitReply(ss: seq<State>, es: seq<Event>, i: nat, j: nat, c: nat, d: Desc, out: Outcome)
    requires Calls(ss, es, i, j, c, SubmitTask(d), true)
    requires d.accelType < |ss[i].workers| && d.flags == 0 && d.inputSize <= 67108864 && d.outputSize <= 67108864
    requires c < |ss[j].clients| && ss[j].clients[c] == Done(SubmitTask(d), out)
    ensures out == Error(-12) <==> exists m: nat :: FindsPoolEmpty(ss, es, i, m, j, c)
    ensures out == Error(-14) <==> exists m: nat :: CopyOutFails(ss, es, i, m, j, c)
    ensures out == Error(-12) || out == Error(-14) || out.Submitted?
  {
    hide DriverRun;
    var r := SubmitTask(d);
    var n := EndingStep(ss, es, i, j, c, r, out);
    assert out == Error(-12) ==> FindsPoolEmpty(ss, es, i, n, j, c);
    assert out == Error(-14) ==> CopyOutFails(ss, es, i, n, j, c);
    forall m: nat | FindsPoolEmpty(ss, es, i, m, j, c) ensures out == Error(-12) {
      EndDecides(ss, es, i, m, j, c, r, Error(-12));
    }
    forall m: nat | CopyOutFails(ss, es, i, m, j, c) ensures out == Error(-14) {
      CopyOutDecides(ss, es, i, m, j, c, r);
    }
  }

  /** A query answers -ENOENT exactly if its scan went past every slot, -EFAULT exactly if its
      copy-out failed, and otherwise reports a status. */
  lemma QueryReply(ss: seq<State>, es: seq<Event>, i: nat, j: nat, c: nat, id: nat, out: Outcome)
    requires Calls(ss, es, i, j, c, ScanTask(Query, id), true)
    requires c < |ss[j].clients| && ss[j].clients[c] == Done(ScanTask(Query, id), out)
    ensures out == Error(-2) <==> exists m: nat :: ScansPastAll(ss, es, i, m, j, c)
    ensures out == Error(-14) <==> exists m: nat :: CopyOutFails(ss, es, i, m, j, c)
    ensures out == Error(-2) || out == Error(-14) || out.Reported?
  {
    hide DriverRun;
    var r := ScanTask(Query, id);
    var n := EndingStep(ss, es, i, j, c, r, out);
    assert out == Error(-2) ==> ScansPastAll(ss, es, i, n, j, c);
    assert out == Error(-14) ==> CopyOutFails(ss, es, i, n, j, c);
    forall m: nat | ScansPastAll(ss, es, i, m, j, c) ensures out == Error(-2) {
      EndDecides(ss, es, i, m, j, c, r, Error(-2));
    }
    forall m: nat | CopyOutFails(ss, es, i, m, j, c) ensures out == Error(-14) {
      CopyOutDecides(ss, es, i, m, j, c, r);
    }
  }

  /** A cancel answers -ENOENT exactly if its scan went past every slot, and otherwise success. */
  lemma CancelReply(ss: seq<State>, es: seq<Event>, i: nat, j: nat, c: nat, id: nat, out: Outcome)
    requires Calls(ss, es, i, j, c, ScanTask(Cancel, id), true)
    requires c < |ss[j].clients| && ss[j].clients[c] == Done(ScanTask(Cancel, id), out)
    ensures out == Error(-2) <==> exists m: nat :: ScansPastAll(ss, es, i, m, j, c)
    ensures out == Error(-2) || out == CancelAccepted
  {
    hide DriverRun;
    var r := ScanTask(Cancel, id);
    var n := EndingStep(ss, es, i, j, c, r, out);
    assert out == Error(-2) ==> ScansPastAll(ss, es, i, n, j, c);
    forall m: nat | ScansPastAll(ss, es, i, m, j, c) ensures out == Error(-2) {
      EndDecides(ss, es, i, m, j, c, r, Error(-2));
    }
  }

  // ---- GET_ACCEL_INFO ----

  /** At moment m of the call the named accelerator's load was this. */
  ghost predicate LoadAt(ss: seq<State>, i: nat, m: nat, j: nat, a: nat, load: int) {
    i < m < j && m < |ss| && a < |ss[m].mem.accels| && ss[m].mem.accels[a].load == load
  }

  /** The load a caller has read. */
  predicate HasRead(pc: ClientPc, a: nat, load: int) {
    pc == ICopyOut(a, load) || pc == Done(AccelInfo(a), InfoReturned(load))
  }

  lemma ReadsLoad(s: State, c: nat, copied: bool, a: nat, load: int)
    requires Inv(s) && Enabled(s, Client(c, copied)) && Serves(s.clients[c], AccelInfo(a))
    requires c < |ClientStep(s, c, copied).clients| && HasRead(ClientStep(s, c, copied).clients[c], a, load)
    ensures HasRead(s.clients[c], a, load) || (s.clients[c] == IRead(a) && a < |s.mem.accels| && load == s.mem.accels[a].load)
  {
    hide Inv, SubmitStep, ScanStep;
    InvClient(s, c);
  }

  lemma {:induction false} ReadInCall(ss: seq<State>, es: seq<Event>, i: nat, j: nat, c: nat, a: nat, load: int)
    requires Calls(ss, es, i, j, c, AccelInfo(a), true) && c < |ss[j].clients| && HasRead(ss[j].clients[c], a, load)
    ensures exists m: nat :: LoadAt(ss, i, m, j, a, load)
    decreases j
  {
    hide Inv, Apply, Enabled, Serves, HasRead;
    DriverInv(ss, es);
    var s, e := ss[j - 1], es[j - 1];
    assert Step(s, e, ss[j]);
    if j == i + 1 {
      NothingRead(s, c, a, load);
    } else {
      CallServes(ss, es, i, j - 1, c, AccelInfo(a), true);
      NotIdle(s.clients[c], AccelInfo(a));
      if e.Client? && e.c == c {
        ReadsOwnStep(s, e, a, load);
        if HasRead(s.clients[c], a, load) {
          ReadInCall(ss, es, i, j - 1, c, a, load);
          var m: nat :| LoadAt(ss, i, m, j - 1, a, load);
          assert LoadAt(ss, i, m, j, a, load);
        } else {
          assert LoadAt(ss, i, j - 1, j, a, load);
        }
      } else {
        S.OthersLeavePc(s, e, c);
        ReadInCall(ss, es, i, j - 1, c, a, load);
        var m: nat :| LoadAt(ss, i, m, j - 1, a, load);
        assert LoadAt(ss, i, m, j, a, load);
      }
    }
  }

  lemma NothingRead(s: State, c: nat, a: nat, load: int)
    requires Inv(s) && Enabled(s, Begin(c, AccelInfo(a), true))
    ensures c < |Apply(s, Begin(c, AccelInfo(a), true)).clients|
    ensures !HasRead(Apply(s, Begin(c, AccelInfo(a), true)).clients[c], a, load)
  {
  }

  lemma ReadsOwnStep(s: State, e: Event, a: nat, load: int)
    requires Inv(s) && e.Client? && Enabled(s, e) && Serves(s.clients[e.c], AccelInfo(a))
    requires e.c < |Apply(s, e).clients| && HasRead(Apply(s, e).clients[e.c], a, load)
    ensures HasRead(s.clients[e.c], a, load) || (a < |s.mem.accels| && load == s.mem.accels[a].load)
  {
    ReadsLoad(s, e.c, e.copied, a, load);
  }

  /** GET_ACCEL_INFO answers -EINVAL exactly for a type that does not exist, else -EFAULT exactly if
      its copy-out failed, and otherwise the load that the accelerator it names had at one moment of
      the call: 10 if that accelerator's own worker was between its two updates then, 0 if not. */
  lemma InfoReply(ss: seq<State>, es: seq<Event>, i: nat, j: nat, c: nat, a: nat, out: Outcome)
    requires Calls(ss, es, i, j, c, AccelInfo(a), true)
    requires c < |ss[j].clients| && ss[j].clients[c] == Done(AccelInfo(a), out)
    ensures out == Error(-22) <==> a >= |ss[i].workers|
    ensures a < |ss[i].workers| ==> (out == Error(-14) <==> exists m: nat :: CopyOutFails(ss, es, i, m, j, c))
    ensures out == Error(-22) || out == Error(-14) || out.InfoReturned?
    ensures out.InfoReturned? ==>
              exists m: nat :: LoadAt(ss, i, m, j, a, out.load) && a < |ss[m].workers|
                               && out.load == if U.BetweenUpdates(ss[m].workers[a].pc) then 10 else 0
  {
    hide DriverRun, U.BetweenUpdates;
    var r := AccelInfo(a);
    if a >= |ss[i].workers| {
      RefusedAtOnce(ss, es, i, j, c, r, true, Error(-22));
    } else {
      var n := EndingStep(ss, es, i, j, c, r, out);
      assert out == Error(-14) ==> CopyOutFails(ss, es, i, n, j, c);
      forall m: nat | CopyOutFails(ss, es, i, m, j, c) ensures out == Error(-14) {
        CopyOutDecides(ss, es, i, m, j, c, r);
      }
      if out.InfoReturned? {
        ReadInCall(ss, es, i, j, c, a, out.load);
        var m: nat :| LoadAt(ss, i, m, j, a, out.load);
        LoadIsTheWorkers(ss, es, m, a);
      }
    }
  }

  lemma LoadIsTheWorkers(ss: seq<State>, es: seq<Event>, m: nat, a: nat)
    requires DriverRun(ss, es) && m < |ss| && a < |ss[m].mem.accels|
    ensures a < |ss[m].workers| && ss[m].mem.accels[a].load == if U.BetweenUpdates(ss[m].workers[a].pc) then 10 else 0
  {
    hide Inv;
    DriverInv(ss, es);
    InvShape(ss[m]);
    U.LoadIsTenOrZero(ss, es, m, a);
  }
}
