/** Query and cancel: unlocked scans of the slot array, seen as look-ups in the ID map. */
module Scans {
  import opened Types
  import opened Memory
  import opened Steps
  import opened Invariant
  import opened Runs
  import R = Refinement
  import L = TaskLife

  ghost predicate Known(s: State, id: nat) {
    id in R.Abs(s).tasks
  }

  // ---- One state ----

  /** In any single state at most one slot matches an ID, and one does exactly when the ID map
      has it; ID 0 and allocated but unpublished slots match nothing. */
  lemma ScanAgreesWithMap(s: State, id: nat)
    requires Inv(s)
    ensures forall i, k | 0 <= i < |s.mem.tasks| && 0 <= k < |s.mem.tasks| ::
              (Matches(s.mem.tasks[i], id) && Matches(s.mem.tasks[k], id) ==> i == k)
    ensures Known(s, id) <==> exists i :: 0 <= i < |s.mem.tasks| && Matches(s.mem.tasks[i], id)
    ensures Known(s, id) ==> 1 <= id <= s.mem.nextId && R.Abs(s).tasks[id] == s.mem.tasks[id - 1]
    ensures Known(s, id) ==> Matches(s.mem.tasks[id - 1], id)
  {
    forall i | 0 <= i < |s.mem.tasks| && Matches(s.mem.tasks[i], id) ensures id == i + 1 && R.PublishedId(s.mem.tasks, id) {
      assert SlotOk(s, i);
    }
    if Known(s, id) {
      assert SlotOk(s, id - 1);
    }
  }

  /** Known IDs are the published slots. */
  lemma KnownIsVisible(s: State, id: nat)
    requires Inv(s)
    ensures Known(s, id) <==> 1 <= id <= |s.hist| && Visible(s, id - 1)
  {
    if 1 <= id <= |s.hist| {
      assert SlotOk(s, id - 1);
      assert R.PublishedId(s.mem.tasks, id) <==> Visible(s, id - 1);
    }
  }

  /** An ID, once findable, stays findable for the rest of the run. */
  lemma FindableForEver(ss: seq<State>, es: seq<Event>, i: nat, j: nat, id: nat)
    requires DriverRun(ss, es) && i <= j < |ss| && Known(ss[i], id)
    ensures Known(ss[j], id)
  {
    hide Inv;
    DriverInv(ss, es);
    KnownIsVisible(ss[i], id);
    L.RunEvolves(ss, es, i, j, id - 1);
    KnownIsVisible(ss[j], id);
  }

  // ---- One call, interleaved with everything else ----

  /** Caller c starts the call at event i and has not returned to user space before state j. */
  ghost predicate InCall(ss: seq<State>, es: seq<Event>, i: nat, j: nat, c: nat, r: Request) {
    && DriverRun(ss, es) && i < j < |ss|
    && es[i] == Begin(c, r, true)
    && forall m :: i < m < j ==> es[m] != Return(c)
  }

  /** The scan has not passed the slot of `id` yet, or has matched, or has ended well. */
  ghost predicate NotPassed(pc: ClientPc, id: nat) {
    match pc
    case ScanId(_, x, i) => x == id && i < id
    case ScanState(_, x, i) => x == id && i < id
    case Done(_, out) => out != Error(-ENOENT)
    case _ => HasMatched(pc)
  }

  /** A caller that is reading, or about to cancel, slot t. */
  predicate HasMatched(pc: ClientPc) {
    pc.InMatch() || pc.CMark? || pc.CError? || pc.CSignal?
  }

  lemma TestStaysOnTrack(s: State, c: nat, copied: bool, id: nat)
    requires Inv(s) && c < |s.clients| && (s.clients[c].ScanId? || s.clients[c].ScanState?)
    requires Known(s, id) && NotPassed(s.clients[c], id)
    ensures c < |ScanStep(s, c, copied).clients| && NotPassed(ScanStep(s, c, copied).clients[c], id)
  {
    assert ClientShape(s, s.clients[c]) && ClientOk(s, c, s.clients[c]);
    ScanAgreesWithMap(s, id);
  }

  lemma ReadStaysOnTrack(s: State, c: nat, copied: bool, id: nat)
    requires Shape(s) && c < |s.clients| && HasMatched(s.clients[c])
    ensures c < |ScanStep(s, c, copied).clients| && NotPassed(ScanStep(s, c, copied).clients[c], id)
  {
  }

  lemma ScanStaysOnTrack(s: State, c: nat, copied: bool, id: nat)
    requires Inv(s) && Enabled(s, Client(c, copied)) && Known(s, id) && NotPassed(s.clients[c], id)
    ensures c < |ClientStep(s, c, copied).clients| && NotPassed(ClientStep(s, c, copied).clients[c], id)
  {
    if s.clients[c].ScanId? || s.clients[c].ScanState? {
      TestStaysOnTrack(s, c, copied, id);
    } else {
      ReadStaysOnTrack(s, c, copied, id);
    }
  }

  lemma OthersLeavePc(s: State, e: Event, c: nat)
    requires Inv(s) && Enabled(s, e) && c < |s.clients|
    requires e.Client? ==> e.c != c
    requires e != Return(c) && !s.clients[c].Idle?
    ensures |Apply(s, e).clients| == |s.clients| && Apply(s, e).clients[c] == s.clients[c]
  {
    if e.Client? {
      ClientLeavesOthers(s, e.c, e.copied, c);
    }
  }

  lemma ClientLeavesOthers(s: State, b: nat, copied: bool, c: nat)
    requires Inv(s) && Enabled(s, Client(b, copied)) && c < |s.clients| && b != c
    ensures |ClientStep(s, b, copied).clients| == |s.clients|
    ensures ClientStep(s, b, copied).clients[c] == s.clients[c]
  {
  }

  lemma {:induction false} KnownIsFound(ss: seq<State>, es: seq<Event>, i: nat, j: nat, c: nat, kind: ScanKind, id: nat)
    requires InCall(ss, es, i, j, c, ScanTask(kind, id)) && Known(ss[i], id)
    ensures c < |ss[j].clients| && NotPassed(ss[j].clients[c], id)
    decreases j
  {
    hide Inv, Apply;
    DriverInv(ss, es);
    assert Step(ss[j - 1], es[j - 1], ss[j]);
    if j == i + 1 {
      BeginScan(ss[i], c, kind, id);
    } else {
      KnownIsFound(ss, es, i, j - 1, c, kind, id);
      FindableForEver(ss, es, i, j - 1, id);
      NextPc(ss[j - 1], es[j - 1], c, id);
    }
  }

  lemma BeginScan(s: State, c: nat, kind: ScanKind, id: nat)
    requires Inv(s) && Enabled(s, Begin(c, ScanTask(kind, id), true))
    ensures Apply(s, Begin(c, ScanTask(kind, id), true)).clients == s.clients[c := ScanId(kind, id, 0)]
    ensures Known(s, id) ==> id > 0
  {
  }

  lemma NextPc(s: State, e: Event, c: nat, id: nat)
    requires Inv(s) && Enabled(s, e) && c < |s.clients| && e != Return(c)
    requires Known(s, id) && NotPassed(s.clients[c], id)
    ensures c < |Apply(s, e).clients| && NotPassed(Apply(s, e).clients[c], id)
  {
    if e.Client? && e.c == c {
      ScanStaysOnTrack(s, c, e.copied, id);
    } else {
      OthersLeavePc(s, e, c);
    }
  }

  /** -ENOENT is truthful: the ID was not in the map when the call began. */
  lemma NotFoundMeansUnknown(ss: seq<State>, es: seq<Event>, i: nat, j: nat, c: nat, kind: ScanKind, id: nat)
    requires InCall(ss, es, i, j, c, ScanTask(kind, id))
    requires c < |ss[j].clients| && ss[j].clients[c] == Done(ScanTask(kind, id), Error(-ENOENT))
    ensures !Known(ss[i], id)
  {
    if Known(ss[i], id) {
      KnownIsFound(ss, es, i, j, c, kind, id);
    }
  }

  /** From the match to its last access, a call for a non-zero ID works on that ID's task: the
      slot keeps its ID and stays published, so an unlocked cancel can hit nothing else. */
  lemma MatchIsTheTask(ss: seq<State>, es: seq<Event>, j: nat, c: nat)
    requires DriverRun(ss, es) && j < |ss| && c < |ss[j].clients|
    requires HasMatched(ss[j].clients[c]) && ss[j].clients[c].id != 0
    ensures var pc := ss[j].clients[c];
            pc.t < |ss[j].mem.tasks| && ss[j].mem.tasks[pc.t].id == pc.id && Known(ss[j], pc.id)
  {
    DriverInv(ss, es);
    var s, pc := ss[j], ss[j].clients[c];
    assert ClientShape(s, pc) && ClientOk(s, c, pc);
    assert SlotOk(s, pc.t);
    KnownIsVisible(s, pc.id);
  }

  // ---- A query's answer is the record at one moment of the call ----

  /** The record that explains what a query has read so far. */
  ghost predicate Explains(x: Task, pc: ClientPc) {
    match pc
    case QReadComplete(id, t, taskId, st) => taskId == x.id && st == x.state
    case QReadSubmit(id, t, taskId, st, complete) =>
      taskId == x.id && st == x.state && (st == Complete ==> complete == x.completeJiffies)
    case QReadError(id, t, taskId, st, exec) =>
      taskId == x.id && st == x.state && (st == Complete ==> exec == ExecUsec(x.completeJiffies, x.submitJiffies))
    case QCopyOut(id, t, status) => StatusOf(x, status)
    case Done(_, out) => out.Reported? && StatusOf(x, out.status)
    case _ => false
  }

  /** The documented fields of a status: the time is meaningful only when the state is COMPLETE. */
  ghost predicate StatusOf(x: Task, status: Status) {
    && status.taskId == x.id
    && status.state == x.state
    && (status.state == Complete ==> status.execUsec == ExecUsec(x.completeJiffies, x.submitJiffies))
  }

  ghost predicate HasReadState(pc: ClientPc) {
    pc.QReadComplete? || pc.QReadSubmit? || pc.QReadError? || pc.QCopyOut? || (pc.Done? && pc.outcome.Reported?)
  }

  /** The slot a query is working on, by the number it will report. */
  ghost function ReportId(pc: ClientPc): nat
    requires HasReadState(pc)
  {
    if pc.Done? then pc.outcome.status.taskId
    else if pc.QCopyOut? then pc.status.taskId
    else pc.taskId
  }

  /** At moment m the ID map held, under the reported ID, a record that explains the reading. */
  ghost predicate ExplainedAt(ss: seq<State>, m: nat, pc: ClientPc) {
    && m < |ss| && HasReadState(pc)
    && Known(ss[m], ReportId(pc))
    && Explains(R.Abs(ss[m]).tasks[ReportId(pc)], pc)
  }

  /** Reading the state makes the present moment the explanation. */
  lemma ReadStateExplains(s: State, c: nat, copied: bool)
    requires Inv(s) && Enabled(s, Client(c, copied)) && s.clients[c].QReadState?
    ensures var pc := ClientStep(s, c, copied).clients[c];
            HasReadState(pc) && Known(s, ReportId(pc)) && Explains(R.Abs(s).tasks[ReportId(pc)], pc)
  {
    var pc := s.clients[c];
    assert ClientShape(s, pc) && ClientOk(s, c, pc);
    assert SlotOk(s, pc.t);
    KnownIsVisible(s, pc.taskId);
    ScanAgreesWithMap(s, pc.taskId);
  }

  /** Two moments of a finished task agree on both time stamps. */
  ghost predicate SameStamps(x: Task, y: Task) {
    x.completeJiffies == y.completeJiffies && x.submitJiffies == y.submitJiffies
  }

  lemma CompleteStampsKept(ss: seq<State>, es: seq<Event>, i: nat, j: nat, t: nat)
    requires DriverRun(ss, es) && i <= j < |ss| && t < |ss[i].hist| && |ss[i].mem.tasks| == |ss[i].hist|
    requires ss[i].mem.tasks[t].state == Complete
    ensures t < |ss[j].mem.tasks| && SameStamps(ss[i].mem.tasks[t], ss[j].mem.tasks[t])
  {
    DriverInv(ss, es);
    assert SlotOk(ss[i], t);
    L.RunEvolves(ss, es, i, j, t);
    assert SlotOk(ss[j], t);
  }

  /** A later read keeps the explanation: a COMPLETE task's stamps are the same now as then. */
  lemma LaterReadExplains(s: State, c: nat, copied: bool, x: Task)
    requires Inv(s) && Enabled(s, Client(c, copied)) && HasReadState(s.clients[c])
    requires Explains(x, s.clients[c])
    requires s.clients[c].t < |s.mem.tasks|
    requires x.state == Complete ==> SameStamps(x, s.mem.tasks[s.clients[c].t])
    ensures var pc' := ClientStep(s, c, copied).clients[c];
            HasReadState(pc') ==> Explains(x, pc') && ReportId(pc') == ReportId(s.clients[c])
  {
    assert ClientShape(s, s.clients[c]);
  }

  lemma ReportIdIsSlot(s: State, c: nat)
    requires Inv(s) && c < |s.clients| && HasReadState(s.clients[c]) && !s.clients[c].Done?
    ensures s.clients[c].t < |s.hist| && ReportId(s.clients[c]) == s.clients[c].t + 1
  {
    assert ClientShape(s, s.clients[c]) && ClientOk(s, c, s.clients[c]);
  }

  /** Only reading the state starts an explanation. */
  lemma ReadingStarts(s: State, c: nat, copied: bool)
    requires Inv(s) && Enabled(s, Client(c, copied)) && HasReadState(ClientStep(s, c, copied).clients[c])
    ensures s.clients[c].QReadState? || HasReadState(s.clients[c])
  {
    assert ClientShape(s, s.clients[c]);
  }

  lemma {:induction false} StillCalling(ss: seq<State>, es: seq<Event>, i: nat, j: nat, c: nat, r: Request)
    requires InCall(ss, es, i, j, c, r)
    ensures c < |ss[j].clients| && !ss[j].clients[c].Idle?
    decreases j
  {
    hide Inv, Apply;
    DriverInv(ss, es);
    assert Step(ss[j - 1], es[j - 1], ss[j]);
    if j == i + 1 {
      BeginLeavesIdle(ss[i], c, r);
    } else {
      StillCalling(ss, es, i, j - 1, c, r);
      NotIdleNext(ss[j - 1], es[j - 1], c);
    }
  }

  lemma BeginLeavesIdle(s: State, c: nat, r: Request)
    requires Inv(s) && Enabled(s, Begin(c, r, true))
    ensures c < |Apply(s, Begin(c, r, true)).clients| && !Apply(s, Begin(c, r, true)).clients[c].Idle?
    ensures !HasReadState(Apply(s, Begin(c, r, true)).clients[c])
  {
  }

  lemma NotIdleNext(s: State, e: Event, c: nat)
    requires Inv(s) && Enabled(s, e) && c < |s.clients| && !s.clients[c].Idle? && e != Return(c)
    ensures c < |Apply(s, e).clients| && !Apply(s, e).clients[c].Idle?
  {
    if e.Client? && e.c == c {
      OwnStepNotIdle(s, c, e.copied);
    } else {
      OthersLeavePc(s, e, c);
    }
  }

  lemma OwnStepNotIdle(s: State, c: nat, copied: bool)
    requires Inv(s) && Enabled(s, Client(c, copied))
    ensures c < |ClientStep(s, c, copied).clients| && !ClientStep(s, c, copied).clients[c].Idle?
  {
  }

  /** One more step of the querying caller keeps some moment of the call as explanation. */
  lemma OwnStepExplained(ss: seq<State>, es: seq<Event>, j: nat, m: nat, c: nat)
    requires DriverRun(ss, es) && 0 < j < |ss| && m < j && es[j - 1].Client? && es[j - 1].c == c
    requires c < |ss[j - 1].clients| && c < |ss[j].clients|
    requires HasReadState(ss[j].clients[c]) && ExplainedAt(ss, m, ss[j - 1].clients[c])
    ensures ExplainedAt(ss, m, ss[j].clients[c])
  {
    DriverInv(ss, es);
    assert Step(ss[j - 1], es[j - 1], ss[j]);
    var s, pc := ss[j - 1], ss[j - 1].clients[c];
    ReportIdIsSlot(s, c);
    var x := R.Abs(ss[m]).tasks[ReportId(pc)];
    KnownIsVisible(ss[m], ReportId(pc));
    SameSizes(ss, es, m);
    SameSizes(ss, es, j - 1);
    if x.state == Complete {
      CompleteStampsKept(ss, es, m, j - 1, pc.t);
    }
    LaterReadExplains(s, c, es[j - 1].copied, x);
  }

  lemma {:induction false} QueryExplained(ss: seq<State>, es: seq<Event>, i: nat, j: nat, c: nat, r: Request)
    requires InCall(ss, es, i, j, c, r) && c < |ss[j].clients| && HasReadState(ss[j].clients[c])
    ensures exists m :: i < m < j && ExplainedAt(ss, m, ss[j].clients[c])
    decreases j
  {
    hide Inv, Apply, ExplainedAt, HasReadState;
    DriverInv(ss, es);
    var s, e := ss[j - 1], es[j - 1];
    assert Step(s, e, ss[j]);
    if j == i + 1 {
      BeginLeavesIdle(s, c, r);
    } else {
      StillCalling(ss, es, i, j - 1, c, r);
      if e.Client? && e.c == c {
        ExplainOwnStep(ss, es, i, j, c, r);
      } else {
        OthersLeavePc(s, e, c);
        QueryExplained(ss, es, i, j - 1, c, r);
      }
    }
  }

  lemma ExplainOwnStep(ss: seq<State>, es: seq<Event>, i: nat, j: nat, c: nat, r: Request)
    requires InCall(ss, es, i, j, c, r) && i + 1 < j && c < |ss[j].clients| && HasReadState(ss[j].clients[c])
    requires es[j - 1].Client? && es[j - 1].c == c && c < |ss[j - 1].clients|
    ensures exists m :: i < m < j && ExplainedAt(ss, m, ss[j].clients[c])
    decreases j, 0
  {
    DriverInv(ss, es);
    var s, e := ss[j - 1], es[j - 1];
    assert Step(s, e, ss[j]) && Apply(s, e) == ClientStep(s, c, e.copied);
    ReadingStarts(s, c, e.copied);
    if s.clients[c].QReadState? {
      ReadStateExplains(s, c, e.copied);
      assert ExplainedAt(ss, j - 1, ss[j].clients[c]);
    } else {
      QueryExplained(ss, es, i, j - 1, c, r);
      var m :| i < m < j - 1 && ExplainedAt(ss, m, s.clients[c]);
      OwnStepExplained(ss, es, j, m, c);
    }
  }

  // ---- Its error code is read last ----

  predicate HasReadError(pc: ClientPc) {
    pc.QCopyOut? || (pc.Done? && pc.outcome.Reported?)
  }

  function ErrorRead(pc: ClientPc): int
    requires HasReadError(pc)
  {
    if pc.QCopyOut? then pc.status.errorCode else pc.outcome.status.errorCode
  }

  /** At moment n the record under the reported ID carried the error code that was read. */
  ghost predicate ErrorAt(ss: seq<State>, n: nat, pc: ClientPc) {
    && n < |ss| && HasReadError(pc) && HasReadState(pc)
    && Known(ss[n], ReportId(pc)) && R.Abs(ss[n]).tasks[ReportId(pc)].errorCode == ErrorRead(pc)
  }

  lemma ReadErrorStep(s: State, c: nat, copied: bool)
    requires Inv(s) && Enabled(s, Client(c, copied)) && s.clients[c].QReadError?
    ensures var pc := ClientStep(s, c, copied).clients[c];
            && HasReadError(pc) && HasReadState(pc)
            && Known(s, ReportId(pc)) && R.Abs(s).tasks[ReportId(pc)].errorCode == ErrorRead(pc)
  {
    hide Inv;
    InvClient(s, c);
    InvSlot(s, s.clients[c].t);
    KnownIsVisible(s, s.clients[c].taskId);
    ScanAgreesWithMap(s, s.clients[c].taskId);
  }

  lemma CopyOutStep(s: State, c: nat, copied: bool)
    requires Inv(s) && Enabled(s, Client(c, copied)) && HasReadError(ClientStep(s, c, copied).clients[c])
    ensures var pc, pc' := s.clients[c], ClientStep(s, c, copied).clients[c];
            && HasReadState(pc')
            && (pc.QReadError? || (HasReadError(pc) && HasReadState(pc)
                                   && ErrorRead(pc') == ErrorRead(pc) && ReportId(pc') == ReportId(pc)))
  {
    hide Inv;
    InvClient(s, c);
  }

  /** The moment of the error code is not before the moment of the state. */
  lemma {:induction false} ErrorExplained(ss: seq<State>, es: seq<Event>, i: nat, j: nat, c: nat, r: Request)
    requires InCall(ss, es, i, j, c, r) && c < |ss[j].clients| && HasReadError(ss[j].clients[c])
    ensures exists m, n :: i < m < n < j && ExplainedAt(ss, m, ss[j].clients[c]) && ErrorAt(ss, n, ss[j].clients[c])
    decreases j
  {
    hide Inv, Apply, ExplainedAt, ErrorAt, HasReadError, HasReadState;
    DriverInv(ss, es);
    var s, e := ss[j - 1], es[j - 1];
    assert Step(s, e, ss[j]);
    if j == i + 1 {
      BeginReadsNothing(s, c, r);
    } else {
      StillCalling(ss, es, i, j - 1, c, r);
      if e.Client? && e.c == c {
        ErrorOwnStep(ss, es, i, j, c, r);
      } else {
        OthersLeavePc(s, e, c);
        ErrorExplained(ss, es, i, j - 1, c, r);
      }
    }
  }

  lemma BeginReadsNothing(s: State, c: nat, r: Request)
    requires Inv(s) && Enabled(s, Begin(c, r, true))
    ensures c < |Apply(s, Begin(c, r, true)).clients| && !HasReadError(Apply(s, Begin(c, r, true)).clients[c])
  {
  }

  lemma ErrorOwnStep(ss: seq<State>, es: seq<Event>, i: nat, j: nat, c: nat, r: Request)
    requires InCall(ss, es, i, j, c, r) && i + 1 < j && c < |ss[j].clients| && HasReadError(ss[j].clients[c])
    requires es[j - 1].Client? && es[j - 1].c == c && c < |ss[j - 1].clients|
    ensures exists m, n :: i < m < n < j && ExplainedAt(ss, m, ss[j].clients[c]) && ErrorAt(ss, n, ss[j].clients[c])
    decreases j, 0
  {
    hide Inv, ExplainedAt, ClientStep, Explains, Known, ReportId, R.Abs;
    DriverInv(ss, es);
    var s, e := ss[j - 1], es[j - 1];
    assert Step(s, e, ss[j]) && Apply(s, e) == ClientStep(s, c, e.copied);
    CopyOutStep(s, c, e.copied);
    if s.clients[c].QReadError? {
      QueryExplained(ss, es, i, j - 1, c, r);
      var m :| i < m < j - 1 && ExplainedAt(ss, m, s.clients[c]);
      OwnStepExplained(ss, es, j, m, c);
      ReadErrorStep(s, c, e.copied);
      assert ErrorAt(ss, j - 1, ss[j].clients[c]);
    } else {
      ErrorExplained(ss, es, i, j - 1, c, r);
      var m, n :| i < m < n < j - 1 && ExplainedAt(ss, m, s.clients[c]) && ErrorAt(ss, n, s.clients[c]);
      OwnStepExplained(ss, es, j, m, c);
      assert ErrorAt(ss, n, ss[j].clients[c]);
    }
  }

  /** Every successful query for a non-zero ID reports, in its documented fields, the record the
      ID map held for that ID at one moment during the call, however its unlocked reads were
      interleaved with the worker's and with cancels; and the error code that the record held at
      some later moment of the call. */
  lemma QueryIsAtomic(ss: seq<State>, es: seq<Event>, i: nat, j: nat, c: nat, id: nat, status: Status)
    requires InCall(ss, es, i, j, c, ScanTask(Query, id)) && id != 0 && c < |ss[j].clients|
    requires ss[j].clients[c] == Done(ScanTask(Query, id), Reported(status))
    ensures exists m, n :: i < m < n < j && Known(ss[m], id) && StatusOf(R.Abs(ss[m]).tasks[id], status)
                           && Known(ss[n], id) && R.Abs(ss[n]).tasks[id].errorCode == status.errorCode
  {
    ErrorExplained(ss, es, i, j, c, ScanTask(Query, id));
    var m, n :| i < m < n < j && ExplainedAt(ss, m, ss[j].clients[c]) && ErrorAt(ss, n, ss[j].clients[c]);
    QueryReportsItsId(ss, es, i, j, c, id, status);
    assert Known(ss[m], id) && StatusOf(R.Abs(ss[m]).tasks[id], status);
    assert Known(ss[n], id) && R.Abs(ss[n]).tasks[id].errorCode == status.errorCode;
  }

  /** A query for a non-zero ID that is past its match works on, and reports, that ID. */
  ghost predicate AsksFor(pc: ClientPc, id: nat) {
    match pc
    case ScanId(_, x, _) => x == id
    case ScanState(_, x, _) => x == id
    case Done(r, out) => out.Reported? ==> out.status.taskId == id
    case _ => HasMatched(pc) && pc.id == id
  }

  lemma AsksStep(s: State, c: nat, copied: bool, id: nat)
    requires Inv(s) && Enabled(s, Client(c, copied)) && id != 0 && AsksFor(s.clients[c], id)
    ensures c < |ClientStep(s, c, copied).clients| && AsksFor(ClientStep(s, c, copied).clients[c], id)
  {
    hide Inv;
    InvClient(s, c);
  }

  lemma AsksNext(s: State, e: Event, c: nat, id: nat)
    requires Inv(s) && Enabled(s, e) && c < |s.clients| && e != Return(c)
    requires id != 0 && AsksFor(s.clients[c], id)
    ensures c < |Apply(s, e).clients| && AsksFor(Apply(s, e).clients[c], id)
  {
    if e.Client? && e.c == c {
      AsksStep(s, c, e.copied, id);
    } else {
      OthersLeavePc(s, e, c);
    }
  }

  lemma QueryReportsItsId(ss: seq<State>, es: seq<Event>, i: nat, j: nat, c: nat, id: nat, status: Status)
    requires InCall(ss, es, i, j, c, ScanTask(Query, id)) && id != 0 && c < |ss[j].clients|
    requires ss[j].clients[c] == Done(ScanTask(Query, id), Reported(status))
    ensures status.taskId == id
  {
    KeepsAsking(ss, es, i, j, c, Query, id);
  }

  lemma {:induction false} KeepsAsking(ss: seq<State>, es: seq<Event>, i: nat, j: nat, c: nat, kind: ScanKind, id: nat)
    requires InCall(ss, es, i, j, c, ScanTask(kind, id)) && id != 0
    ensures c < |ss[j].clients| && AsksFor(ss[j].clients[c], id)
    decreases j
  {
    hide Inv, Apply;
    DriverInv(ss, es);
    var s, e := ss[j - 1], es[j - 1];
    assert Step(s, e, ss[j]);
    if j == i + 1 {
      BeginScan(s, c, kind, id);
    } else {
      KeepsAsking(ss, es, i, j - 1, c, kind, id);
      AsksNext(s, e, c, id);
    }
  }

  // ---- What a COMPLETE status is worth ----

  /** A query that reports COMPLETE reports the true run time: the two ticks it is computed from
      are the tick of submission and the tick of completion, and the result is the elapsed time
      in microseconds, rounded down, exactly when the 64-bit product does not overflow. */
  lemma CompleteReportsTrueTime(ss: seq<State>, es: seq<Event>, j: nat, c: nat, r: Request, status: Status)
    requires DriverRun(ss, es) && j < |ss| && c < |ss[j].clients|
    requires ss[j].clients[c] == Done(r, Reported(status)) && status.state == Complete
    ensures 1 <= status.taskId <= |ss[j].hist|
    ensures var h := ss[j].hist[status.taskId - 1];
            && h.phase.Rank() >= 9
            && h.submitTick <= h.doneTick <= ss[j].now
            && (h.doneTick - h.submitTick < U64 ==>
                  (status.execUsec == (h.doneTick - h.submitTick) * 1000000 / HZ
                   <==> (h.doneTick - h.submitTick) * 1000000 < U64))
  {
    DriverInv(ss, es);
    var s := ss[j];
    assert ClientShape(s, s.clients[c]) && ClientOk(s, c, s.clients[c]);
    assert SlotOk(s, status.taskId - 1);
    var h := s.hist[status.taskId - 1];
    if h.doneTick - h.submitTick < U64 {
      ExecUsecExactIffNoOverflow(h.submitTick, h.doneTick);
    }
  }
}
