/** The caller programs of the step system, run without interference, are the sequential calls:
    the same functions the imperative methods are proved to compute. */
module Alone {
  import opened Types
  import opened Memory
  import opened Calls
  import opened Steps
  import opened Invariant
  import opened Runs

  /** n steps of caller c, nobody else moving; it stops when the call is over. */
  ghost function Solo(s: State, c: nat, n: nat): State
    requires Inv(s) && c < |s.clients|
    decreases n
  {
    if n == 0 || s.clients[c].Idle? || s.clients[c].Done? then s
    else
      StepInv(s, Client(c, true));
      StepSizes(s, Client(c, true));
      Solo(Apply(s, Client(c, true)), c, n - 1)
  }

  lemma SoloStep(s: State, c: nat, n: nat, s': State)
    requires Inv(s) && c < |s.clients| && !s.clients[c].Idle? && !s.clients[c].Done? && n > 0
    requires s' == ClientStep(s, c, true)
    ensures Inv(s') && |s'.clients| == |s.clients| && Solo(s, c, n) == Solo(s', c, n - 1)
  {
    StepInv(s, Client(c, true));
    StepSizes(s, Client(c, true));
  }

  /** A step that only moves the caller on. */
  lemma SoloLocal(s: State, c: nat, n: nat, pc: ClientPc)
    requires Inv(s) && c < |s.clients| && !s.clients[c].Idle? && !s.clients[c].Done? && n > 0
    requires ClientStep(s, c, true) == Pc(s, c, pc)
    ensures Inv(Pc(s, c, pc)) && Solo(s, c, n) == Solo(Pc(s, c, pc), c, n - 1)
  {
    SoloStep(s, c, n, Pc(s, c, pc));
  }

  // ---- Submit ----

  lemma {:induction false} SoloSplit(s: State, c: nat, m: nat, n: nat)
    requires Inv(s) && c < |s.clients|
    ensures var s1 := Solo(s, c, m);
            Inv(s1) && |s1.clients| == |s.clients| && Solo(s, c, m + n) == Solo(s1, c, n)
    decreases m
  {
    hide Inv, ClientStep;
    if m > 0 && !s.clients[c].Idle? && !s.clients[c].Done? {
      InvClient(s, c);
      var s1 := ClientStep(s, c, true);
      SoloStep(s, c, m, s1);
      SoloStep(s, c, m + n, s1);
      SoloSplit(s1, c, m - 1, n);
    }
  }

  /** A lone submit up to the moment before it becomes visible. */
  lemma FillAlone(s: State, c: nat, d: Desc)
    requires Inv(s) && c < |s.clients| && s.clients[c] == SAlloc(d) && s.mem.free != []
    ensures s.mem.free[0] < |s.mem.tasks| && d.accelType < |s.mem.accels|
    ensures var s', t, m := Solo(s, c, 3), s.mem.free[0], AllocHead(s.mem);
            && s'.mem == Put(m, t, Filled(m.tasks[t], d)) && s'.now == s.now
            && c < |s'.clients| && s'.clients[c] == SPublish(d, t)
  {
    hide Inv;
    InvClient(s, c);
    var s1 := ClientStep(s, c, true);
    SoloStep(s, c, 3, s1);
    InvClient(s1, c);
    var s2 := ClientStep(s1, c, true);
    SoloStep(s1, c, 2, s2);
    InvClient(s2, c);
    SoloStep(s2, c, 1, ClientStep(s2, c, true));
  }

  lemma PublishAlone(s: State, c: nat, d: Desc, t: nat)
    requires Inv(s) && c < |s.clients| && s.clients[c] == SPublish(d, t)
    ensures t < |s.mem.tasks| && d.accelType < |s.mem.accels|
    ensures Solo(s, c, 3).mem == SubmitSlot(s.mem, t, d.accelType, Jiffies(s.now))
    ensures c < |Solo(s, c, 3).clients| && Solo(s, c, 3).clients[c] == SReadId(d, t)
  {
    hide Inv;
    InvClient(s, c);
    var s1 := ClientStep(s, c, true);
    SoloStep(s, c, 3, s1);
    InvClient(s1, c);
    var s2 := ClientStep(s1, c, true);
    SoloStep(s1, c, 2, s2);
    InvClient(s2, c);
    SoloStep(s2, c, 1, ClientStep(s2, c, true));
  }

  lemma AnswerAlone(s: State, c: nat, d: Desc, t: nat)
    requires Inv(s) && c < |s.clients| && s.clients[c] == SReadId(d, t)
    ensures t < |s.mem.tasks|
    ensures Solo(s, c, 2).mem == s.mem && c < |Solo(s, c, 2).clients|
    ensures Solo(s, c, 2).clients[c] == Done(SubmitTask(d), Submitted(s.mem.tasks[t].id))
  {
    hide Inv;
    InvClient(s, c);
    var s1 := ClientStep(s, c, true);
    SoloStep(s, c, 2, s1);
    InvClient(s1, c);
    SoloStep(s1, c, 1, ClientStep(s1, c, true));
  }

  /** A lone submit computes SubmitCall and answers with the new ID. */
  lemma SubmitAlone(s: State, c: nat, d: Desc)
    requires Inv(s) && c < |s.clients| && s.clients[c] == SAlloc(d) && s.mem.free != []
    ensures s.mem.free[0] < |s.mem.tasks| && d.accelType < |s.mem.accels|
    ensures Solo(s, c, 8).mem == SubmitCall(s.mem, d, Jiffies(s.now))
    ensures c < |Solo(s, c, 8).clients| && Solo(s, c, 8).clients[c] == Done(SubmitTask(d), Submitted(NextId(s.mem)))
  {
    hide Inv, Solo;
    FillAlone(s, c, d);
    SoloSplit(s, c, 3, 5);
    var s1 := Solo(s, c, 3);
    PublishAlone(s1, c, d, s.mem.free[0]);
    SoloSplit(s1, c, 3, 2);
    AnswerAlone(Solo(s1, c, 3), c, d, s.mem.free[0]);
  }

  // ---- Scans ----

  /** Steps a lone scan takes from slot i until it stops. */
  function ScanLength(tasks: seq<Task>, id: nat, i: nat): nat
    requires i <= |tasks|
    decreases |tasks| - i
  {
    if i == |tasks| then 1
    else if tasks[i].id != id then 1 + ScanLength(tasks, id, i + 1)
    else if tasks[i].state == Free then 2 + ScanLength(tasks, id, i + 1)
    else 2
  }

  function AfterScan(kind: ScanKind, id: nat, k: nat, slots: nat): ClientPc {
    if k == slots then Done(ScanTask(kind, id), Error(-ENOENT))
    else if kind == Query then QReadId(id, k)
    else CMark(id, k)
  }

  /** Testing one slot alone: on to the next slot, or to the match. */
  lemma TestAlone(s: State, c: nat, kind: ScanKind, id: nat, i: nat, n: nat)
    requires Inv(s) && c < |s.clients| && s.clients[c] == ScanId(kind, id, i) && i < |s.mem.tasks| && n >= 2
    ensures var x := s.mem.tasks[i];
            var next := if Matches(x, id) then AfterScan(kind, id, i, |s.mem.tasks|) else ScanId(kind, id, i + 1);
            Inv(Pc(s, c, next)) && Solo(s, c, n) == Solo(Pc(s, c, next), c, if x.id == id then n - 2 else n - 1)
  {
    hide Inv;
    InvClient(s, c);
    var s1 := ClientStep(s, c, true);
    SoloStep(s, c, n, s1);
    InvClient(s1, c);
    if s.mem.tasks[i].id == id {
      var s2 := ClientStep(s1, c, true);
      SoloStep(s1, c, n - 1, s2);
      PcTwice(s, c, s1.clients[c], s2.clients[c]);
    }
  }

  lemma EndAlone(s: State, c: nat, kind: ScanKind, id: nat, n: nat)
    requires Inv(s) && c < |s.clients| && s.clients[c] == ScanId(kind, id, |s.mem.tasks|) && n >= 1
    ensures var s' := Pc(s, c, Done(ScanTask(kind, id), Error(-ENOENT)));
            Inv(s') && Solo(s, c, n) == Solo(s', c, n - 1)
  {
    SoloStep(s, c, n, ClientStep(s, c, true));
  }

  lemma ScanLengthAtLeast(tasks: seq<Task>, id: nat, i: nat)
    requires i < |tasks|
    ensures ScanLength(tasks, id, i) >= 2
    decreases |tasks| - i
  {
    if i + 1 < |tasks| {
      ScanLengthAtLeast(tasks, id, i + 1);
    }
  }

  /** A lone scan stops at the first match, and has changed nothing. */
  lemma {:induction false} ScanAlone(s: State, c: nat, kind: ScanKind, id: nat, i: nat, n: nat)
    requires Inv(s) && c < |s.clients| && s.clients[c] == ScanId(kind, id, i) && i <= |s.mem.tasks|
    requires n >= ScanLength(s.mem.tasks, id, i)
    ensures var s' := Pc(s, c, AfterScan(kind, id, FirstMatch(s.mem.tasks, id, i), |s.mem.tasks|));
            Inv(s') && Solo(s, c, n) == Solo(s', c, n - ScanLength(s.mem.tasks, id, i))
    decreases |s.mem.tasks| - i
  {
    hide Inv, Solo;
    if i == |s.mem.tasks| {
      EndAlone(s, c, kind, id, n);
    } else {
      ScanLengthAtLeast(s.mem.tasks, id, i);
      TestAlone(s, c, kind, id, i, n);
      var x := s.mem.tasks[i];
      if !Matches(x, id) {
        var s1 := Pc(s, c, ScanId(kind, id, i + 1));
        ScanAlone(s1, c, kind, id, i + 1, if x.id == id then n - 2 else n - 1);
        PcTwice(s, c, s1.clients[c], AfterScan(kind, id, FirstMatch(s.mem.tasks, id, i), |s.mem.tasks|));
      }
    }
  }

  lemma PcTwice(s: State, c: nat, p: ClientPc, q: ClientPc)
    requires c < |s.clients|
    ensures Pc(Pc(s, c, p), c, q) == Pc(s, c, q)
  {
  }

  lemma ReadAlone(s: State, c: nat, id: nat, t: nat, n: nat)
    requires Inv(s) && c < |s.clients| && s.clients[c] == QReadId(id, t) && n >= 3
    ensures t < |s.mem.tasks|
    ensures var s' := Pc(s, c, QReadSubmit(id, t, s.mem.tasks[t].id, s.mem.tasks[t].state, s.mem.tasks[t].completeJiffies));
            Inv(s') && Solo(s, c, n) == Solo(s', c, n - 3)
  {
    hide Inv, Solo;
    InvClient(s, c);
    var x := s.mem.tasks[t];
    SoloLocal(s, c, n, QReadState(id, t, x.id));
    var s1 := Pc(s, c, QReadState(id, t, x.id));
    InvClient(s1, c);
    SoloLocal(s1, c, n - 1, QReadComplete(id, t, x.id, x.state));
    var s2 := Pc(s1, c, QReadComplete(id, t, x.id, x.state));
    InvClient(s2, c);
    SoloLocal(s2, c, n - 2, QReadSubmit(id, t, x.id, x.state, x.completeJiffies));
    PcTwice(s, c, s1.clients[c], s2.clients[c]);
    PcTwice(s, c, s2.clients[c], QReadSubmit(id, t, x.id, x.state, x.completeJiffies));
  }

  lemma ReportAlone(s: State, c: nat, id: nat, t: nat, taskId: nat, st: TaskState, complete: nat)
    requires Inv(s) && c < |s.clients| && s.clients[c] == QReadSubmit(id, t, taskId, st, complete)
    ensures t < |s.mem.tasks|
    ensures Solo(s, c, 3) == Pc(s, c, Done(ScanTask(Query, id),
              Reported(Status(taskId, st, ExecUsec(complete, s.mem.tasks[t].submitJiffies), s.mem.tasks[t].errorCode))))
  {
    hide Inv;
    InvClient(s, c);
    var x := s.mem.tasks[t];
    var exec := ExecUsec(complete, x.submitJiffies);
    SoloLocal(s, c, 3, QReadError(id, t, taskId, st, exec));
    var s1 := Pc(s, c, QReadError(id, t, taskId, st, exec));
    InvClient(s1, c);
    var status := Status(taskId, st, exec, x.errorCode);
    SoloLocal(s1, c, 2, QCopyOut(id, t, status));
    var s2 := Pc(s1, c, QCopyOut(id, t, status));
    InvClient(s2, c);
    SoloLocal(s2, c, 1, Done(ScanTask(Query, id), Reported(status)));
    PcTwice(s, c, s1.clients[c], s2.clients[c]);
    PcTwice(s, c, s2.clients[c], Done(ScanTask(Query, id), Reported(status)));
  }

  /** A lone query answers with the first match's status, or -ENOENT, and changes nothing. */
  lemma QueryAlone(s: State, c: nat, id: nat)
    requires Inv(s) && c < |s.clients| && s.clients[c] == ScanId(Query, id, 0)
    ensures var k := FirstMatch(s.mem.tasks, id, 0);
            var s' := Solo(s, c, ScanLength(s.mem.tasks, id, 0) + 6);
            && s'.mem == s.mem && c < |s'.clients|
            && s'.clients[c] == Done(ScanTask(Query, id),
                 if k == |s.mem.tasks| then Error(-ENOENT) else Reported(StatusFor(s.mem.tasks[k])))
  {
    hide Inv, Solo;
    var n := ScanLength(s.mem.tasks, id, 0) + 6;
    var k := FirstMatch(s.mem.tasks, id, 0);
    ScanAlone(s, c, Query, id, 0, n);
    var s1 := Pc(s, c, AfterScan(Query, id, k, |s.mem.tasks|));
    if k < |s.mem.tasks| {
      ReadAlone(s1, c, id, k, 6);
      var x := s.mem.tasks[k];
      var s2 := Pc(s1, c, QReadSubmit(id, k, x.id, x.state, x.completeJiffies));
      ReportAlone(s2, c, id, k, x.id, x.state, x.completeJiffies);
    } else {
      SoloOver(s1, c, 6);
    }
  }

  /** A lone GET_ACCEL_INFO answers with the load of the accelerator it names and changes nothing. */
  lemma InfoAlone(s: State, c: nat, a: nat)
    requires Inv(s) && c < |s.clients| && s.clients[c] == IRead(a)
    ensures a < |s.mem.accels| && Solo(s, c, 2).mem == s.mem && c < |Solo(s, c, 2).clients|
    ensures Solo(s, c, 2).clients[c] == Done(AccelInfo(a), InfoReturned(s.mem.accels[a].load))
  {
    hide Inv;
    InvClient(s, c);
    var load := s.mem.accels[a].load;
    SoloLocal(s, c, 2, ICopyOut(a, load));
    SoloLocal(Pc(s, c, ICopyOut(a, load)), c, 1, Done(AccelInfo(a), InfoReturned(load)));
  }

  /** A lone cancel cancels the first match, or answers -ENOENT and changes nothing. */
  lemma CancelAlone(s: State, c: nat, id: nat)
    requires Inv(s) && c < |s.clients| && s.clients[c] == ScanId(Cancel, id, 0)
    ensures var k := FirstMatch(s.mem.tasks, id, 0);
            var s' := Solo(s, c, ScanLength(s.mem.tasks, id, 0) + 3);
            && s'.mem == (if k == |s.mem.tasks| then s.mem else CancelSlot(s.mem, k))
            && c < |s'.clients|
            && s'.clients[c] == Done(ScanTask(Cancel, id), if k == |s.mem.tasks| then Error(-ENOENT) else CancelAccepted)
  {
    hide Inv, Solo;
    var k := FirstMatch(s.mem.tasks, id, 0);
    ScanAlone(s, c, Cancel, id, 0, ScanLength(s.mem.tasks, id, 0) + 3);
    var s1 := Pc(s, c, AfterScan(Cancel, id, k, |s.mem.tasks|));
    if k < |s.mem.tasks| {
      MarkAlone(s1, c, id, k);
    } else {
      SoloOver(s1, c, 3);
    }
  }

  lemma SoloOver(s: State, c: nat, n: nat)
    requires Inv(s) && c < |s.clients| && s.clients[c].Done?
    ensures Solo(s, c, n) == s
  {
  }

  lemma MarkAlone(s: State, c: nat, id: nat, t: nat)
    requires Inv(s) && c < |s.clients| && s.clients[c] == CMark(id, t)
    ensures t < |s.mem.tasks| && Solo(s, c, 3).mem == CancelSlot(s.mem, t) && c < |Solo(s, c, 3).clients|
    ensures Solo(s, c, 3).clients[c] == Done(ScanTask(Cancel, id), CancelAccepted)
  {
    hide Inv, Solo;
    InvClient(s, c);
    var s1 := ClientStep(s, c, true);
    SoloStep(s, c, 3, s1);
    InvClient(s1, c);
    var s2 := ClientStep(s1, c, true);
    SoloStep(s1, c, 2, s2);
    InvClient(s2, c);
    var s3 := ClientStep(s2, c, true);
    SoloStep(s2, c, 1, s3);
    SoloOver(s3, c, 0);
  }
}
