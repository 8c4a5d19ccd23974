/** Runs built step by step: from any run, one worker can be brought to the end of what it does. */
module Extensions {
  import opened Types
  import opened Memory
  import opened Steps
  import opened Invariant
  import opened Runs
  import W = WorkerPreservation
  import opened Calls
  import opened Alone
  import C = Scans
  import F = Fifo
  import G = Progress

  /** Steps of worker a and of the clock only. */
  predicate OnlyWorker(es: seq<Event>, a: nat) {
    forall m :: 0 <= m < |es| ==> es[m].Tick? || es[m] == Work(a)
  }

  function Last(ss: seq<State>): State
    requires ss != []
  {
    ss[|ss| - 1]
  }

  /** ss' and es' continue ss and es by the events more. */
  ghost predicate Continues(ss: seq<State>, es: seq<Event>, ss': seq<State>, es': seq<Event>, more: seq<Event>) {
    DriverRun(ss, es) && DriverRun(ss', es') && ss != [] && ss <= ss' && es' == es + more
  }

  lemma RunEnds(ss: seq<State>, es: seq<Event>)
    requires DriverRun(ss, es)
    ensures |ss| == |es| + 1 && Last(ss) == ss[|es|] && Inv(Last(ss))
  {
    hide Inv;
    DriverInv(ss, es);
  }

  lemma Extend(ss: seq<State>, es: seq<Event>, e: Event) returns (ss': seq<State>, es': seq<Event>)
    requires DriverRun(ss, es) && Enabled(Last(ss), e)
    ensures Shape(Last(ss)) && Continues(ss, es, ss', es', [e]) && Last(ss') == Apply(Last(ss), e)
    ensures |Last(ss').workers| == |Last(ss).workers|
  {
    hide Inv;
    RunEnds(ss, es);
    InvShape(Last(ss));
    NeverStuck(ss, es, e);
    StepSizes(Last(ss), e);
    ss', es' := ss + [Apply(Last(ss), e)], es + [e];
  }

  lemma ContinuesTwice(ss: seq<State>, es: seq<Event>, ss1: seq<State>, es1: seq<Event>, ss2: seq<State>, es2: seq<Event>,
                       m1: seq<Event>, m2: seq<Event>)
    requires Continues(ss, es, ss1, es1, m1) && Continues(ss1, es1, ss2, es2, m2)
    ensures Continues(ss, es, ss2, es2, m1 + m2)
  {
    hide DriverRun;
    assert es + m1 + m2 == es + (m1 + m2);
  }

  // ---- One worker step, at a moment chosen so that no wait is prolonged ----

  /** Worker steps to the end of its program's current turn, when every sleep is over at once and
      the deadline has passed at the first look. */
  function Distance(pc: WorkerPc): nat {
    match pc
    case Head => 0
    case Exited => 0
    case RetireTask(_) => 1
    case Signal(_) => 2
    case DropLoad(_) => 3
    case ClearError(_) => 4
    case MarkComplete(_) => 5
    case StampComplete(_) => 6
    case LongNap(_, _) => 7
    case CheckClock(_, _, _) => 7
    case CheckStop(_, _, _) => 8
    case Nap(_, _, _, _) => 9
    case CheckState(_, _, _) => 10
    case TestTimeout(_) => 11
    case AddLoad(_) => 12
    case MarkRunning(_) => 13
    case Take => 14
    case Recheck => 15
    case WaitEvent => 16
  }

  /** How far the clock is advanced before that step. */
  function Delay(s: State, pc: WorkerPc): nat {
    match pc
    case Nap(_, _, _, wakeAt) => if wakeAt > s.now then wakeAt - s.now else 0
    case LongNap(_, wakeAt) => if wakeAt > s.now then wakeAt - s.now else 0
    case CheckClock(_, _, start) => U64 - 1 - JiffiesSince(Jiffies(s.now), start)
    case _ => 0
  }

  /** After the delay the wrapped difference is as large as it can be. */
  lemma DeadlinePasses(now: nat, start: nat)
    ensures var d := U64 - 1 - JiffiesSince(Jiffies(now), start);
            d >= 0 && JiffiesSince(Jiffies(now + d), start) == U64 - 1
  {
    var x, d := Jiffies(now) - start, U64 - 1 - JiffiesSince(Jiffies(now), start);
    var q := x / U64;
    assert x + d == q * U64 + (U64 - 1);
    var p := (now + d) / U64 - now / U64;
    assert Jiffies(now + d) - start == x + d - p * U64;
    assert Jiffies(now + d) - start == (q - p) * U64 + (U64 - 1);
    ModUnique(U64 - 1, Jiffies(now + d) - start, p - q);
  }

  /** What a worker's own steps and the clock leave as it is, and what they can only add. */
  ghost predicate Onward(s: State, s': State, a: nat) {
    && a < |s.workers| == |s'.workers|
    && s'.workers[a].running == s.workers[a].running && s'.workers[a].stop == s.workers[a].stop
    && s'.workers[a].log == s.workers[a].log
    && s'.workers[a].retired >= s.workers[a].retired
    && s'.clients == s.clients
  }

  ghost predicate Nearer(s: State, s': State, a: nat) {
    && Onward(s, s', a)
    && Distance(s'.workers[a].pc) < Distance(s.workers[a].pc)
    && (s.workers[a].pc.Busy() ==> s'.workers[a].pc.Busy() || s'.workers[a].retired > s.workers[a].retired)
    && (s'.workers[a].pc.Exited? ==> !s.workers[a].running)
  }

  lemma IdleNearer(s: State, a: nat)
    requires Inv(s) && Enabled(s, Work(a)) && !s.workers[a].pc.Busy() && !s.workers[a].pc.Head?
    ensures Nearer(s, IdleStep(s, a), a)
  {
    hide Inv;
    InvShape(s);
    F.IdlePc(s, a);
  }

  lemma RunNearer(s: State, a: nat)
    requires Inv(s) && Enabled(s, Work(a)) && s.workers[a].pc.InRun()
    requires s.workers[a].pc.CheckClock? ==> JiffiesSince(Jiffies(s.now), s.workers[a].pc.start) == U64 - 1
    ensures Nearer(s, RunStep(s, a), a)
  {
    hide Inv, RunStep;
    InvShape(s);
    F.RunPc(s, a);
    if s.workers[a].pc.CheckClock? {
      TimeoutFits(s, a);
    }
    RunPcNearer(s, a);
  }

  lemma TimeoutFits(s: State, a: nat)
    requires Inv(s) && a < |s.workers| && s.workers[a].pc.CheckClock?
    ensures s.workers[a].pc.timeout < U64 / 2
  {
    hide Inv, AccelOk, SlotOk;
    InvAccel(s, a);
    W.CurrentFacts(s, a);
    TicksBound(s.mem.tasks[s.workers[a].pc.t].timeoutMs);
  }

  lemma RunPcNearer(s: State, a: nat)
    requires Shape(s) && a < |s.workers| && s.workers[a].pc.InRun()
    requires s.workers[a].pc.CheckClock? ==>
               s.workers[a].pc.timeout < U64 / 2 && JiffiesSince(Jiffies(s.now), s.workers[a].pc.start) == U64 - 1
    ensures a < |RunStep(s, a).workers|
    ensures Distance(RunStep(s, a).workers[a].pc) < Distance(s.workers[a].pc)
  {
    assert WorkerShape(s, s.workers[a].pc);
    hide Shape, Jiffies, JiffiesSince;
  }

  lemma FinishNearer(s: State, a: nat)
    requires Inv(s) && Enabled(s, Work(a)) && s.workers[a].pc.InFinish()
    ensures Nearer(s, FinishStep(s, a), a)
  {
    hide Inv;
    InvShape(s);
    if s.workers[a].pc.RetireTask? {
      hide FinishStep, Shape;
      F.RetirePc(s, a);
    } else {
      F.FinishPc(s, a);
      FinishPcNearer(s, a);
    }
  }

  lemma FinishPcNearer(s: State, a: nat)
    requires Shape(s) && a < |s.workers| && s.workers[a].pc.InFinish() && !s.workers[a].pc.RetireTask?
    ensures a < |FinishStep(s, a).workers|
    ensures Distance(FinishStep(s, a).workers[a].pc) < Distance(s.workers[a].pc)
  {
    assert WorkerShape(s, s.workers[a].pc);
    hide Shape;
  }

  lemma WorkNearer(s: State, a: nat)
    requires Inv(s) && Enabled(s, Work(a)) && !s.workers[a].pc.Head?
    requires s.workers[a].pc.CheckClock? ==> JiffiesSince(Jiffies(s.now), s.workers[a].pc.start) == U64 - 1
    ensures Nearer(s, Apply(s, Work(a)), a)
  {
    hide Inv, IdleStep, RunStep, FinishStep, Nearer;
    InvShape(s);
    var pc := s.workers[a].pc;
    if pc.InRun() {
      RunNearer(s, a);
    } else if pc.InFinish() {
      FinishNearer(s, a);
    } else {
      IdleNearer(s, a);
    }
  }

  lemma Nudge(ss: seq<State>, es: seq<Event>, a: nat) returns (ss': seq<State>, es': seq<Event>, more: seq<Event>)
    requires DriverRun(ss, es) && a < |Last(ss).workers|
    requires !Last(ss).workers[a].pc.Head? && !Last(ss).workers[a].pc.Exited?
    ensures Continues(ss, es, ss', es', more) && OnlyWorker(more, a)
    ensures Nearer(Last(ss), Last(ss'), a)
  {
    hide Inv, DriverRun, Run, WorkStep, Nearer;
    RunEnds(ss, es);
    var s := Last(ss);
    var d := Delay(s, s.workers[a].pc);
    var ss1, es1 := Extend(ss, es, Tick(d));
    var s1 := Last(ss1);
    RunEnds(ss1, es1);
    if s.workers[a].pc.CheckClock? {
      DeadlinePasses(s.now, s.workers[a].pc.start);
    }
    WorkNearer(s1, a);
    ss', es' := Extend(ss1, es1, Work(a));
    more := [Tick(d)] + [Work(a)];
    ContinuesTwice(ss, es, ss1, es1, ss', es', [Tick(d)], [Work(a)]);
    TickFirst(s, s1, Last(ss'), a, d);
  }

  lemma TickFirst(s: State, s1: State, s2: State, a: nat, d: nat)
    requires s1 == s.(now := s.now + d) && Nearer(s1, s2, a)
    ensures Nearer(s, s2, a)
  {
  }

  /** Where Settle ends. */
  ghost predicate Settled(s: State, s': State, a: nat) {
    && Onward(s, s', a)
    && (s'.workers[a].pc.Head? || s'.workers[a].pc.Exited?)
    && (s'.workers[a].pc.Exited? ==> !s.workers[a].running || s.workers[a].pc.Exited?)
    && (s.workers[a].pc.Busy() ==> s'.workers[a].retired > s.workers[a].retired)
  }

  /** From any run, steps of worker a and of the clock alone bring it back to the head of its loop,
      the task it was running retired, or out of the loop if `running` has been cleared. */
  lemma {:induction false} Settle(ss: seq<State>, es: seq<Event>, a: nat)
    returns (ss': seq<State>, es': seq<Event>, more: seq<Event>)
    requires DriverRun(ss, es) && a < |Last(ss).workers|
    ensures Continues(ss, es, ss', es', more) && OnlyWorker(more, a)
    ensures Settled(Last(ss), Last(ss'), a)
    decreases Distance(Last(ss).workers[a].pc)
  {
    hide Inv, DriverRun;
    RunEnds(ss, es);
    if Last(ss).workers[a].pc.Head? || Last(ss).workers[a].pc.Exited? {
      ss', es', more := ss, es, [];
    } else {
      var ss1, es1, m1 := Nudge(ss, es, a);
      var m2;
      ss', es', m2 := Settle(ss1, es1, a);
      ContinuesTwice(ss, es, ss1, es1, ss', es', m1, m2);
      more := m1 + m2;
    }
  }

  // ---- A kept worker gets through its queue ----

  /** One step of an idle worker that finds `running` set and its queue not empty. */
  lemma IdleForward(s: State, a: nat)
    requires Inv(s) && a < |s.workers| && s.workers[a].running && s.workers[a].retired < |s.workers[a].log|
    requires !s.workers[a].pc.Busy() && !s.workers[a].pc.Exited?
    ensures Enabled(s, Work(a)) && Onward(s, Apply(s, Work(a)), a)
    ensures var pc, w' := s.workers[a].pc, Apply(s, Work(a)).workers[a];
            && w'.retired == s.workers[a].retired
            && (!pc.Take? ==> Apply(s, Work(a)).mem == s.mem)
            && (if pc.Head? then w'.pc.WaitEvent? else if pc.WaitEvent? then w'.pc.Recheck?
                else if pc.Recheck? then w'.pc.Take? else w'.pc.Busy())
  {
    hide Inv;
    InvAccel(s, a);
  }

  lemma Forward(ss: seq<State>, es: seq<Event>, a: nat) returns (ss': seq<State>, es': seq<Event>)
    requires DriverRun(ss, es) && a < |Last(ss).workers| && Last(ss).workers[a].running
    requires Last(ss).workers[a].retired < |Last(ss).workers[a].log|
    requires !Last(ss).workers[a].pc.Busy() && !Last(ss).workers[a].pc.Exited?
    ensures Continues(ss, es, ss', es', [Work(a)]) && Onward(Last(ss), Last(ss'), a)
    ensures var pc, w' := Last(ss).workers[a].pc, Last(ss').workers[a];
            && w'.retired == Last(ss).workers[a].retired
            && (!pc.Take? ==> Last(ss').mem == Last(ss).mem)
            && (if pc.Head? then w'.pc.WaitEvent? else if pc.WaitEvent? then w'.pc.Recheck?
                else if pc.Recheck? then w'.pc.Take? else w'.pc.Busy())
  {
    hide Inv, DriverRun, Apply;
    RunEnds(ss, es);
    IdleForward(Last(ss), a);
    ss', es' := Extend(ss, es, Work(a));
  }

  /** Idle places, by how far they are from taking a task. */
  function ToTake(pc: WorkerPc): nat {
    if pc.Busy() then 0 else if pc.Take? then 1 else if pc.Recheck? then 2 else if pc.WaitEvent? then 3 else 4
  }

  lemma OnwardTwice(s: State, s1: State, s2: State, a: nat)
    requires Onward(s, s1, a) && Onward(s1, s2, a)
    ensures Onward(s, s2, a)
  {
  }

  /** While `running` is set, log position p can be brought to its end by the worker's own steps and
      the passing of time: the whole queue in front of it, one task after the other. */
  lemma {:induction false} RunDown(ss: seq<State>, es: seq<Event>, a: nat, p: nat)
    returns (ss': seq<State>, es': seq<Event>, more: seq<Event>)
    requires DriverRun(ss, es) && a < |Last(ss).workers| && Last(ss).workers[a].running
    requires p < |Last(ss).workers[a].log|
    ensures Continues(ss, es, ss', es', more) && OnlyWorker(more, a)
    ensures Onward(Last(ss), Last(ss'), a) && Last(ss').workers[a].retired > p
    decreases if Last(ss).workers[a].retired > p then 0 else p + 1 - Last(ss).workers[a].retired,
              ToTake(Last(ss).workers[a].pc)
  {
    hide Inv, DriverRun, ToTake;
    RunEnds(ss, es);
    var w := Last(ss).workers[a];
    if w.retired > p {
      ss', es', more := StayPut(ss, es, a);
    } else {
      var ss1, es1, m1 := Approach(ss, es, a);
      var m2;
      ss', es', m2 := RunDown(ss1, es1, a, p);
      OnwardTwice(Last(ss), Last(ss1), Last(ss'), a);
      ContinuesTwice(ss, es, ss1, es1, ss', es', m1, m2);
      more := m1 + m2;
    }
  }

  lemma StayPut(ss: seq<State>, es: seq<Event>, a: nat) returns (ss': seq<State>, es': seq<Event>, more: seq<Event>)
    requires DriverRun(ss, es) && a < |Last(ss).workers|
    ensures Continues(ss, es, ss', es', more) && OnlyWorker(more, a) && ss' == ss && ss' != []
  {
    ss', es', more := ss, es, [];
  }

  lemma Approach(ss: seq<State>, es: seq<Event>, a: nat) returns (ss': seq<State>, es': seq<Event>, more: seq<Event>)
    requires DriverRun(ss, es) && a < |Last(ss).workers| && Last(ss).workers[a].running
    requires Last(ss).workers[a].retired < |Last(ss).workers[a].log|
    ensures Continues(ss, es, ss', es', more) && OnlyWorker(more, a) && DriverRun(ss', es') && ss' != []
    ensures Onward(Last(ss), Last(ss'), a)
    ensures var w, w' := Last(ss).workers[a], Last(ss').workers[a];
            w'.retired > w.retired || (w'.retired == w.retired && ToTake(w'.pc) < ToTake(w.pc))
  {
    hide Inv, DriverRun, ToTake;
    RunEnds(ss, es);
    var w := Last(ss).workers[a];
    if w.pc.Busy() {
      ss', es', more := Settle(ss, es, a);
    } else {
      NotExited(ss, es, a);
      ss', es' := Forward(ss, es, a);
      more := [Work(a)];
      TakeNearer(w.pc, Last(ss').workers[a].pc);
    }
  }

  lemma TakeNearer(pc: WorkerPc, pc': WorkerPc)
    requires !pc.Busy() && !pc.Exited?
    requires if pc.Head? then pc'.WaitEvent? else if pc.WaitEvent? then pc'.Recheck?
             else if pc.Recheck? then pc'.Take? else pc'.Busy()
    ensures ToTake(pc') < ToTake(pc)
  {
  }

  lemma NotExited(ss: seq<State>, es: seq<Event>, a: nat)
    requires DriverRun(ss, es) && a < |Last(ss).workers| && Last(ss).workers[a].running
    ensures !Last(ss).workers[a].pc.Exited?
  {
    hide Inv;
    RunEnds(ss, es);
    G.ExitedMeansStopped(ss, es, |es|, a);
  }

  // ---- One caller by itself ----

  predicate OnlyCaller(es: seq<Event>, c: nat) {
    forall m :: 0 <= m < |es| ==> es[m] == Client(c, true)
  }

  ghost predicate OthersSame(s: State, s': State, c: nat) {
    && |s'.workers| == |s.workers| && |s'.clients| == |s.clients|
    && (forall a :: 0 <= a < |s.workers| ==>
          && s'.workers[a].running == s.workers[a].running && s'.workers[a].pc == s.workers[a].pc
          && s'.workers[a].retired == s.workers[a].retired)
    && (forall d :: 0 <= d < |s.clients| && d != c ==> s'.clients[d] == s.clients[d])
  }

  lemma CallerLeavesOthers(s: State, c: nat)
    requires Inv(s) && Enabled(s, Client(c, true))
    ensures OthersSame(s, ClientStep(s, c, true), c)
  {
    hide Inv, ClientStep;
    InvShape(s);
    StepSizes(s, Client(c, true));
    forall a | 0 <= a < |s.workers|
      ensures ClientStep(s, c, true).workers[a].running == s.workers[a].running
      ensures ClientStep(s, c, true).workers[a].pc == s.workers[a].pc
      ensures ClientStep(s, c, true).workers[a].retired == s.workers[a].retired
    {
      F.ClientGrows(s, c, true, a);
    }
    forall d | 0 <= d < |s.clients| && d != c ensures ClientStep(s, c, true).clients[d] == s.clients[d] {
      C.ClientLeavesOthers(s, c, true, d);
    }
  }

  /** Solo as a run. */
  lemma {:induction false} SoloRun(ss: seq<State>, es: seq<Event>, c: nat, n: nat)
    returns (ss': seq<State>, es': seq<Event>, more: seq<Event>)
    requires DriverRun(ss, es) && Inv(Last(ss)) && c < |Last(ss).clients|
    ensures Continues(ss, es, ss', es', more) && OnlyCaller(more, c)
    ensures Last(ss') == Solo(Last(ss), c, n) && OthersSame(Last(ss), Last(ss'), c)
    decreases n
  {
    hide Inv, DriverRun, ClientStep;
    RunEnds(ss, es);
    var s := Last(ss);
    InvShape(s);
    if n == 0 || s.clients[c].Idle? || s.clients[c].Done? {
      ss', es', more := ss, es, [];
    } else {
      var ss1, es1 := Extend(ss, es, Client(c, true));
      SoloStep(s, c, n, Last(ss1));
      CallerLeavesOthers(s, c);
      var m2;
      ss', es', m2 := SoloRun(ss1, es1, c, n - 1);
      ContinuesTwice(ss, es, ss1, es1, ss', es', [Client(c, true)], m2);
      more := [Client(c, true)] + m2;
    }
  }

  /** A whole submit by one caller. */
  lemma SubmitRun(ss: seq<State>, es: seq<Event>, c: nat, d: Desc)
    returns (ss': seq<State>, es': seq<Event>, j: nat)
    requires DriverRun(ss, es) && ss != [] && c < |Last(ss).clients| && Last(ss).clients[c].Idle?
    requires Validate(d, |Last(ss).workers|) == 0
    requires Last(ss).mem.free != [] && Last(ss).mem.free[0] < |Last(ss).mem.tasks|
    requires d.accelType < |Last(ss).mem.accels|
    ensures DriverRun(ss', es') && ss' != [] && ss <= ss' && es <= es'
    ensures Last(ss').mem == SubmitCall(Last(ss).mem, d, j) && OthersSame(Last(ss), Last(ss'), c)
  {
    hide Inv, Solo, SubmitCall, Run, Validate;
    var ss1, es1 := Extend(ss, es, Begin(c, SubmitTask(d), true));
    RunEnds(ss1, es1);
    SubmitAlone(Last(ss1), c, d);
    var m;
    ss', es', m := SoloRun(ss1, es1, c, 8);
    j := Jiffies(Last(ss1).now);
  }
}
