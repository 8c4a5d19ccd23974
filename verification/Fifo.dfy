/** First in, first out, over whole runs. */
module Fifo {
  import opened Types
  import opened Memory
  import opened Steps
  import opened Invariant
  import opened Runs
  import W = WorkerPreservation

  lemma ClientGrows(s: State, c: nat, copied: bool, a: nat)
    requires Inv(s) && Enabled(s, Client(c, copied)) && a < |s.workers|
    ensures var s' := ClientStep(s, c, copied);
            && |s'.workers| == |s.workers|
            && s.workers[a].log <= s'.workers[a].log
            && s'.workers[a].retired == s.workers[a].retired
            && s'.workers[a].pc == s.workers[a].pc
            && s'.workers[a].running == s.workers[a].running
  {
    assert ClientShape(s, s.clients[c]);
    var s' := ClientStep(s, c, copied);
    if s.clients[c].SEnqueue? {
      var b := s.clients[c].desc.accelType;
      assert s'.workers == s.workers[b := s'.workers[b]];
    } else {
      assert s'.workers == s.workers;
    }
  }

  /** Of all threads and clocks only worker b's program counter moved. */
  ghost predicate PcOnly(s: State, s': State, b: nat) {
    && b < |s.workers| == |s'.workers|
    && s'.workers == s.workers[b := s.workers[b].(pc := s'.workers[b].pc)]
    && s'.clients == s.clients && s'.now == s.now && s'.boot == s.boot
  }

  lemma IdlePc(s: State, b: nat)
    requires Shape(s) && b < |s.workers| && !s.workers[b].pc.Busy() && !s.workers[b].pc.Exited?
    ensures PcOnly(s, IdleStep(s, b), b)
  {
    assert AccelShape(s.mem, b);
  }

  lemma RunPc(s: State, b: nat)
    requires Shape(s) && b < |s.workers| && s.workers[b].pc.InRun()
    ensures PcOnly(s, RunStep(s, b), b) && RunStep(s, b).workers[b].pc.Busy()
  {
    assert WorkerShape(s, s.workers[b].pc);
  }

  lemma FinishPc(s: State, b: nat)
    requires Shape(s) && b < |s.workers| && s.workers[b].pc.InFinish() && !s.workers[b].pc.RetireTask?
    ensures PcOnly(s, FinishStep(s, b), b) && FinishStep(s, b).workers[b].pc.Busy()
  {
    assert WorkerShape(s, s.workers[b].pc);
  }

  lemma RetirePc(s: State, b: nat)
    requires Shape(s) && b < |s.workers| && s.workers[b].pc.RetireTask?
    ensures var s', w := FinishStep(s, b), s.workers[b];
            && s'.workers == s.workers[b := w.(pc := Head, retired := w.retired + 1)]
            && s'.clients == s.clients && s'.now == s.now && s'.boot == s.boot
  {
    assert WorkerShape(s, s.workers[b].pc);
  }

  lemma WorkPc(s: State, b: nat)
    requires Shape(s) && Enabled(s, Work(b))
    ensures s.workers[b].pc.RetireTask? ==>
              var w := s.workers[b];
              WorkStep(s, b).workers == s.workers[b := w.(pc := Head, retired := w.retired + 1)]
    ensures !s.workers[b].pc.RetireTask? ==> PcOnly(s, WorkStep(s, b), b)
    ensures s.workers[b].pc.Busy() && !s.workers[b].pc.RetireTask? ==> WorkStep(s, b).workers[b].pc.Busy()
    ensures WorkStep(s, b).clients == s.clients && WorkStep(s, b).now == s.now && WorkStep(s, b).boot == s.boot
  {
    hide IdleStep, RunStep, FinishStep, Shape;
    var pc := s.workers[b].pc;
    if pc.InRun() {
      RunPc(s, b);
    } else if pc.RetireTask? {
      RetirePc(s, b);
    } else if pc.InFinish() {
      FinishPc(s, b);
    } else {
      IdlePc(s, b);
    }
  }

  lemma WorkGrows(s: State, b: nat, a: nat)
    requires Inv(s) && Enabled(s, Work(b)) && a < |s.workers|
    ensures var s' := WorkStep(s, b);
            && s'.workers == s.workers[b := s'.workers[b]]
            && s'.workers[a].log == s.workers[a].log
            && s'.workers[a].running == s.workers[a].running
            && s'.workers[a].retired == s.workers[a].retired + Retirements(s, Work(b), a)
  {
    hide Inv, WorkStep;
    InvShape(s);
    WorkPc(s, b);
  }

  /** Logs are only ever appended to. */
  lemma StepGrows(s: State, e: Event, a: nat)
    requires Inv(s) && Enabled(s, e) && a < |s.workers|
    ensures |Apply(s, e).workers| == |s.workers|
    ensures s.workers[a].log <= Apply(s, e).workers[a].log
    ensures Apply(s, e).workers[a].retired == s.workers[a].retired + Retirements(s, e, a)
  {
    match e
    case Client(c, copied) => ClientGrows(s, c, copied, a);
    case Work(b) => WorkGrows(s, b, a);
    case _ =>
  }

  /** 1 when the step is worker a's list_del of a finished task, 0 otherwise. */
  function Retirements(s: State, e: Event, a: nat): nat
    requires a < |s.workers|
  {
    if e == Work(a) && s.workers[a].pc.RetireTask? then 1 else 0
  }

  /** How many tasks worker a retires between states i and j of a run. */
  ghost function RetiredBetween(ss: seq<State>, es: seq<Event>, a: nat, i: nat, j: nat): nat
    requires Run(ss, es) && i <= j < |ss|
    requires forall k :: 0 <= k < |ss| ==> a < |ss[k].workers|
  {
    if i == j then 0 else RetiredBetween(ss, es, a, i, j - 1) + Retirements(ss[j - 1], es[j - 1], a)
  }

  ghost predicate HasAccel(ss: seq<State>, a: nat) {
    forall k :: 0 <= k < |ss| ==> a < |ss[k].workers|
  }

  lemma {:induction false} RunGrows(ss: seq<State>, es: seq<Event>, a: nat, i: nat, j: nat)
    requires Run(ss, es) && Inv(ss[0]) && i <= j < |ss| && HasAccel(ss, a)
    ensures ss[i].workers[a].log <= ss[j].workers[a].log
    ensures ss[j].workers[a].retired == ss[i].workers[a].retired + RetiredBetween(ss, es, a, i, j)
  {
    hide Inv, Apply, Enabled;
    if i < j {
      RunGrows(ss, es, a, i, j - 1);
      RunInv(ss, es);
      assert Step(ss[j - 1], es[j - 1], ss[j]);
      StepGrows(ss[j - 1], es[j - 1], a);
    }
  }

  /** FIFO: in every reachable state the tasks already retired, then the one being run (at most
      one), then the queue, are together exactly the enqueue log, in order and without
      repetition; and each ran on the accelerator its descriptor asked for. */
  lemma RetiredActiveQueuedIsLog(ss: seq<State>, es: seq<Event>, j: nat, a: nat)
    requires DriverRun(ss, es) && j < |ss| && a < |ss[j].workers|
    ensures Inv(ss[j])
    ensures var w, m := ss[j].workers[a], ss[j].mem.accels[a];
            && w.retired <= |w.log|
            && SlotsOf(w.log)[..w.retired] + m.active + m.queue == SlotsOf(w.log)
            && |m.active| <= 1
            && (forall k :: 0 <= k < |w.log| ==>
                  w.log[k].slot < |ss[j].mem.tasks| && ss[j].mem.tasks[w.log[k].slot].accelType == a)
            && (forall k, l :: 0 <= k < l < |w.log| ==> w.log[k].slot != w.log[l].slot)
  {
    DriverInv(ss, es);
    var s := ss[j];
    var w, m := s.workers[a], s.mem.accels[a];
    assert AccelOk(s, a);
    var all := SlotsOf(w.log);
    var n := w.retired + ActiveCount(w.pc);
    assert all[..w.retired] + all[w.retired..n] + all[n..] == all;
    forall k | 0 <= k < |w.log| ensures w.log[k].slot < |s.mem.tasks| && s.mem.tasks[w.log[k].slot].accelType == a {
      assert EntryOk(s, a, k);
    }
    forall k, l | 0 <= k < l < |w.log| ensures w.log[k].slot != w.log[l].slot {
      W.LogDistinct(s, a, k, l);
    }
  }

  /** Queue position k, as a log position. */
  lemma QueueInLog(s: State, a: nat, k: nat)
    requires Inv(s) && a < |s.workers| && k < |s.mem.accels[a].queue|
    ensures var w := s.workers[a];
            var position := w.retired + |s.mem.accels[a].active| + k;
            position < |w.log| && s.mem.accels[a].queue[k] == w.log[position].slot
  {
    assert AccelOk(s, a);
  }

  lemma RetiredIffPassed(s: State, a: nat, position: nat)
    requires Inv(s) && a < |s.workers| && position < |s.workers[a].log|
    ensures s.workers[a].log[position].slot < |s.hist|
    ensures s.hist[s.workers[a].log[position].slot].phase.Retired? <==> position < s.workers[a].retired
  {
    assert AccelOk(s, a);
    assert EntryOk(s, a, position);
  }

  lemma PassedLater(s: State, s': State, a: nat, k: nat)
    requires Inv(s) && Inv(s') && a < |s.workers| && a < |s'.workers|
    requires s.workers[a].log <= s'.workers[a].log
    requires k < |s.mem.accels[a].queue|
    ensures s.mem.accels[a].queue[k] < |s'.hist|
    ensures s'.hist[s.mem.accels[a].queue[k]].phase.Retired?
            <==> s'.workers[a].retired >= s.workers[a].retired + |s.mem.accels[a].active| + k + 1
  {
    QueueInLog(s, a, k);
    var position := s.workers[a].retired + |s.mem.accels[a].active| + k;
    assert s'.workers[a].log[position] == s.workers[a].log[position];
    RetiredIffPassed(s', a, position);
  }

  /** The task at position k of task_queue in state i has been retired by state j exactly when
      the worker has finished k + 1 tasks since then, one more if it was running one: whatever
      submits, queries and cancels happened meanwhile, nobody overtook it. */
  lemma NobodyOvertakes(ss: seq<State>, es: seq<Event>, a: nat, i: nat, j: nat, k: nat)
    requires DriverRun(ss, es) && i <= j < |ss| && HasAccel(ss, a)
    requires |ss[i].workers| == |ss[i].mem.accels| && k < |ss[i].mem.accels[a].queue|
    ensures ss[i].mem.accels[a].queue[k] < |ss[j].hist|
    ensures ss[j].hist[ss[i].mem.accels[a].queue[k]].phase.Retired?
            <==> RetiredBetween(ss, es, a, i, j) >= |ss[i].mem.accels[a].active| + k + 1
  {
    hide Inv;
    DriverInv(ss, es);
    RunGrows(ss, es, a, i, j);
    PassedLater(ss[i], ss[j], a, k);
  }

  /** Every task is picked in log order: the next task a worker takes is the oldest one of its
      log that was not taken yet. */
  lemma TakesOldest(s: State, a: nat)
    requires Inv(s) && a < |s.workers| && s.workers[a].pc.Take? && s.mem.accels[a].queue != []
    ensures var w := s.workers[a];
            && w.retired < |w.log|
            && WorkStep(s, a).mem.accels[a].active == [w.log[w.retired].slot]
            && WorkStep(s, a).mem.accels[a].queue == SlotsOf(w.log)[w.retired + 1..]
  {
    hide Inv;
    InvAccel(s, a);
  }
}
