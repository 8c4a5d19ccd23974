/** One worker runs one task at a time, so waiting behind others takes at least their run times. */
module Timing {
  import opened Types
  import opened Memory
  import opened Steps
  import opened Invariant
  import opened Runs
  import W = WorkerPreservation
  import F = Fifo

  function HistAt(s: State, a: nat, k: nat): Hist
    requires a < |s.workers| && k < |s.workers[a].log| && s.workers[a].log[k].slot < |s.hist|
  {
    s.hist[s.workers[a].log[k].slot]
  }

  ghost predicate HasStarted(h: Hist) {
    h.phase.Rank() >= 7
  }

  ghost predicate HasFinished(h: Hist) {
    h.phase.Rank() >= 8
  }

  /** The log names existing slots. */
  ghost predicate LogShape(s: State, a: nat) {
    a < |s.workers| && forall k :: 0 <= k < |s.workers[a].log| ==> s.workers[a].log[k].slot < |s.hist|
  }

  /** Entry k was waiting, or just arriving, when entry j was appended. */
  predicate AheadOf(log: seq<Entry>, k: nat, j: nat)
    requires j < |log|
  {
    k <= j <= k + log[j].ahead
  }

  ghost predicate EnqueueTimes(s: State, a: nat)
    requires LogShape(s, a)
  {
    forall j :: 0 <= j < |s.workers[a].log| ==> s.workers[a].log[j].enqTick <= s.now && s.workers[a].log[j].ahead <= j
  }

  /** A task that was still waiting when j arrived starts no earlier than j's arrival. */
  ghost predicate StartsAfterArrivals(s: State, a: nat)
    requires LogShape(s, a)
  {
    forall j, k :: 0 <= k <= j < |s.workers[a].log| && AheadOf(s.workers[a].log, k, j) && HasStarted(HistAt(s, a, k)) ==>
      s.workers[a].log[j].enqTick <= HistAt(s, a, k).startTick
  }

  /** A task starts only after the one before it in the log has finished. */
  ghost predicate StartsAfterPrevious(s: State, a: nat)
    requires LogShape(s, a)
  {
    forall k :: 0 < k < |s.workers[a].log| && HasStarted(HistAt(s, a, k)) ==>
      HasFinished(HistAt(s, a, k - 1)) && HistAt(s, a, k - 1).doneTick <= HistAt(s, a, k).startTick
  }

  /** A finished task ran for its time, unless a cancel or a stop cut it short. */
  ghost predicate RunsItsTime(s: State, a: nat)
    requires LogShape(s, a)
  {
    forall k :: 0 <= k < |s.workers[a].log| && HasFinished(HistAt(s, a, k)) ==>
      HistAt(s, a, k).disturbed
      || HistAt(s, a, k).startTick + MinRun(s.workers[a].log[k].timeoutMs) <= HistAt(s, a, k).doneTick
  }

  ghost predicate TimeOk(s: State, a: nat) {
    && LogShape(s, a)
    && EnqueueTimes(s, a)
    && StartsAfterArrivals(s, a)
    && StartsAfterPrevious(s, a)
    && RunsItsTime(s, a)
  }

  // ---- Steps that leave the recorded times alone ----

  ghost predicate TimesSame(h: Hist, h': Hist) {
    && (HasStarted(h') <==> HasStarted(h))
    && (HasFinished(h') <==> HasFinished(h))
    && (HasStarted(h) ==> h'.startTick == h.startTick)
    && (HasFinished(h) ==> h'.doneTick == h.doneTick && h'.disturbed == h.disturbed)
  }

  lemma KeepTimes(s: State, s': State, a: nat)
    requires TimeOk(s, a) && |s'.hist| == |s.hist| && |s'.workers| == |s.workers|
    requires s'.workers[a].log == s.workers[a].log && s.now <= s'.now
    requires forall i :: 0 <= i < |s.hist| ==> TimesSame(s.hist[i], s'.hist[i])
    ensures TimeOk(s', a)
  {
    forall k | 0 <= k < |s.workers[a].log| ensures TimesSame(HistAt(s, a, k), HistAt(s', a, k)) {
    }
  }

  lemma AllocTimes(s: State, c: nat, d: Desc, i: nat)
    requires Inv(s) && c < |s.clients| && s.clients[c] == SAlloc(d) && i < |s.hist|
    ensures |AllocStep(s, c, d).hist| == |s.hist|
    ensures TimesSame(s.hist[i], AllocStep(s, c, d).hist[i])
  {
    assert SlotOk(s, i);
  }

  lemma SubmitTimes(s: State, c: nat, copied: bool, i: nat)
    requires Inv(s) && c < |s.clients| && s.clients[c].InSubmit() && i < |s.hist|
    ensures |SubmitStep(s, c, copied).hist| == |s.hist|
    ensures TimesSame(s.hist[i], SubmitStep(s, c, copied).hist[i])
  {
    var pc := s.clients[c];
    assert ClientShape(s, pc) && ClientOk(s, c, pc);
    if pc.SAlloc? {
      AllocTimes(s, c, pc.desc, i);
    }
  }

  lemma ScanTimes(s: State, c: nat, copied: bool, i: nat)
    requires Inv(s) && c < |s.clients| && s.clients[c].InScan() && i < |s.hist|
    ensures |ScanStep(s, c, copied).hist| == |s.hist|
    ensures TimesSame(s.hist[i], ScanStep(s, c, copied).hist[i])
  {
    assert ClientShape(s, s.clients[c]);
  }

  lemma ClientTimes(s: State, c: nat, copied: bool, i: nat)
    requires Inv(s) && Enabled(s, Client(c, copied)) && i < |s.hist|
    ensures |ClientStep(s, c, copied).hist| == |s.hist|
    ensures TimesSame(s.hist[i], ClientStep(s, c, copied).hist[i])
  {
    if s.clients[c].InSubmit() {
      SubmitTimes(s, c, copied, i);
    } else if s.clients[c].InScan() {
      ScanTimes(s, c, copied, i);
    } else {
      assert ClientShape(s, s.clients[c]);
    }
  }

  lemma IdleTimes(s: State, b: nat, i: nat)
    requires Inv(s) && Enabled(s, Work(b)) && i < |s.hist| && !s.workers[b].pc.Busy()
    ensures |IdleStep(s, b).hist| == |s.hist|
    ensures TimesSame(s.hist[i], IdleStep(s, b).hist[i])
  {
    hide Inv;
    InvAccel(s, b);
    if s.mem.accels[b].queue != [] {
      assert EntryOk(s, b, s.workers[b].retired);
    }
  }

  lemma BusyTimes(s: State, b: nat, i: nat)
    requires Inv(s) && Enabled(s, Work(b)) && i < |s.hist| && s.workers[b].pc.Busy()
    requires !s.workers[b].pc.TestTimeout? && !s.workers[b].pc.StampComplete?
    ensures |WorkStep(s, b).hist| == |s.hist|
    ensures TimesSame(s.hist[i], WorkStep(s, b).hist[i])
  {
    hide Inv, AccelOk, SlotOk, CurrentOk;
    InvShape(s);
    W.CurrentFacts(s, b);
  }

  lemma WorkTimes(s: State, b: nat, i: nat)
    requires Inv(s) && Enabled(s, Work(b)) && i < |s.hist|
    requires !s.workers[b].pc.TestTimeout? && !s.workers[b].pc.StampComplete?
    ensures |WorkStep(s, b).hist| == |s.hist|
    ensures TimesSame(s.hist[i], WorkStep(s, b).hist[i])
  {
    hide Inv, TimesSame, IdleStep, RunStep, FinishStep;
    InvShape(s);
    if s.workers[b].pc.Busy() {
      BusyTimes(s, b, i);
    } else {
      IdleTimes(s, b, i);
    }
  }

  // ---- Steps that record a time ----

  lemma EnqueueKeepsTimes(s: State, c: nat, d: Desc, t: nat, a: nat)
    requires Inv(s) && c < |s.clients| && s.clients[c] == SEnqueue(d, t) && a < |s.workers| && TimeOk(s, a)
    ensures d.accelType < |s.workers| && t < |s.hist|
    ensures TimeOk(EnqueueStep(s, c, d, t), a)
  {
    assert ClientShape(s, s.clients[c]) && ClientOk(s, c, s.clients[c]);
    var s' := EnqueueStep(s, c, d, t);
    if a == d.accelType {
      NewEntryTimes(s, c, d, t);
    } else {
      forall i | 0 <= i < |s.hist| ensures TimesSame(s.hist[i], s'.hist[i]) {
        ClientTimes(s, c, true, i);
      }
      KeepTimes(s, s', a);
    }
  }

  /** Tasks ahead of a new arrival are exactly those not taken yet, so none of them started. */
  lemma NotStarted(s: State, a: nat, k: nat)
    requires Inv(s) && a < |s.workers| && k < |s.workers[a].log|
    requires |s.workers[a].log| <= k + |s.mem.accels[a].queue|
    ensures s.workers[a].log[k].slot < |s.hist| && !HasStarted(HistAt(s, a, k))
  {
    assert AccelOk(s, a);
    assert EntryOk(s, a, k);
  }

  lemma NewEntryTimes(s: State, c: nat, d: Desc, t: nat)
    requires Inv(s) && c < |s.clients| && s.clients[c] == SEnqueue(d, t)
    requires d.accelType < |s.workers| && t < |s.hist| && TimeOk(s, d.accelType)
    requires s.hist[t].phase == Stamped(c)
    ensures TimeOk(EnqueueStep(s, c, d, t), d.accelType)
  {
    var a := d.accelType;
    var s' := EnqueueStep(s, c, d, t);
    var log, log' := s.workers[a].log, s'.workers[a].log;
    var n := |log|;
    hide Inv;
    InvAccel(s, a);
    forall k | 0 <= k < n ensures log'[k] == log[k] && TimesSame(HistAt(s, a, k), HistAt(s', a, k)) {
    }
    assert !HasStarted(HistAt(s', a, n));
    forall j, k | 0 <= k <= j < n + 1 && AheadOf(log', k, j) && HasStarted(HistAt(s', a, k))
      ensures log'[j].enqTick <= HistAt(s', a, k).startTick
    {
      if j == n {
        NotStarted(s, a, k);
      } else {
        assert AheadOf(log, k, j);
      }
    }
  }

  /** The step of worker b leaves every recorded time alone except of the task it holds. */
  lemma OnlyCurrentChanges(s: State, b: nat, a: nat, k: nat)
    requires Inv(s) && b < |s.workers| && (s.workers[b].pc.TestTimeout? || s.workers[b].pc.StampComplete?)
    requires a < |s.workers| && k < |s.workers[a].log| && LogShape(s, a)
    requires a != b || k != s.workers[a].retired
    ensures HistAt(WorkStep(s, b), a, k) == HistAt(s, a, k)
  {
    W.CurrentFacts(s, b);
    assert AccelOk(s, a);
    assert EntryOk(s, a, k);
  }

  lemma OthersKeepTimes(s: State, b: nat, a: nat)
    requires Inv(s) && b < |s.workers| && (s.workers[b].pc.TestTimeout? || s.workers[b].pc.StampComplete?)
    requires a < |s.workers| && a != b && TimeOk(s, a)
    ensures TimeOk(WorkStep(s, b), a)
  {
    var s' := WorkStep(s, b);
    forall k | 0 <= k < |s.workers[a].log| ensures HistAt(s', a, k) == HistAt(s, a, k) {
      OnlyCurrentChanges(s, b, a, k);
    }
  }

  /** Around the task a worker holds: what comes before has finished, what follows waits. */
  lemma AroundCurrent(s: State, a: nat, k: nat)
    requires Inv(s) && a < |s.workers| && s.workers[a].pc.Busy() && k < |s.workers[a].log| && LogShape(s, a)
    ensures k < s.workers[a].retired ==> HasFinished(HistAt(s, a, k)) && HistAt(s, a, k).doneTick <= s.now
    ensures k > s.workers[a].retired ==> !HasStarted(HistAt(s, a, k))
  {
    assert AccelOk(s, a);
    assert EntryOk(s, a, k);
    assert SlotOk(s, s.workers[a].log[k].slot);
  }

  lemma StartKeepsTimes(s: State, a: nat)
    requires Inv(s) && a < |s.workers| && s.workers[a].pc.TestTimeout? && TimeOk(s, a)
    ensures TimeOk(WorkStep(s, a), a)
  {
    var s' := WorkStep(s, a);
    var w := s.workers[a];
    W.CurrentFacts(s, a);
    forall k | 0 <= k < |w.log| ensures
      && (k != w.retired ==> HistAt(s', a, k) == HistAt(s, a, k))
      && (k == w.retired ==> !HasFinished(HistAt(s', a, k)) && HistAt(s', a, k).startTick == s.now)
      && (k < w.retired ==> HasFinished(HistAt(s, a, k)) && HistAt(s, a, k).doneTick <= s.now)
      && (k > w.retired ==> !HasStarted(HistAt(s, a, k)))
    {
      AroundCurrent(s, a, k);
      if k != w.retired {
        OnlyCurrentChanges(s, a, a, k);
      }
    }
    StartRecorded(s, s', a);
  }

  lemma StartRecorded(s: State, s': State, a: nat)
    requires TimeOk(s, a) && LogShape(s', a) && s'.workers[a].log == s.workers[a].log && s'.now == s.now
    requires s.workers[a].retired < |s.workers[a].log|
    requires forall k :: 0 <= k < |s.workers[a].log| ==>
      && (k != s.workers[a].retired ==> HistAt(s', a, k) == HistAt(s, a, k))
      && (k == s.workers[a].retired ==> !HasFinished(HistAt(s', a, k)) && HistAt(s', a, k).startTick == s.now)
      && (k < s.workers[a].retired ==> HasFinished(HistAt(s, a, k)) && HistAt(s, a, k).doneTick <= s.now)
      && (k > s.workers[a].retired ==> !HasStarted(HistAt(s, a, k)))
    ensures TimeOk(s', a)
  {
  }

  lemma FinishKeepsTimes(s: State, a: nat)
    requires Inv(s) && a < |s.workers| && s.workers[a].pc.StampComplete? && TimeOk(s, a)
    ensures TimeOk(WorkStep(s, a), a)
  {
    var s' := WorkStep(s, a);
    var w := s.workers[a];
    W.CurrentFacts(s, a);
    assert EntryOk(s, a, w.retired);
    forall k | 0 <= k < |w.log| ensures
      && (k != w.retired ==> HistAt(s', a, k) == HistAt(s, a, k))
      && (k > w.retired ==> !HasStarted(HistAt(s, a, k)))
    {
      AroundCurrent(s, a, k);
      if k != w.retired {
        OnlyCurrentChanges(s, a, a, k);
      }
    }
    FinishRecorded(s, s', a);
  }

  lemma FinishRecorded(s: State, s': State, a: nat)
    requires TimeOk(s, a) && LogShape(s', a) && s'.workers[a].log == s.workers[a].log && s'.now == s.now
    requires s.workers[a].retired < |s.workers[a].log|
    requires forall k :: 0 <= k < |s.workers[a].log| ==>
      && (k != s.workers[a].retired ==> HistAt(s', a, k) == HistAt(s, a, k))
      && (k > s.workers[a].retired ==> !HasStarted(HistAt(s, a, k)))
    requires var h, h' := HistAt(s, a, s.workers[a].retired), HistAt(s', a, s.workers[a].retired);
             && HasStarted(h) && h'.startTick == h.startTick
             && (h'.disturbed
                 || h'.startTick + MinRun(s.workers[a].log[s.workers[a].retired].timeoutMs) <= h'.doneTick)
    ensures TimeOk(s', a)
  {
  }

  lemma StepKeepsTimes(s: State, e: Event, a: nat)
    requires Inv(s) && Enabled(s, e) && a < |s.workers| && TimeOk(s, a)
    ensures TimeOk(Apply(s, e), a)
  {
    if e.Client? && s.clients[e.c].SEnqueue? {
      EnqueueKeepsTimes(s, e.c, s.clients[e.c].desc, s.clients[e.c].t, a);
    } else if e.Work? && (s.workers[e.a].pc.TestTimeout? || s.workers[e.a].pc.StampComplete?) {
      if e.a != a {
        OthersKeepTimes(s, e.a, a);
      } else if s.workers[a].pc.TestTimeout? {
        StartKeepsTimes(s, a);
      } else {
        FinishKeepsTimes(s, a);
      }
    } else {
      QuietStep(s, e, a);
      KeepTimes(s, Apply(s, e), a);
    }
  }

  lemma QuietStep(s: State, e: Event, a: nat)
    requires Inv(s) && Enabled(s, e) && a < |s.workers|
    requires e.Client? ==> !s.clients[e.c].SEnqueue?
    requires e.Work? ==> !s.workers[e.a].pc.TestTimeout? && !s.workers[e.a].pc.StampComplete?
    ensures var s' := Apply(s, e);
            && |s'.hist| == |s.hist| && |s'.workers| == |s.workers|
            && s'.workers[a].log == s.workers[a].log && s.now <= s'.now
            && forall i :: 0 <= i < |s.hist| ==> TimesSame(s.hist[i], s'.hist[i])
  {
    var s' := Apply(s, e);
    StepSizes(s, e);
    if e.Client? {
      F.ClientGrows(s, e.c, e.copied, a);
      forall i | 0 <= i < |s.hist| ensures TimesSame(s.hist[i], s'.hist[i]) {
        ClientTimes(s, e.c, e.copied, i);
      }
      assert s'.workers[a].log == s.workers[a].log by {
        QuietClient(s, e.c, e.copied);
      }
    } else if e.Work? {
      F.WorkGrows(s, e.a, a);
      forall i | 0 <= i < |s.hist| ensures TimesSame(s.hist[i], s'.hist[i]) {
        WorkTimes(s, e.a, i);
      }
    }
  }

  lemma QuietClient(s: State, c: nat, copied: bool)
    requires Inv(s) && Enabled(s, Client(c, copied)) && !s.clients[c].SEnqueue?
    ensures ClientStep(s, c, copied).workers == s.workers
  {
  }

  lemma InitTimes(s: State, a: nat)
    requires a < |s.workers| && s.workers[a].log == []
    ensures TimeOk(s, a)
  {
  }

  lemma {:induction false} RunTimes(ss: seq<State>, es: seq<Event>, j: nat, a: nat)
    requires DriverRun(ss, es) && j < |ss| && a < |ss[j].workers|
    ensures TimeOk(ss[j], a)
  {
    hide TimeOk, Inv, Apply, Enabled;
    DriverInv(ss, es);
    if j == 0 {
      InitTimes(ss[0], a);
    } else {
      assert Step(ss[j - 1], es[j - 1], ss[j]);
      SameSizes(ss, es, j - 1);
      SameSizes(ss, es, j);
      RunTimes(ss, es, j - 1, a);
      StepKeepsTimes(ss[j - 1], es[j - 1], a);
    }
  }

  // ---- The bound ----

  /** The least total run time of log entries lo..hi. */
  function RunSum(log: seq<Entry>, lo: nat, hi: nat): nat
    requires lo <= hi <= |log|
    decreases hi
  {
    if lo == hi then 0 else RunSum(log, lo, hi - 1) + MinRun(log[hi - 1].timeoutMs)
  }

  /** Entries lo..hi all ran undisturbed. */
  ghost predicate Undisturbed(s: State, a: nat, lo: nat, hi: nat)
    requires LogShape(s, a)
  {
    forall k :: lo <= k < hi && k < |s.workers[a].log| ==> !HistAt(s, a, k).disturbed
  }

  /** By induction along the queue: from the arrival of j, the entries waiting then take at
      least their run times one after the other. */
  lemma {:induction false} ChainTakesTime(s: State, a: nat, lo: nat, j: nat, k: nat)
    requires TimeOk(s, a) && lo <= k <= j < |s.workers[a].log| && AheadOf(s.workers[a].log, lo, j)
    requires HasFinished(HistAt(s, a, k)) && Undisturbed(s, a, lo, k + 1)
    ensures s.workers[a].log[j].enqTick + RunSum(s.workers[a].log, lo, k + 1) <= HistAt(s, a, k).doneTick
    decreases k
  {
    var log := s.workers[a].log;
    assert HasStarted(HistAt(s, a, k)) && !HistAt(s, a, k).disturbed;
    if k == lo {
      assert RunSum(log, lo, lo) == 0;
    } else {
      ChainTakesTime(s, a, lo, j, k - 1);
    }
  }

  /** The same total in milliseconds, before any rounding to ticks. */
  function MsSum(log: seq<Entry>, lo: nat, hi: nat): nat
    requires lo <= hi <= |log|
    decreases hi
  {
    if lo == hi then 0 else MsSum(log, lo, hi - 1) + RunMs(log[hi - 1].timeoutMs)
  }

  lemma {:induction false} SumInMilliseconds(log: seq<Entry>, lo: nat, hi: nat)
    requires lo <= hi <= |log|
    ensures 1000 * RunSum(log, lo, hi) >= MsSum(log, lo, hi) * HZ
    decreases hi
  {
    hide MinRun, RunMs;
    if lo < hi {
      var ms := log[hi - 1].timeoutMs;
      SumInMilliseconds(log, lo, hi - 1);
      RunInMilliseconds(ms);
      AddMilliseconds(RunSum(log, lo, hi - 1), MinRun(ms), MsSum(log, lo, hi - 1), RunMs(ms));
    }
  }

  lemma RunInMilliseconds(ms: Word32)
    ensures 1000 * MinRun(ms) >= RunMs(ms) * HZ
  {
    MinRunIsMilliseconds(ms);
  }

  /** A task appended behind others completes no earlier than its enqueue tick plus the least run
      times of everything that was queued before it and of itself: in milliseconds, the timeout of
      each, or 10 where there is none. */
  lemma SerialExecutionBound(ss: seq<State>, es: seq<Event>, i: nat, a: nat, j: nat)
    requires DriverRun(ss, es) && i < |ss| && a < |ss[i].workers| && j < |ss[i].workers[a].log|
    ensures LogShape(ss[i], a) && ss[i].workers[a].log[j].ahead <= j
    ensures var log := ss[i].workers[a].log;
            var first, ms := j - log[j].ahead, log[j].timeoutMs;
            HasFinished(HistAt(ss[i], a, j)) && Undisturbed(ss[i], a, first, j + 1) ==>
              var ticks := HistAt(ss[i], a, j).doneTick - log[j].enqTick;
              && ticks >= RunSum(log, first, j + 1)
              && 1000 * ticks >= MsSum(log, first, j + 1) * HZ
              && 1000 * (HistAt(ss[i], a, j).doneTick - HistAt(ss[i], a, j).startTick) >= (if ms > 0 then ms else 10) * HZ
  {
    RunTimes(ss, es, i, a);
    var log := ss[i].workers[a].log;
    var first := j - log[j].ahead;
    if HasFinished(HistAt(ss[i], a, j)) && Undisturbed(ss[i], a, first, j + 1) {
      ChainTakesTime(ss[i], a, first, j, j);
      SumInMilliseconds(log, first, j + 1);
      MinRunIsMilliseconds(log[j].timeoutMs);
    }
  }

  /** What the log records at an enqueue: the tasks it calls "ahead" are the queue at that moment. */
  lemma AheadIsTheQueue(s: State, c: nat, d: Desc, t: nat)
    requires Inv(s) && c < |s.clients| && s.clients[c] == SEnqueue(d, t)
    ensures d.accelType < |s.workers| && t < |s.hist|
    ensures var w := s.workers[d.accelType];
            var n, ahead := |w.log|, |s.mem.accels[d.accelType].queue|;
            && EnqueueStep(s, c, d, t).workers[d.accelType].log
               == w.log + [Entry(t, s.mem.tasks[t].timeoutMs, s.now, ahead)]
            && ahead <= n
            && s.mem.accels[d.accelType].queue == SlotsOf(w.log)[n - ahead..]
  {
    assert ClientShape(s, s.clients[c]);
    assert AccelOk(s, d.accelType);
  }

  /** A task is disturbed only by a cancel that writes while it runs, or by a stop request. */
  lemma DisturbedOnlyByCancelOrStop(s: State, e: Event, i: nat)
    requires Inv(s) && Enabled(s, e) && i < |s.hist|
    ensures |Apply(s, e).hist| == |s.hist|
    ensures !s.hist[i].disturbed && Apply(s, e).hist[i].disturbed ==>
              || (e.Client? && s.clients[e.c].CMark? && s.clients[e.c].t == i
                  && (s.mem.tasks[i].state == Running || s.mem.tasks[i].state == Cancelled))
              || (e.Work? && s.workers[e.a].pc.CheckStop? && s.workers[e.a].pc.t == i && s.workers[e.a].stop)
  {
    hide Inv;
    InvSlot(s, i);
    if e.Client? {
      CancelDisturbs(s, e.c, e.copied, i);
    } else if e.Work? {
      StopDisturbs(s, e.a, i);
    }
  }

  lemma CancelDisturbs(s: State, c: nat, copied: bool, i: nat)
    requires Inv(s) && Enabled(s, Client(c, copied)) && i < |s.hist|
    ensures |ClientStep(s, c, copied).hist| == |s.hist|
    ensures !s.hist[i].disturbed && ClientStep(s, c, copied).hist[i].disturbed ==>
              s.clients[c].CMark? && s.clients[c].t == i && s.mem.tasks[i].state in {Running, Cancelled}
  {
    hide Inv;
    InvSlot(s, i);
    InvClient(s, c);
  }

  lemma StopDisturbs(s: State, a: nat, i: nat)
    requires Inv(s) && Enabled(s, Work(a)) && i < |s.hist|
    ensures |WorkStep(s, a).hist| == |s.hist|
    ensures !s.hist[i].disturbed && WorkStep(s, a).hist[i].disturbed ==>
              s.workers[a].pc.CheckStop? && s.workers[a].pc.t == i && s.workers[a].stop
  {
    hide Inv;
    InvAccel(s, a);
  }
}
