/** Where slots are: every slot is in exactly one place, the counts add up to the pool size,
    and every list operation of the driver is applied to a node in the right list. */
module Placement {
  import opened Types
  import opened Memory
  import opened Steps
  import opened Invariant
  import opened Runs
  import F = Fifo
  import W = WorkerPreservation

  datatype Place =
    | OnFreeList
    | HeldByCaller(c: nat)
    | OnQueue(a: nat)
    | OnActive(a: nat)
    | RetiredFrom(a: nat)

  /** The caller has taken the slot off the free list and not yet queued it. */
  predicate Holds(pc: ClientPc, t: nat) {
    (pc.SFill? || pc.SCheckType? || pc.SPublish? || pc.SStamp? || pc.SEnqueue? || pc.SUndo?) && pc.t == t
  }

  ghost predicate WasRetired(w: Worker, t: nat) {
    w.retired <= |w.log| && exists k :: 0 <= k < w.retired && w.log[k].slot == t
  }

  ghost predicate At(s: State, t: nat, p: Place)
    requires Shape(s)
  {
    match p
    case OnFreeList => t in s.mem.free
    case HeldByCaller(c) => c < |s.clients| && Holds(s.clients[c], t)
    case OnQueue(a) => a < |s.workers| && t in s.mem.accels[a].queue
    case OnActive(a) => a < |s.workers| && t in s.mem.accels[a].active
    case RetiredFrom(a) => a < |s.workers| && WasRetired(s.workers[a], t)
  }

  ghost function PlaceOf(p: Phase): Place {
    if p.Unused? then OnFreeList
    else if p.Owned() then HeldByCaller(p.c)
    else if p.Queued? then OnQueue(p.a)
    else if p.Retired? then RetiredFrom(p.a)
    else OnActive(p.a)
  }

  lemma QueuedPhase(s: State, t: nat, a: nat)
    requires Inv(s) && t < |s.hist| && a < |s.workers| && t in s.mem.accels[a].queue
    ensures s.hist[t].phase.Queued? && s.hist[t].phase.a == a
  {
    assert AccelOk(s, a);
    var i :| 0 <= i < |s.mem.accels[a].queue| && s.mem.accels[a].queue[i] == t;
    assert EntryOk(s, a, s.workers[a].retired + ActiveCount(s.workers[a].pc) + i);
  }

  lemma ActivePhase(s: State, t: nat, a: nat)
    requires Inv(s) && t < |s.hist| && a < |s.workers| && t in s.mem.accels[a].active
    ensures PlaceOf(s.hist[t].phase) == OnActive(a)
  {
    assert AccelOk(s, a);
    assert EntryOk(s, a, s.workers[a].retired);
  }

  lemma RetiredPhase(s: State, t: nat, a: nat)
    requires Inv(s) && t < |s.hist| && a < |s.workers| && WasRetired(s.workers[a], t)
    ensures s.hist[t].phase.Retired? && s.hist[t].phase.a == a
  {
    assert AccelOk(s, a);
    var k :| 0 <= k < s.workers[a].retired && s.workers[a].log[k].slot == t;
    assert EntryOk(s, a, k);
  }

  lemma AtMeansPhase(s: State, t: nat, p: Place)
    requires Inv(s) && t < |s.hist| && At(s, t, p)
    ensures p == PlaceOf(s.hist[t].phase)
  {
    match p
    case OnFreeList => assert SlotOk(s, t);
    case HeldByCaller(c) => assert ClientOk(s, c, s.clients[c]);
    case OnQueue(a) => QueuedPhase(s, t, a);
    case OnActive(a) => ActivePhase(s, t, a);
    case RetiredFrom(a) => RetiredPhase(s, t, a);
  }

  lemma PhaseMeansAt(s: State, t: nat)
    requires Inv(s) && t < |s.hist|
    ensures At(s, t, PlaceOf(s.hist[t].phase))
  {
    assert SlotOk(s, t);
    var p := s.hist[t].phase;
    if p.Unused? {
      assert s.mem.free[t - s.mem.nextId] == t;
    } else if p.Logged() {
      var w, m := s.workers[p.a], s.mem.accels[p.a];
      assert AccelOk(s, p.a);
      assert EntryOk(s, p.a, p.k);
      var first := w.retired + ActiveCount(w.pc);
      if p.k >= first {
        assert m.queue[p.k - first] == t;
      } else if p.k == w.retired {
        assert m.active[0] == t;
      }
    }
  }

  /** In every reachable state each slot is in one place and in no other. */
  lemma ExactlyOnePlace(ss: seq<State>, es: seq<Event>, j: nat, t: nat)
    requires DriverRun(ss, es) && j < |ss| && t < |ss[j].hist|
    ensures Inv(ss[j])
    ensures exists p :: At(ss[j], t, p) && forall q :: At(ss[j], t, q) ==> q == p
  {
    DriverInv(ss, es);
    PhaseMeansAt(ss[j], t);
    forall q | At(ss[j], t, q) ensures q == PlaceOf(ss[j].hist[t].phase) {
      AtMeansPhase(ss[j], t, q);
    }
  }

  lemma ListsDistinct(s: State, a: nat)
    requires Inv(s) && a < |s.workers|
    ensures Distinct(s.mem.free)
    ensures Distinct(s.mem.accels[a].queue) && Distinct(s.mem.accels[a].active)
    ensures Distinct(SlotsOf(s.workers[a].log))
  {
    assert AccelOk(s, a);
    var log := s.workers[a].log;
    forall i, j | 0 <= i < j < |log| ensures SlotsOf(log)[i] != SlotsOf(log)[j] {
      W.LogDistinct(s, a, i, j);
    }
  }

  // ---- The list operations of the driver ----

  /** No list contains the node. */
  ghost predicate Detached(s: State, t: nat)
    requires Shape(s)
  {
    && t !in s.mem.free
    && forall a :: 0 <= a < |s.workers| ==> t !in s.mem.accels[a].queue && t !in s.mem.accels[a].active
  }

  /** list_add_tail is only ever given a detached node; list_del is only ever given the node
      it expects, on the list it expects; task_free is never reached. */
  lemma ListOperationsLegal(ss: seq<State>, es: seq<Event>, j: nat)
    requires DriverRun(ss, es) && j < |ss|
    ensures Inv(ss[j])
    ensures forall c :: 0 <= c < |ss[j].clients| ==> var pc := ss[j].clients[c];
              !pc.SUndo? && (pc.SEnqueue? ==> Detached(ss[j], pc.t))
    ensures forall a :: 0 <= a < |ss[j].workers| ==> var pc := ss[j].workers[a].pc;
              && (pc.Busy() ==> ss[j].mem.accels[a].active == [pc.t])
              && (pc.Take? && ss[j].mem.accels[a].queue != [] ==> OnlyHead(ss[j], a))
  {
    DriverInv(ss, es);
    var s := ss[j];
    forall c | 0 <= c < |s.clients| && s.clients[c].SEnqueue? ensures Detached(s, s.clients[c].t) {
      var t := s.clients[c].t;
      assert ClientShape(s, s.clients[c]) && ClientOk(s, c, s.clients[c]);
      OnlyPlace(s, t);
      assert !At(s, t, OnFreeList);
      forall a | 0 <= a < |s.workers| ensures t !in s.mem.accels[a].queue && t !in s.mem.accels[a].active {
        assert !At(s, t, OnQueue(a)) && !At(s, t, OnActive(a));
      }
    }
    forall c | 0 <= c < |s.clients| ensures !s.clients[c].SUndo? {
      assert ClientOk(s, c, s.clients[c]);
    }
    forall a | 0 <= a < |s.workers| && s.workers[a].pc.Busy()
      ensures s.mem.accels[a].active == [s.workers[a].pc.t]
    {
      assert AccelOk(s, a);
    }
    forall a | 0 <= a < |s.workers| && s.workers[a].pc.Take? && s.mem.accels[a].queue != [] ensures OnlyHead(s, a) {
      HeadIsAlone(s, a);
    }
  }

  /** The head of the queue is nowhere else in it, and on no other list, its own active list,
      which is empty, included: moving it there is one legal list_del and one legal list_add_tail. */
  ghost predicate OnlyHead(s: State, a: nat)
    requires Shape(s) && a < |s.workers| && s.mem.accels[a].queue != []
  {
    var queue := s.mem.accels[a].queue;
    && s.mem.accels[a].active == []
    && queue[0] !in s.mem.free && queue[0] !in queue[1..]
    && forall b :: 0 <= b < |s.workers| ==>
         queue[0] !in s.mem.accels[b].active && (b != a ==> queue[0] !in s.mem.accels[b].queue)
  }

  lemma HeadIsAlone(s: State, a: nat)
    requires Inv(s) && a < |s.workers| && s.workers[a].pc.Take? && s.mem.accels[a].queue != []
    ensures OnlyHead(s, a)
  {
    hide Inv;
    InvAccel(s, a);
    var t := s.mem.accels[a].queue[0];
    ListsDistinct(s, a);
    QueuedPhase(s, t, a);
    OnlyPlace(s, t);
    assert !At(s, t, OnFreeList);
    forall b | 0 <= b < |s.workers|
      ensures t !in s.mem.accels[b].active && (b != a ==> t !in s.mem.accels[b].queue)
    {
      assert !At(s, t, OnActive(b)) && (b != a ==> !At(s, t, OnQueue(b)));
    }
  }

  lemma OnlyPlace(s: State, t: nat)
    requires Inv(s) && t < |s.hist|
    ensures forall p :: At(s, t, p) <==> p == PlaceOf(s.hist[t].phase)
  {
    PhaseMeansAt(s, t);
    forall p | At(s, t, p) ensures p == PlaceOf(s.hist[t].phase) {
      AtMeansPhase(s, t, p);
    }
  }

  // ---- Conservation ----

  function Held(pcs: seq<ClientPc>): nat {
    if pcs == [] then 0
    else Held(pcs[..|pcs| - 1]) + HeldHere(pcs[|pcs| - 1])
  }

  function HeldHere(pc: ClientPc): nat {
    if pc.SFill? || pc.SCheckType? || pc.SPublish? || pc.SStamp? || pc.SEnqueue? || pc.SUndo? then 1 else 0
  }

  lemma {:induction false} HeldUpdate(pcs: seq<ClientPc>, c: nat, pc: ClientPc)
    requires c < |pcs|
    ensures Held(pcs[c := pc]) == Held(pcs) - HeldHere(pcs[c]) + HeldHere(pc)
  {
    var n := |pcs| - 1;
    if c < n {
      assert pcs[c := pc][..n] == pcs[..n][c := pc];
      HeldUpdate(pcs[..n], c, pc);
    } else {
      assert pcs[c := pc][..n] == pcs[..n];
    }
  }

  function Logged(ws: seq<Worker>): nat {
    if ws == [] then 0
    else Logged(ws[..|ws| - 1]) + |ws[|ws| - 1].log|
  }

  lemma {:induction false} LoggedUpdate(ws: seq<Worker>, a: nat, w: Worker)
    requires a < |ws|
    ensures Logged(ws[a := w]) == Logged(ws) - |ws[a].log| + |w.log|
  {
    var n := |ws| - 1;
    if a < n {
      assert ws[a := w][..n] == ws[..n][a := w];
      LoggedUpdate(ws[..n], a, w);
    } else {
      assert ws[a := w][..n] == ws[..n];
    }
  }

  function Listed(ms: seq<AccelMem>): nat {
    if ms == [] then 0
    else Listed(ms[..|ms| - 1]) + |ms[|ms| - 1].queue| + |ms[|ms| - 1].active|
  }

  function RetiredTotal(ws: seq<Worker>): nat {
    if ws == [] then 0
    else RetiredTotal(ws[..|ws| - 1]) + ws[|ws| - 1].retired
  }

  lemma {:induction false} LoggedSplits(s: State, n: nat)
    requires Inv(s) && n <= |s.workers|
    ensures Logged(s.workers[..n]) == Listed(s.mem.accels[..n]) + RetiredTotal(s.workers[..n])
  {
    if n > 0 {
      LoggedSplits(s, n - 1);
      assert AccelOk(s, n - 1);
      assert s.workers[..n][..n - 1] == s.workers[..n - 1];
      assert s.mem.accels[..n][..n - 1] == s.mem.accels[..n - 1];
    }
  }

  function Stock(s: State): nat {
    |s.mem.free| + Held(s.clients) + Logged(s.workers)
  }

  lemma SubmitConserves(s: State, c: nat, copied: bool)
    requires Inv(s) && c < |s.clients| && s.clients[c].InSubmit()
    ensures Stock(SubmitStep(s, c, copied)) == Stock(s)
  {
    var s' := SubmitStep(s, c, copied);
    assert ClientOk(s, c, s.clients[c]) && ClientShape(s, s.clients[c]);
    HeldUpdate(s.clients, c, s'.clients[c]);
    if s.clients[c].SEnqueue? {
      var a := s.clients[c].desc.accelType;
      LoggedUpdate(s.workers, a, s'.workers[a]);
    }
  }

  lemma ScanConserves(s: State, c: nat, copied: bool)
    requires Inv(s) && c < |s.clients| && s.clients[c].InScan()
    ensures Stock(ScanStep(s, c, copied)) == Stock(s)
  {
    HeldUpdate(s.clients, c, ScanStep(s, c, copied).clients[c]);
  }

  lemma WorkConserves(s: State, a: nat)
    requires Inv(s) && Enabled(s, Work(a))
    ensures Stock(WorkStep(s, a)) == Stock(s)
  {
    hide Inv;
    InvShape(s);
    F.WorkGrows(s, a, a);
    LoggedUpdate(s.workers, a, WorkStep(s, a).workers[a]);
    WorkLeavesPool(s, a);
  }

  lemma WorkLeavesPool(s: State, a: nat)
    requires Inv(s) && Enabled(s, Work(a))
    ensures WorkStep(s, a).mem.free == s.mem.free && WorkStep(s, a).clients == s.clients
  {
    hide Inv;
    InvAccel(s, a);
  }

  lemma StepConserves(s: State, e: Event)
    requires Inv(s) && Enabled(s, e)
    ensures Stock(Apply(s, e)) == Stock(s)
  {
    var s' := Apply(s, e);
    match e
    case Tick(_) =>
    case Begin(c, r, copied) => HeldUpdate(s.clients, c, FirstPc(s, r, copied));
    case Return(c) => HeldUpdate(s.clients, c, Idle);
    case Client(c, copied) =>
      if s.clients[c].InSubmit() {
        SubmitConserves(s, c, copied);
      } else if s.clients[c].InScan() {
        ScanConserves(s, c, copied);
      } else {
        assert ClientShape(s, s.clients[c]);
        HeldUpdate(s.clients, c, s'.clients[c]);
      }
    case Work(a) => WorkConserves(s, a);
    case ClearRunning(a) => LoggedUpdate(s.workers, a, s'.workers[a]);
    case RequestStop(a) => LoggedUpdate(s.workers, a, s'.workers[a]);
  }

  lemma {:induction false} RunConserves(ss: seq<State>, es: seq<Event>, j: nat)
    requires Run(ss, es) && Inv(ss[0]) && j < |ss|
    ensures Stock(ss[j]) == Stock(ss[0])
  {
    if j > 0 {
      RunConserves(ss, es, j - 1);
      RunInv(ss, es);
      assert Step(ss[j - 1], es[j - 1], ss[j]);
      StepConserves(ss[j - 1], es[j - 1]);
    }
  }

  lemma {:induction false} NothingHeld(pcs: seq<ClientPc>)
    requires forall c :: 0 <= c < |pcs| ==> pcs[c].Idle?
    ensures Held(pcs) == 0
  {
    if pcs != [] {
      NothingHeld(pcs[..|pcs| - 1]);
    }
  }

  lemma {:induction false} NothingLogged(ws: seq<Worker>)
    requires forall a :: 0 <= a < |ws| ==> ws[a].log == []
    ensures Logged(ws) == 0
  {
    if ws != [] {
      NothingLogged(ws[..|ws| - 1]);
    }
  }

  /** Free, held, queued, active and retired slots always add up to the whole pool, and what is
      missing from the free list is the number of IDs ever issued. */
  lemma PoolConserved(ss: seq<State>, es: seq<Event>, j: nat)
    requires DriverRun(ss, es) && j < |ss|
    ensures var s := ss[j];
            && |s.mem.free| + Held(s.clients) + Listed(s.mem.accels) + RetiredTotal(s.workers) == |s.mem.tasks|
            && |s.mem.free| + s.mem.nextId == |s.mem.tasks|
  {
    DriverInv(ss, es);
    RunConserves(ss, es, j);
    SameSizes(ss, es, j);
    NothingHeld(ss[0].clients);
    NothingLogged(ss[0].workers);
    var s := ss[j];
    LoggedSplits(s, |s.workers|);
    assert s.workers[..|s.workers|] == s.workers && s.mem.accels[..|s.workers|] == s.mem.accels;
  }

  /** A submit fails with -ENOMEM exactly when every slot has been issued; with N slots, at most
      N tasks are ever queued, over all accelerators together. */
  lemma CapacityIsFinal(ss: seq<State>, es: seq<Event>, j: nat, c: nat, d: Desc)
    requires DriverRun(ss, es) && j < |ss| && c < |ss[j].clients| && ss[j].clients[c] == SAlloc(d)
    ensures Inv(ss[j])
    ensures AllocStep(ss[j], c, d).clients[c] == Done(SubmitTask(d), Error(-ENOMEM))
            <==> ss[j].mem.nextId == |ss[0].mem.tasks|
    ensures Logged(ss[j].workers) <= |ss[0].mem.tasks|
  {
    DriverInv(ss, es);
    RunConserves(ss, es, j);
    SameSizes(ss, es, j);
    NothingHeld(ss[0].clients);
    NothingLogged(ss[0].workers);
  }
}
