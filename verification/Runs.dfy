/** The invariant holds in every state of every run, so it holds of the running driver. */
module Runs {
  import opened Types
  import opened Memory
  import opened Steps
  import opened Invariant
  import C = ClientPreservation
  import W = WorkerPreservation

  lemma StepInv(s: State, e: Event)
    requires Inv(s) && Enabled(s, e)
    ensures Inv(Apply(s, e))
  {
    match e
    case Tick(d) => W.KeepTick(s, d);
    case Begin(c, r, copied) => C.KeepBegin(s, c, r, copied);
    case Client(c, copied) => C.KeepClient(s, c, copied);
    case Return(c) => C.KeepReturn(s, c);
    case Work(a) => W.KeepWork(s, a);
    case ClearRunning(_) => W.KeepStop(s, e);
    case RequestStop(_) => W.KeepStop(s, e);
  }

  /** No step creates or destroys a slot, an accelerator or a caller. */
  lemma StepSizes(s: State, e: Event)
    requires Inv(s) && Enabled(s, e)
    ensures var s' := Apply(s, e);
            && |s'.hist| == |s.hist|
            && |s'.mem.tasks| == |s.mem.tasks|
            && |s'.workers| == |s.workers|
            && |s'.clients| == |s.clients|
  {
    StepInv(s, e);
    if e.Client? {
      ClientSizes(s, e.c, e.copied);
    }
  }

  lemma ClientSizes(s: State, c: nat, copied: bool)
    requires Inv(s) && Enabled(s, Client(c, copied))
    ensures var s' := ClientStep(s, c, copied);
            && |s'.hist| == |s.hist|
            && |s'.mem.tasks| == |s.mem.tasks|
            && |s'.workers| == |s.workers|
            && |s'.clients| == |s.clients|
  {
    hide Inv, ClientOk;
    InvClient(s, c);
  }

  lemma {:induction false} RunInv(ss: seq<State>, es: seq<Event>)
    requires Run(ss, es) && Inv(ss[0])
    ensures forall i :: 0 <= i < |ss| ==> Inv(ss[i])
    decreases |es|
  {
    if es != [] {
      var n := |es| - 1;
      assert Run(ss[..n + 1], es[..n]);
      RunInv(ss[..n + 1], es[..n]);
      assert Step(ss[n], es[n], ss[n + 1]) && ss[..n + 1][n] == ss[n];
      StepInv(ss[n], es[n]);
    }
  }

  lemma {:induction false} SameSizes(ss: seq<State>, es: seq<Event>, j: nat)
    requires Run(ss, es) && Inv(ss[0]) && j < |ss|
    ensures |ss[j].hist| == |ss[0].hist|
    ensures |ss[j].mem.tasks| == |ss[0].mem.tasks|
    ensures |ss[j].workers| == |ss[0].workers|
    ensures |ss[j].clients| == |ss[0].clients|
  {
    hide Inv;
    if j > 0 {
      RunInv(ss, es);
      SameSizes(ss, es, j - 1);
      assert Step(ss[j - 1], es[j - 1], ss[j]);
      StepSizes(ss[j - 1], es[j - 1]);
    }
  }

  /** A run of a freshly probed driver with any number of slots, accelerators and callers. */
  ghost predicate DriverRun(ss: seq<State>, es: seq<Event>) {
    && Run(ss, es)
    && |ss[0].mem.tasks| < U32
    && ss[0] == Init(|ss[0].mem.tasks|, |ss[0].workers|, |ss[0].clients|, ss[0].boot)
  }

  lemma DriverInv(ss: seq<State>, es: seq<Event>)
    requires DriverRun(ss, es)
    ensures forall i :: 0 <= i < |ss| ==> Inv(ss[i])
  {
    InitInv(|ss[0].mem.tasks|, |ss[0].workers|, |ss[0].clients|, ss[0].boot);
    RunInv(ss, es);
  }

  /** No step is ever held back by an array bound: whatever is enabled can be taken. */
  lemma NeverStuck(ss: seq<State>, es: seq<Event>, e: Event)
    requires DriverRun(ss, es) && Enabled(ss[|es|], e)
    ensures Inv(ss[|es|]) && DriverRun(ss + [Apply(ss[|es|], e)], es + [e])
  {
    DriverInv(ss, es);
    var ss', es' := ss + [Apply(ss[|es|], e)], es + [e];
    forall i | 0 <= i < |es'| ensures Step(ss'[i], es'[i], ss'[i + 1]) {
      if i < |es| {
        assert ss'[i] == ss[i] && ss'[i + 1] == ss[i + 1];
        assert Step(ss[i], es[i], ss[i + 1]);
      }
    }
  }
}
