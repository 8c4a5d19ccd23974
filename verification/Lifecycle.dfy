/** Starting and stopping: accel_start_workers, accel_stop_workers, probe and remove, with any
    number of workers and a failure at any point. */
module Lifecycle {
  import opened Types
  import opened Abstract

  /** A worker_thread pointer: NULL, an ERR_PTR, or what kthread_run returned on success. The last
      says that the thread was started, not that its function is still running. */
  datatype Thread = NoThread | ErrorPointer(code: int) | Started

  datatype Resource = Region | CharDevice | DeviceNode

  datatype Op =
    | Spawn(i: nat)
    | Kill(i: nat)
    | Acquire(r: Resource)
    | Release(r: Resource)

  // ---- What a trace of acquisitions and releases leaves held ----

  datatype Holding = Holding(threads: set<nat>, stack: seq<Resource>)

  const NOTHING := Holding({}, [])

  /** Threads are started first and stopped last; everything else is a stack. Starting or
      taking something already held, and releasing anything but the newest, is an error. */
  function Do(h: Holding, op: Op): Option<Holding> {
    match op
    case Spawn(i) => if i !in h.threads && h.stack == [] then Some(h.(threads := h.threads + {i})) else None
    case Kill(i) => if i in h.threads && h.stack == [] then Some(h.(threads := h.threads - {i})) else None
    case Acquire(r) => if r !in h.stack then Some(h.(stack := h.stack + [r])) else None
    case Release(r) =>
      if h.stack != [] && h.stack[|h.stack| - 1] == r then Some(h.(stack := h.stack[..|h.stack| - 1])) else None
  }

  function Replay(ops: seq<Op>): Option<Holding> {
    if ops == [] then Some(NOTHING)
    else match Replay(ops[..|ops| - 1])
      case None => None
      case Some(h) => Do(h, ops[|ops| - 1])
  }

  function Below(n: nat): (s: set<nat>)
    ensures forall i :: i in s <==> 0 <= i < n
  {
    if n == 0 then {} else Below(n - 1) + {n - 1}
  }

  /** kthread_run's outcomes, one per worker: 0, or a negative error. */
  ghost predicate Outcomes(s: seq<int>) {
    forall i :: 0 <= i < |s| ==> s[i] <= 0
  }

  function Spawns(n: nat): seq<Op> {
    seq(n, i requires 0 <= i < n => Spawn(i))
  }

  function Kills(n: nat): seq<Op> {
    seq(n, i requires 0 <= i < n => Kill(i))
  }

  /** One kthread_stop for each pointer that is not NULL, in array order. */
  function StopOps(threads: seq<Thread>): seq<Op> {
    if threads == [] then []
    else
      var n := |threads| - 1;
      StopOps(threads[..n]) + if threads[n].NoThread? then [] else [Kill(n)]
  }

  lemma NothingToStop()
    ensures StopOps([]) == []
  {
  }

  lemma StopOpsStep(threads: seq<Thread>, i: nat)
    requires i < |threads|
    ensures StopOps(threads[..i + 1]) == StopOps(threads[..i]) + if threads[i].NoThread? then [] else [Kill(i)]
  {
    assert threads[..i + 1][..i] == threads[..i];
  }

  lemma {:induction false} AllStopped(threads: seq<Thread>)
    requires forall i :: 0 <= i < |threads| ==> threads[i].Started?
    ensures StopOps(threads) == Kills(|threads|)
  {
    if threads != [] {
      AllStopped(threads[..|threads| - 1]);
    }
  }

  function FirstFailure(s: seq<int>, i: nat): (f: nat)
    requires i <= |s|
    ensures i <= f <= |s| && (forall k :: i <= k < f ==> s[k] == 0) && (f < |s| ==> s[f] != 0)
    decreases |s| - i
  {
    if i == |s| || s[i] != 0 then i else FirstFailure(s, i + 1)
  }

  /** What the hardware and the kernel answer to each request of probe. */
  datatype Answers = Answers(
    memory: bool, mmio: int, clocks: int, reset: int, irq: int,
    spawn: seq<int>, region: int, cdev: int, node: int)

  /** The error of the first request that failed, in the order probe makes them. */
  function ProbeError(x: Answers): int {
    if !x.memory then -ENOMEM
    else if x.mmio != 0 then x.mmio
    else if x.clocks < 0 then x.clocks
    else if x.reset != 0 then x.reset
    else if x.irq < 0 then x.irq
    else if FirstFailure(x.spawn, 0) < |x.spawn| then x.spawn[FirstFailure(x.spawn, 0)]
    else if x.region != 0 then x.region
    else if x.cdev != 0 then x.cdev
    else x.node
  }

  /** The device got as far as starting its workers. */
  predicate Equipped(x: Answers) {
    x.memory && x.mmio == 0 && x.clocks >= 0 && x.reset == 0 && x.irq >= 0
  }

  /** What remove does. */
  function RemoveTrace(n: nat): seq<Op> {
    [Release(DeviceNode), Release(CharDevice), Release(Region)] + Kills(n)
  }

  /** With the region held: the character device and its node, or the undo, the region included. */
  function DeviceTrace(x: Answers): seq<Op> {
    if x.cdev != 0 then [Release(Region)]
    else if x.node != 0 then [Acquire(CharDevice), Release(CharDevice), Release(Region)]
    else [Acquire(CharDevice), Acquire(DeviceNode)]
  }

  /** What probe does once n workers run, up to its return. */
  function RegisterTrace(x: Answers, n: nat): seq<Op> {
    (if x.region != 0 then [] else [Acquire(Region)] + DeviceTrace(x))
    + if x.region == 0 && x.cdev == 0 && x.node == 0 then [] else Kills(n)
  }

  /** Every start, stop, acquisition and release of probe, in order. */
  function ProbeTrace(x: Answers): seq<Op> {
    var f := FirstFailure(x.spawn, 0);
    if !Equipped(x) then []
    else Spawns(f) + if f < |x.spawn| then Kills(f) else RegisterTrace(x, f)
  }

  lemma RegisterCases(x: Answers, n: nat)
    ensures x.region != 0 ==> RegisterTrace(x, n) == Kills(n)
    ensures x.region == 0 && x.cdev != 0 ==> RegisterTrace(x, n) == [Acquire(Region), Release(Region)] + Kills(n)
    ensures x.region == 0 && x.cdev == 0 && x.node != 0 ==>
              RegisterTrace(x, n) == [Acquire(Region), Acquire(CharDevice), Release(CharDevice), Release(Region)] + Kills(n)
    ensures x.region == 0 && x.cdev == 0 && x.node == 0 ==>
              RegisterTrace(x, n) == [Acquire(Region), Acquire(CharDevice), Acquire(DeviceNode)]
  {
  }

  class Board {
    const threads: array<Thread>
    const running: array<bool>
    ghost var trace: seq<Op>

    ghost predicate Valid()
      reads this
    {
      threads.Length == running.Length && Replay(trace).Some?
    }

    ghost function Held(): Holding
      reads this
      requires Valid()
    {
      Replay(trace).value
    }

    /** A zeroed device whose accelerators have been through accel_init. */
    constructor (workers: nat)
      ensures Valid() && fresh(threads) && fresh(running) && threads.Length == workers && trace == []
      ensures forall i :: 0 <= i < workers ==> threads[i] == NoThread && running[i]
    {
      threads := new Thread[workers](i => NoThread);
      running := new bool[workers](i => true);
      trace := [];
    }

    ghost method Record(op: Op)
      requires Valid() && Do(Held(), op).Some?
      modifies this`trace
      ensures Valid() && trace == old(trace) + [op] && Held() == Do(old(Held()), op).value
    {
      trace := trace + [op];
      assert trace[..|trace| - 1] == old(trace);
    }

    ghost method Take(r: Resource)
      requires Valid() && r !in Held().stack
      modifies this`trace
      ensures Valid() && Held() == Holding(old(Held()).threads, old(Held()).stack + [r])
      ensures trace == old(trace) + [Acquire(r)]
    {
      Record(Acquire(r));
    }

    /** Only the newest resource can be given back. */
    ghost method GiveBack(r: Resource)
      requires Valid() && Held().stack != [] && Held().stack[|Held().stack| - 1] == r
      modifies this`trace
      ensures Valid() && Held() == Holding(old(Held()).threads, old(Held()).stack[..|old(Held()).stack| - 1])
      ensures trace == old(trace) + [Release(r)]
    {
      Record(Release(r));
    }

    /** What a kthread_run that succeeds adds to the trace. */
    ghost method Begin(i: nat)
      requires Valid() && i !in Held().threads && Held().stack == []
      modifies this`trace
      ensures Valid() && Held() == Holding(old(Held()).threads + {i}, [])
      ensures trace == old(trace) + [Spawn(i)]
    {
      Record(Spawn(i));
    }

    /** kthread_stop: the argument is a pointer kthread_run returned, never NULL and never an
        error pointer, and `running` was cleared before. Nothing makes sure that the thread has
        not returned by then: module Stopping has the run and the exact condition. */
    method KthreadStop(i: nat)
      requires Valid() && i < threads.Length && threads[i].Started? && !running[i]
      requires i in Held().threads && Held().stack == []
      modifies this`trace
      ensures Valid() && Held() == Holding(old(Held()).threads - {i}, [])
      ensures trace == old(trace) + [Kill(i)]
    {
      Record(Kill(i));
    }

    /** accel_stop_workers over the first num entries. */
    method StopWorkers(num: nat)
      requires Valid() && num <= threads.Length && Held().stack == []
      requires forall i :: 0 <= i < num ==> !threads[i].ErrorPointer?
      requires forall i :: 0 <= i < num ==> (threads[i].Started? <==> i in Held().threads)
      modifies this`trace, threads, running
      ensures Valid() && Held() == Holding(old(Held()).threads - Below(num), [])
      ensures trace == old(trace) + StopOps(old(threads[..num]))
      ensures forall i :: 0 <= i < num ==>
                threads[i] == NoThread && running[i] == (old(running[i]) && old(threads[i]).NoThread?)
      ensures forall i :: num <= i < threads.Length ==> threads[i] == old(threads[i]) && running[i] == old(running[i])
    {
      hide Replay, Do, StopOps;
      ghost var before, pointers := Held().threads, threads[..];
      assert StopOps(pointers[..0]) == [] by { NothingToStop(); }
      for i := 0 to num
        invariant Valid() && Held() == Holding(before - Below(i), [])
        invariant trace == old(trace) + StopOps(pointers[..i])
        invariant forall k :: 0 <= k < i ==>
                    threads[k] == NoThread && running[k] == (old(running[k]) && pointers[k].NoThread?)
        invariant forall k :: i <= k < threads.Length ==> threads[k] == pointers[k] && running[k] == old(running[k])
      {
        StopOpsStep(pointers, i);
        if !threads[i].NoThread? {
          running[i] := false;
          KthreadStop(i);
          threads[i] := NoThread;
        }
        assert before - Below(i) - {i} == before - Below(i + 1);
      }
      assert pointers[..num] == old(threads[..num]);
    }

    /** accel_stop_workers over the whole array, when every worker was started. */
    method StopAll()
      requires Valid() && Held() == Holding(Below(threads.Length), [])
      requires forall i :: 0 <= i < threads.Length ==> threads[i] == Started
      modifies this`trace, threads, running
      ensures Valid() && Held() == NOTHING && trace == old(trace) + Kills(threads.Length)
      ensures forall i :: 0 <= i < threads.Length ==> threads[i] == NoThread && !running[i]
    {
      AllStopped(threads[..]);
      assert threads[..threads.Length] == threads[..];
      StopWorkers(threads.Length);
      assert Below(threads.Length) - Below(threads.Length) == {};
    }

    /** accel_start_workers. On failure at worker f exactly workers 0..f-1 were started, and all
        of them are stopped and their pointers cleared; f's own pointer keeps the error. */
    method StartWorkers(spawn: seq<int>) returns (ret: int)
      requires Valid() && |spawn| == threads.Length && Outcomes(spawn) && Held() == NOTHING
      requires forall i :: 0 <= i < threads.Length ==> threads[i] == NoThread
      modifies this`trace, threads, running
      ensures Valid()
      ensures var f := FirstFailure(spawn, 0);
              && ret == (if f == |spawn| then 0 else spawn[f])
              && trace == old(trace) + Spawns(f) + (if f == |spawn| then [] else Kills(f))
              && Held() == Holding(if f == |spawn| then Below(f) else {}, [])
              && (forall i :: 0 <= i < |spawn| ==>
                    threads[i] == if f == |spawn| then Started else if i == f then ErrorPointer(spawn[f]) else NoThread)
              && (forall i :: 0 <= i < |spawn| ==> running[i] == (old(running[i]) && (f == |spawn| || i >= f)))
    {
      hide Replay, Do;
      for i := 0 to threads.Length
        invariant Valid() && Held() == Holding(Below(i), [])
        invariant FirstFailure(spawn, 0) == FirstFailure(spawn, i)
        invariant trace == old(trace) + Spawns(i)
        invariant running[..] == old(running[..])
        invariant forall k :: 0 <= k < i ==> threads[k] == Started
        invariant forall k :: i <= k < threads.Length ==> threads[k] == NoThread
      {
        if spawn[i] < 0 {
          threads[i] := ErrorPointer(spawn[i]);
          AllStopped(threads[..i]);
          StopWorkers(i);
          assert Below(i) - Below(i) == {};
          return spawn[i];
        }
        threads[i] := Started;
        Begin(i);
        assert Below(i) + {i} == Below(i + 1);
        assert Spawns(i) + [Spawn(i)] == Spawns(i + 1);
      }
      return 0;
    }

    /** cdev_add and device_create, the region being held; a failure gives up the region too. */
    method AddDevice(x: Answers) returns (ret: int)
      requires Valid() && Held() == Holding(Below(threads.Length), [Region])
      modifies this`trace
      ensures Valid() && ret == if x.cdev != 0 then x.cdev else x.node
      ensures trace == old(trace) + DeviceTrace(x)
      ensures Held() == Holding(Below(threads.Length), if ret == 0 then [Region, CharDevice, DeviceNode] else [])
    {
      hide Replay, Do, Kills, Below;
      ret := x.cdev;
      if ret != 0 {
        GiveBack(Region);
        return;
      }
      Take(CharDevice);
      ret := x.node;
      if ret == 0 {
        Take(DeviceNode);
        return;
      }
      GiveBack(CharDevice);
      GiveBack(Region);
    }

    /** The rest of probe once every worker is started: region, cdev and device node, or the undo. */
    method Register(x: Answers) returns (ret: int)
      requires Valid() && Held() == Holding(Below(threads.Length), [])
      requires forall i :: 0 <= i < threads.Length ==> threads[i] == Started
      modifies this`trace, threads, running
      ensures Valid() && trace == old(trace) + RegisterTrace(x, threads.Length)
      ensures ret == if x.region != 0 then x.region else if x.cdev != 0 then x.cdev else x.node
      ensures ret == 0 ==> Held() == Holding(Below(threads.Length), [Region, CharDevice, DeviceNode])
      ensures ret == 0 ==> threads[..] == old(threads[..]) && running[..] == old(running[..])
      ensures ret != 0 ==> Held() == NOTHING
      ensures ret != 0 ==> forall i :: 0 <= i < threads.Length ==> threads[i] == NoThread && !running[i]
    {
      hide Replay, Do, Kills, Below, DeviceTrace;
      ghost var begun := trace;
      ret := x.region;
      if ret == 0 {
        Take(Region);
        ret := AddDevice(x);
        assert trace == begun + ([Acquire(Region)] + DeviceTrace(x));
        if ret == 0 {
          return;
        }
      }
      ghost var undone := trace[|begun|..];
      assert trace == begun + undone;
      StopAll();
      assert begun + undone + Kills(threads.Length) == begun + (undone + Kills(threads.Length));
    }

    /** The statements of cortex_forge_probe. */
    method ProbeSteps(x: Answers) returns (ret: int)
      requires Valid() && trace == [] && |x.spawn| == threads.Length && Outcomes(x.spawn)
      requires x.mmio <= 0 && x.reset <= 0 && x.region <= 0 && x.cdev <= 0 && x.node <= 0
      requires forall i :: 0 <= i < threads.Length ==> threads[i] == NoThread
      modifies this`trace, threads, running
      ensures Valid() && ret == ProbeError(x) && trace == ProbeTrace(x)
      ensures ret != 0 ==> Held() == NOTHING && forall i :: 0 <= i < threads.Length ==> !threads[i].Started?
      ensures ret == 0 ==> Held() == Holding(Below(threads.Length), [Region, CharDevice, DeviceNode])
      ensures ret == 0 ==> forall i :: 0 <= i < threads.Length ==> threads[i] == Started
    {
      if !x.memory {
        return -ENOMEM;
      }
      if x.mmio != 0 {
        return x.mmio;
      }
      if x.clocks < 0 {
        return x.clocks;
      }
      if x.reset != 0 {
        return x.reset;
      }
      if x.irq < 0 {
        return x.irq;
      }
      ret := StartWorkers(x.spawn);
      if ret != 0 {
        return;
      }
      ret := Register(x);
    }

    /** cortex_forge_probe: the first request that fails decides the answer. Everything taken
        has then been given back, the registrations newest first and then the workers, and nothing
        else was ever touched. */
    method Probe(x: Answers) returns (ret: int)
      requires Valid() && trace == [] && |x.spawn| == threads.Length && Outcomes(x.spawn)
      requires x.mmio <= 0 && x.reset <= 0 && x.region <= 0 && x.cdev <= 0 && x.node <= 0
      requires forall i :: 0 <= i < threads.Length ==> threads[i] == NoThread
      modifies this`trace, threads, running
      ensures !x.memory ==> ret == -12 && trace == []
      ensures x.memory && x.mmio != 0 ==> ret == x.mmio && trace == []
      ensures x.memory && x.mmio == 0 && x.clocks < 0 ==> ret == x.clocks && trace == []
      ensures x.memory && x.mmio == 0 && x.clocks >= 0 && x.reset != 0 ==> ret == x.reset && trace == []
      ensures x.memory && x.mmio == 0 && x.clocks >= 0 && x.reset == 0 && x.irq < 0 ==> ret == x.irq && trace == []
      ensures x.memory && x.mmio == 0 && x.clocks >= 0 && x.reset == 0 && x.irq >= 0 ==>
                var n, f := |x.spawn|, FirstFailure(x.spawn, 0);
                if f < n then ret == x.spawn[f] && trace == Spawns(f) + Kills(f)
                else if x.region != 0 then ret == x.region && trace == Spawns(n) + Kills(n)
                else if x.cdev != 0 then
                  ret == x.cdev && trace == Spawns(n) + ([Acquire(Region), Release(Region)] + Kills(n))
                else if x.node != 0 then
                  && ret == x.node
                  && trace == Spawns(n) + ([Acquire(Region), Acquire(CharDevice), Release(CharDevice), Release(Region)] + Kills(n))
                else ret == 0 && trace == Spawns(n) + [Acquire(Region), Acquire(CharDevice), Acquire(DeviceNode)]
      ensures ret == 0 <==>
                && x.memory && x.mmio == 0 && x.clocks >= 0 && x.reset == 0 && x.irq >= 0
                && (forall i :: 0 <= i < |x.spawn| ==> x.spawn[i] == 0)
                && x.region == 0 && x.cdev == 0 && x.node == 0
      ensures Valid() && ret == ProbeError(x) && trace == ProbeTrace(x)
      ensures ret != 0 ==> Held() == NOTHING && forall i :: 0 <= i < threads.Length ==> !threads[i].Started?
      ensures ret == 0 ==> Held() == Holding(Below(threads.Length), [Region, CharDevice, DeviceNode])
      ensures ret == 0 ==> forall i :: 0 <= i < threads.Length ==> threads[i] == Started
    {
      hide Replay, Do, Below, Spawns, Kills, FirstFailure;
      ret := ProbeSteps(x);
      RegisterCases(x, |x.spawn|);
    }

    /** cortex_forge_remove, after a successful probe: nothing is left held. */
    method Remove()
      requires Valid() && Held() == Holding(Below(threads.Length), [Region, CharDevice, DeviceNode])
      requires forall i :: 0 <= i < threads.Length ==> threads[i] == Started
      modifies this`trace, threads, running
      ensures Valid() && Held() == NOTHING && trace == old(trace) + RemoveTrace(threads.Length)
      ensures forall i :: 0 <= i < threads.Length ==> threads[i] == NoThread && !running[i]
    {
      GiveBack(DeviceNode);
      GiveBack(CharDevice);
      GiveBack(Region);
      StopAll();
    }
  }

  // ---- What a legal trace says ----

  function Count(ops: seq<Op>, op: Op): nat {
    if ops == [] then 0 else Count(ops[..|ops| - 1], op) + if ops[|ops| - 1] == op then 1 else 0
  }

  ghost predicate NoRepeats(s: seq<Resource>) {
    forall i, j :: 0 <= i < j < |s| ==> s[i] != s[j]
  }

  /** Made and undone tally with what is held. */
  ghost predicate Balanced(ops: seq<Op>, h: Holding, i: nat, r: Resource) {
    && Count(ops, Spawn(i)) == Count(ops, Kill(i)) + (if i in h.threads then 1 else 0)
    && Count(ops, Acquire(r)) == Count(ops, Release(r)) + (if r in h.stack then 1 else 0)
    && NoRepeats(h.stack)
  }

  lemma OneMore(ops: seq<Op>, op: Op, x: Op)
    ensures Count(ops + [op], x) == Count(ops, x) + if op == x then 1 else 0
  {
    assert (ops + [op])[..|ops|] == ops;
  }

  lemma OpBalances(ops: seq<Op>, op: Op, h: Holding, i: nat, r: Resource)
    requires Balanced(ops, h, i, r) && Do(h, op).Some?
    ensures Balanced(ops + [op], Do(h, op).value, i, r)
  {
    hide Count;
    OneMore(ops, op, Spawn(i));
    OneMore(ops, op, Kill(i));
    OneMore(ops, op, Acquire(r));
    OneMore(ops, op, Release(r));
    if op.Release? {
      assert h.stack == h.stack[..|h.stack| - 1] + [op.r];
    }
  }

  /** In a trace Replay accepts, every acquisition was undone as often as it was made, except
      those still held, which were undone one time less. */
  lemma {:induction false} EachUndone(ops: seq<Op>, i: nat, r: Resource)
    requires Replay(ops).Some?
    ensures Balanced(ops, Replay(ops).value, i, r)
  {
    if ops != [] {
      var n := |ops| - 1;
      EachUndone(ops[..n], i, r);
      assert ops[..n] + [ops[n]] == ops;
      OpBalances(ops[..n], ops[n], Replay(ops[..n]).value, i, r);
    }
  }

  // ---- What probe and remove do, step by step ----

  lemma {:induction false} CountAppend(a: seq<Op>, b: seq<Op>, op: Op)
    ensures Count(a + b, op) == Count(a, op) + Count(b, op)
  {
    if b == [] {
      assert a + b == a;
    } else {
      var n := |b| - 1;
      CountAppend(a, b[..n], op);
      assert (a + b)[..|a + b| - 1] == a + b[..n];
    }
  }

  lemma {:induction false} CountThreadOps(n: nat, op: Op)
    ensures Count(Spawns(n), op) == if op.Spawn? && op.i < n then 1 else 0
    ensures Count(Kills(n), op) == if op.Kill? && op.i < n then 1 else 0
  {
    if n > 0 {
      CountThreadOps(n - 1, op);
      assert Spawns(n)[..n - 1] == Spawns(n - 1) && Kills(n)[..n - 1] == Kills(n - 1);
    }
  }

  /** A registration is made if every one up to it is granted. */
  predicate Registered(x: Answers, r: Resource) {
    x.region == 0 && (r.Region? || (x.cdev == 0 && (r.CharDevice? || x.node == 0)))
  }

  /** The requests that are granted: a worker is started if everything before it succeeded, and a
      resource is acquired if everything before it and the request itself succeeded. */
  predicate Granted(x: Answers, op: Op) {
    Equipped(x) &&
    match op
    case Spawn(i) => i < FirstFailure(x.spawn, 0)
    case Acquire(r) =>
      FirstFailure(x.spawn, 0) == |x.spawn| && Registered(x, r)
    case _ => false
  }

  function Undo(op: Op): Op {
    match op
    case Spawn(i) => Kill(i)
    case Acquire(r) => Release(r)
    case _ => op
  }

  function One(op: Op, x: Op): nat {
    if op == x then 1 else 0
  }

  lemma ShortCounts(a: Op, b: Op, c: Op, d: Op, x: Op)
    ensures Count([a, b], x) == One(a, x) + One(b, x)
    ensures Count([a, b, c], x) == One(a, x) + One(b, x) + One(c, x)
    ensures Count([a, b, c, d], x) == One(a, x) + One(b, x) + One(c, x) + One(d, x)
  {
    assert [] + [a] == [a] && [a] + [b] == [a, b] && [a, b] + [c] == [a, b, c] && [a, b, c] + [d] == [a, b, c, d];
    OneMore([], a, x);
    OneMore([a], b, x);
    OneMore([a, b], c, x);
    OneMore([a, b, c], d, x);
  }

  lemma RegisterCounts(x: Answers, n: nat, op: Op)
    ensures Count(RegisterTrace(x, n), op) ==
            match op
            case Spawn(_) => 0
            case Kill(i) => if i < n && !(x.region == 0 && x.cdev == 0 && x.node == 0) then 1 else 0
            case Acquire(r) => if Registered(x, r) then 1 else 0
            case Release(r) => if Registered(x, r) && !(x.cdev == 0 && x.node == 0) then 1 else 0
  {
    hide Count, Kills;
    CountThreadOps(n, op);
    assert op.Acquire? || op.Release? ==> op.r.Region? || op.r.CharDevice? || op.r.DeviceNode?;
    if x.region == 0 {
      var made := [Acquire(Region)] + DeviceTrace(x);
      CountAppend(made, Kills(n), op);
      if x.cdev != 0 {
        assert made == [Acquire(Region), Release(Region)];
        ShortCounts(Acquire(Region), Release(Region), op, op, op);
      } else if x.node != 0 {
        assert made == [Acquire(Region), Acquire(CharDevice), Release(CharDevice), Release(Region)];
        ShortCounts(Acquire(Region), Acquire(CharDevice), Release(CharDevice), Release(Region), op);
      } else {
        assert RegisterTrace(x, n) == [Acquire(Region), Acquire(CharDevice), Acquire(DeviceNode)];
        ShortCounts(Acquire(Region), Acquire(CharDevice), Acquire(DeviceNode), op, op);
      }
    } else {
      assert RegisterTrace(x, n) == Kills(n);
    }
  }

  lemma RemoveCounts(n: nat, op: Op)
    ensures Count(RemoveTrace(n), op) == if op.Release? || (op.Kill? && op.i < n) then 1 else 0
  {
    CountThreadOps(n, op);
    assert op.Release? ==> op.r.Region? || op.r.CharDevice? || op.r.DeviceNode?;
    CountAppend([Release(DeviceNode), Release(CharDevice), Release(Region)], Kills(n), op);
    ShortCounts(Release(DeviceNode), Release(CharDevice), Release(Region), op, op);
  }

  /** On every path of probe a step is made exactly once if its request is granted, and otherwise
      never; on a path that fails it is undone exactly once in the first case, and otherwise
      never; after a successful probe nothing is undone, and remove undoes each step once. */
  lemma EachUndoneOnce(x: Answers, op: Op)
    requires Outcomes(x.spawn) && (op.Spawn? || op.Acquire?)
    ensures Count(ProbeTrace(x), op) == if Granted(x, op) then 1 else 0
    ensures Count(ProbeTrace(x), Undo(op)) == if Granted(x, op) && ProbeError(x) != 0 then 1 else 0
    ensures ProbeError(x) == 0 ==>
              && Count(ProbeTrace(x) + RemoveTrace(|x.spawn|), op) == (if Granted(x, op) then 1 else 0)
              && Count(ProbeTrace(x) + RemoveTrace(|x.spawn|), Undo(op)) == (if Granted(x, op) then 1 else 0)
              && (Granted(x, op) <==> op.Acquire? || op.i < |x.spawn|)
  {
    var f := FirstFailure(x.spawn, 0);
    ProbeCounts(x, op);
    ProbeCounts(x, Undo(op));
    CountAppend(ProbeTrace(x), RemoveTrace(|x.spawn|), op);
    CountAppend(ProbeTrace(x), RemoveTrace(|x.spawn|), Undo(op));
    RemoveCounts(|x.spawn|, op);
    RemoveCounts(|x.spawn|, Undo(op));
    RegisterCounts(x, f, op);
    RegisterCounts(x, f, Undo(op));
  }

  lemma ProbeCounts(x: Answers, op: Op)
    requires Outcomes(x.spawn)
    ensures Count(ProbeTrace(x), op) == if !Equipped(x) then 0 else
            var f := FirstFailure(x.spawn, 0);
            (if op.Spawn? && op.i < f then 1 else 0)
            + if f < |x.spawn| then (if op.Kill? && op.i < f then 1 else 0) else Count(RegisterTrace(x, f), op)
  {
    var f := FirstFailure(x.spawn, 0);
    CountThreadOps(f, op);
    CountAppend(Spawns(f), if f < |x.spawn| then Kills(f) else RegisterTrace(x, f), op);
  }
}
