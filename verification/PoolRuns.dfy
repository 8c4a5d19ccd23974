/** The task pool on its own: any sequence of task_alloc and task_free, reuse included. (In the
    running driver task_free is never reached; here it is.) */
module PoolRuns {
  import opened Types
  import opened Memory

  datatype PoolOp = Alloc | GiveBack(t: nat)

  /** `out` is the slots handed out and not returned; `taken` and `freed` are the slots in the
      order in which they were handed out and returned (history). */
  datatype Pool = Pool(mem: Mem, out: set<nat>, taken: seq<nat>, freed: seq<nat>)

  /** task_free may be called on an outstanding slot only. */
  predicate Legal(p: Pool, op: PoolOp) {
    op.GiveBack? ==> op.t in p.out && op.t < |p.mem.tasks|
  }

  /** One call: task_alloc's NULL leaves everything as it is. */
  function Exec(p: Pool, op: PoolOp): Pool
    requires Legal(p, op) && Slots(p.mem.free, |p.mem.tasks|)
  {
    match op
    case Alloc =>
      if p.mem.free == [] then p
      else
        var t := p.mem.free[0];
        p.(mem := AllocHead(p.mem), out := p.out + {t}, taken := p.taken + [t])
    case GiveBack(t) => p.(mem := FreeTask(p.mem, t), out := p.out - {t}, freed := p.freed + [t])
  }

  ghost predicate Run(ps: seq<Pool>, ops: seq<PoolOp>) {
    && |ps| == |ops| + 1
    && |ps[0].mem.tasks| < U32
    && ps[0] == Pool(InitialMem(|ps[0].mem.tasks|, 0), {}, [], [])
    && forall i :: 0 <= i < |ops| ==> PoolStep(ps[i], ops[i], ps[i + 1])
  }

  ghost predicate PoolStep(p: Pool, op: PoolOp, p': Pool) {
    Legal(p, op) && Slots(p.mem.free, |p.mem.tasks|) && p' == Exec(p, op)
  }

  /** Slots come back into use in the order in which they became free: what was handed out so
      far, followed by the free list, is the initial order followed by the order of returns. */
  ghost predicate ReuseInOrder(p: Pool) {
    p.taken + p.mem.free == Index(|p.mem.tasks|) + p.freed
  }

  ghost predicate Partition(p: Pool) {
    && Slots(p.mem.free, |p.mem.tasks|)
    && Distinct(p.mem.free)
    && (forall t :: 0 <= t < |p.mem.tasks| ==> (t in p.out <==> t !in p.mem.free))
    && (forall t :: t in p.out ==> t < |p.mem.tasks|)
    && |p.mem.free| + |p.out| == |p.mem.tasks|
  }

  /** As long as the counter has not wrapped, IDs are 1, 2, 3, ... and outstanding slots have
      different ones. */
  ghost predicate IdsOk(p: Pool) {
    |p.taken| < U32 ==>
      && p.mem.nextId == |p.taken|
      && (forall t :: t in p.out && t < |p.mem.tasks| ==> 1 <= p.mem.tasks[t].id <= p.mem.nextId)
      && (forall t, u :: t in p.out && u in p.out && t < u < |p.mem.tasks| ==> p.mem.tasks[t].id != p.mem.tasks[u].id)
  }

  ghost predicate PoolInv(p: Pool) {
    ReuseInOrder(p) && Partition(p) && IdsOk(p)
  }

  lemma AllocKeepsPartition(p: Pool)
    requires PoolInv(p) && p.mem.free != []
    ensures Partition(Exec(p, Alloc))
  {
    hide ReuseInOrder, IdsOk;
    var t := p.mem.free[0];
    var p' := Exec(p, Alloc);
    forall u | 0 <= u < |p.mem.tasks| ensures u in p'.mem.free <==> u in p.mem.free && u != t {
      if u in p.mem.free && u != t {
        var i :| 0 <= i < |p.mem.free| && p.mem.free[i] == u;
        assert p'.mem.free[i - 1] == u;
      }
    }
  }

  lemma AllocKeepsIds(p: Pool)
    requires PoolInv(p) && p.mem.free != []
    ensures IdsOk(Exec(p, Alloc))
  {
    hide ReuseInOrder;
  }

  lemma AllocKeeps(p: Pool)
    requires PoolInv(p)
    ensures PoolInv(Exec(p, Alloc))
    ensures p.mem.free == [] <==> |p.out| == |p.mem.tasks|
  {
    hide IdsOk;
    if p.mem.free != [] {
      var p' := Exec(p, Alloc);
      assert p'.taken + p'.mem.free == p.taken + p.mem.free;
      AllocKeepsPartition(p);
      AllocKeepsIds(p);
    }
  }

  lemma FreeKeeps(p: Pool, t: nat)
    requires PoolInv(p) && Legal(p, GiveBack(t))
    ensures PoolInv(Exec(p, GiveBack(t)))
  {
    var p' := Exec(p, GiveBack(t));
    assert p'.taken + p'.mem.free == (p.taken + p.mem.free) + [t];
    assert Index(|p.mem.tasks|) + p'.freed == (Index(|p.mem.tasks|) + p.freed) + [t];
  }

  /** For every sequence of calls: free and outstanding slots add up to the pool, task_alloc
      fails exactly when all are outstanding, reuse is first-freed first-reused, and IDs of
      outstanding slots differ until the counter wraps. */
  lemma {:induction false} PoolConserves(ps: seq<Pool>, ops: seq<PoolOp>, j: nat)
    requires Run(ps, ops) && j < |ps|
    ensures PoolInv(ps[j])
    ensures Exec(ps[j], Alloc) == ps[j] <==> |ps[j].out| == |ps[j].mem.tasks|
  {
    if j == 0 {
      forall t | 0 <= t < |ps[0].mem.tasks| ensures t in ps[0].mem.free {
        assert ps[0].mem.free[t] == t;
      }
    } else {
      PoolConserves(ps, ops, j - 1);
      assert PoolStep(ps[j - 1], ops[j - 1], ps[j]);
      if ops[j - 1].Alloc? {
        AllocKeeps(ps[j - 1]);
      } else {
        FreeKeeps(ps[j - 1], ops[j - 1].t);
      }
    }
    AllocKeeps(ps[j]);
  }
}
