/** What accel_get_info can see, and what a stopped worker leaves behind. */
module Shutdown {
  import opened Types
  import opened Memory
  import opened Steps
  import opened Invariant
  import opened Runs

  /** The worker has added its load and not yet taken it off again. */
  predicate BetweenUpdates(pc: WorkerPc) {
    pc.Busy() && !pc.MarkRunning? && !pc.AddLoad? && !pc.Signal? && !pc.RetireTask?
  }

  /** In every reachable state the load is 10 exactly while the worker is between its two
      unlocked updates and 0 otherwise, so neither clamp ever bites and no reader, locked or
      not, gets anything else. */
  lemma LoadIsTenOrZero(ss: seq<State>, es: seq<Event>, j: nat, a: nat)
    requires DriverRun(ss, es) && j < |ss| && a < |ss[j].workers|
    ensures |ss[j].mem.accels| == |ss[j].workers|
    ensures var m, pc := ss[j].mem.accels[a], ss[j].workers[a].pc;
            && (m.load == 10 <==> BetweenUpdates(pc)) && (m.load == 0 <==> !BetweenUpdates(pc))
            && (pc.AddLoad? ==> RaisedLoad(m.load) == m.load + 10)
            && (pc.DropLoad? ==> LoweredLoad(m.load) == m.load - 10)
  {
    DriverInv(ss, es);
    assert AccelOk(ss[j], a);
  }

  lemma InfoIsTenOrZero(ss: seq<State>, es: seq<Event>, j: nat, c: nat, r: Request, load: int)
    requires DriverRun(ss, es) && j < |ss| && c < |ss[j].clients|
    requires ss[j].clients[c] == Done(r, InfoReturned(load))
    ensures load == 0 || load == 10
  {
    DriverInv(ss, es);
    assert ClientOk(ss[j], c, ss[j].clients[c]);
  }

  /** A worker that has left its loop leaves nothing half done: its active list is empty, every
      task it ever took is retired with its completion signalled, and its queue is exactly the
      rest of its enqueue log, none of it started. */
  lemma ExitIsClean(ss: seq<State>, es: seq<Event>, j: nat, a: nat)
    requires DriverRun(ss, es) && j < |ss| && a < |ss[j].workers| && ss[j].workers[a].pc.Exited?
    ensures Inv(ss[j])
    ensures var s, w := ss[j], ss[j].workers[a];
            && s.mem.accels[a].active == [] && s.mem.accels[a].load == 0
            && w.retired <= |w.log|
            && s.mem.accels[a].queue == SlotsOf(w.log)[w.retired..]
            && (forall k :: 0 <= k < w.retired ==> w.log[k].slot < |s.hist| && s.mem.tasks[w.log[k].slot].done)
            && (forall k :: w.retired <= k < |w.log| ==>
                  w.log[k].slot < |s.hist| && s.hist[w.log[k].slot].phase == Queued(a, k))
  {
    DriverInv(ss, es);
    var s, w := ss[j], ss[j].workers[a];
    assert AccelOk(s, a);
    forall k | 0 <= k < |w.log|
      ensures w.log[k].slot < |s.hist|
      ensures k < w.retired ==> s.mem.tasks[w.log[k].slot].done
      ensures k >= w.retired ==> s.hist[w.log[k].slot].phase == Queued(a, k)
    {
      assert EntryOk(s, a, k);
      assert SlotOk(s, w.log[k].slot);
    }
  }
}
