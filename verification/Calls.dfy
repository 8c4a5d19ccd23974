/** What a whole ioctl, or a whole worker iteration, does to shared memory when nothing else
    runs. The imperative methods are proved to compute these, and so are the step programs. */
module Calls {
  import opened Types
  import opened Memory

  /** The slot a scan from slot i on stops at, or the number of slots. */
  function FirstMatch(tasks: seq<Task>, id: nat, i: nat): (k: nat)
    requires i <= |tasks|
    ensures i <= k <= |tasks|
    ensures forall j :: i <= j < k ==> !Matches(tasks[j], id)
    ensures k < |tasks| ==> Matches(tasks[k], id)
    decreases |tasks| - i
  {
    if i == |tasks| || Matches(tasks[i], id) then i else FirstMatch(tasks, id, i + 1)
  }

  /** The status a query copies out for a slot. */
  function StatusFor(x: Task): Status {
    Status(x.id, x.state, ExecUsec(x.completeJiffies, x.submitJiffies), x.errorCode)
  }

  function CancelSlot(m: Mem, t: nat): Mem
    requires t < |m.tasks|
  {
    SetDone(SetError(SetState(m, t, Cancelled), t, -ECANCELED), t)
  }

  /** task_submit on a slot whose accelerator type is valid. */
  function SubmitSlot(m: Mem, t: nat, a: nat, j: nat): Mem
    requires t < |m.tasks| && a < |m.accels|
  {
    Enqueue(SetSubmit(SetState(m, t, Pending), t, j), a, t)
  }

  /** The SUBMIT_TASK ioctl on a valid descriptor when a slot is free. */
  function SubmitCall(m: Mem, d: Desc, j: nat): Mem
    requires m.free != [] && m.free[0] < |m.tasks| && d.accelType < |m.accels|
  {
    var t := m.free[0];
    var n := AllocHead(m);
    SubmitSlot(Put(n, t, Filled(n.tasks[t], d)), t, d.accelType, j)
  }

  /** From list_del off the queue to list_del off active_tasks, completing at jiffies j. */
  function IterationCall(m: Mem, a: nat, j: nat): Mem
    requires a < |m.accels| && m.accels[a].queue != [] && m.accels[a].queue[0] < |m.tasks|
  {
    var t := m.accels[a].queue[0];
    var started := SetLoad(SetState(Dequeue(m, a), t, Running), a, RaisedLoad(m.accels[a].load));
    var stamped := SetError(SetState(SetComplete(started, t, j), t, Complete), t, 0);
    Retire(SetDone(SetLoad(stamped, a, LoweredLoad(stamped.accels[a].load)), t), a, t)
  }

  lemma {:induction false} WithoutLast(s: seq<nat>, t: nat)
    requires t !in s
    ensures Without(s + [t], t) == s
  {
    if s != [] {
      assert (s + [t])[1..] == s[1..] + [t];
      WithoutLast(s[1..], t);
    }
  }

  /** A submit takes the head of the free list, gives it the next ID and puts it, filled and
      PENDING, at the end of the one queue the descriptor names; nothing else changes. */
  lemma SubmitCallMeans(m: Mem, d: Desc, j: nat)
    requires m.free != [] && m.free[0] < |m.tasks| && d.accelType < |m.accels|
    ensures var t, m' := m.free[0], SubmitCall(m, d, j);
            && m'.free == m.free[1..] && m'.nextId == NextId(m)
            && m'.tasks == m.tasks[t := Task(NextId(m), Pending, d.accelType, d.priority, d.inputAddr, d.inputSize,
                                             d.outputAddr, d.outputSize, d.timeoutMs, j, 0, 0, false)]
            && |m'.accels| == |m.accels|
            && (forall a :: 0 <= a < |m.accels| ==>
                  m'.accels[a] == if a == d.accelType then m.accels[a].(queue := m.accels[a].queue + [t]) else m.accels[a])
  {
  }

  /** An iteration takes the oldest task of its own queue, completes it and lets go of it; the
      load is back where it was, and no other task, queue or list changes. */
  lemma IterationCallMeans(m: Mem, a: nat, j: nat)
    requires a < |m.accels| && m.accels[a].queue != [] && m.accels[a].queue[0] < |m.tasks|
    requires m.accels[a].queue[0] !in m.accels[a].active && 0 <= m.accels[a].load <= 90
    ensures var t, m' := m.accels[a].queue[0], IterationCall(m, a, j);
            && m'.free == m.free && m'.nextId == m.nextId
            && m'.tasks == m.tasks[t := m.tasks[t].(state := Complete, completeJiffies := j, errorCode := 0, done := true)]
            && m'.accels == m.accels[a := m.accels[a].(queue := m.accels[a].queue[1..])]
  {
    WithoutLast(m.accels[a].active, m.accels[a].queue[0]);
  }

  /** A cancel writes three fields of one record. Cancelling twice is cancelling once, and a
      cancelled slot still matches its ID. */
  lemma CancelSlotMeans(m: Mem, t: nat, id: nat)
    requires t < |m.tasks| && Matches(m.tasks[t], id)
    ensures CancelSlot(m, t) == m.(tasks := m.tasks[t := m.tasks[t].(state := Cancelled, errorCode := -125, done := true)])
    ensures CancelSlot(CancelSlot(m, t), t) == CancelSlot(m, t)
    ensures FirstMatch(CancelSlot(m, t).tasks, id, 0) == FirstMatch(m.tasks, id, 0)
  {
    assert forall j :: 0 <= j < |m.tasks| ==> (Matches(CancelSlot(m, t).tasks[j], id) <==> Matches(m.tasks[j], id));
  }
}
