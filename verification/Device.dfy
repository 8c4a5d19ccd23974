/** The driver's code as written: arrays of task and accelerator structures, intrusive lists and
    loops, each function proved to do to the abstract memory what its specification says. */
module Device {
  import opened Types
  import opened Memory
  import opened Calls
  import opened IntrusiveList
  import opened Clock
  import A = Abstract

  datatype Pointer = Null | Slot(t: nat)

  /** struct cortex_forge_accel, without its lists, lock, name and thread. */
  datatype Accel = Accel(kind: nat, freqHz: nat, tempCelsius: int, loadPercent: int, fwVersion: nat, hwVersion: nat,
                         memTotal: nat, memFree: nat, powerState: nat)

  const ZERO_ACCEL := Accel(0, 0, 0, 0, 0, 0, 0, 0, 0)

  // Which list is which.
  const FREE: nat := 0

  function QueueOf(a: nat): nat {
    1 + 2 * a
  }

  function ActiveOf(a: nat): nat {
    2 + 2 * a
  }

  function AccelMemOf(lists: seq<seq<nat>>, accels: seq<Accel>, a: nat): AccelMem
    requires |lists| == 1 + 2 * |accels| && a < |accels|
  {
    AccelMem(lists[QueueOf(a)], lists[ActiveOf(a)], accels[a].loadPercent)
  }

  function MemOf(tasks: seq<Task>, lists: seq<seq<nat>>, nextId: nat, accels: seq<Accel>): Mem
    requires |lists| == 1 + 2 * |accels|
  {
    Mem(tasks, lists[FREE], nextId, seq(|accels|, a requires 0 <= a < |accels| => AccelMemOf(lists, accels, a)))
  }

  /** Changing one list, or one load, is changing one field of the memory. */
  lemma ListsChange(tasks: seq<Task>, lists: seq<seq<nat>>, nextId: nat, accels: seq<Accel>, a: nat, s: seq<nat>)
    requires |lists| == 1 + 2 * |accels| && a < |accels|
    ensures var m := MemOf(tasks, lists, nextId, accels);
            && MemOf(tasks, lists[QueueOf(a) := s], nextId, accels) == PutAccel(m, a, m.accels[a].(queue := s))
            && MemOf(tasks, lists[ActiveOf(a) := s], nextId, accels) == PutAccel(m, a, m.accels[a].(active := s))
            && MemOf(tasks, lists[FREE := s], nextId, accels) == m.(free := s)
  {
    var m := MemOf(tasks, lists, nextId, accels);
    assert MemOf(tasks, lists[QueueOf(a) := s], nextId, accels).accels == PutAccel(m, a, m.accels[a].(queue := s)).accels;
    assert MemOf(tasks, lists[ActiveOf(a) := s], nextId, accels).accels == PutAccel(m, a, m.accels[a].(active := s)).accels;
    assert MemOf(tasks, lists[FREE := s], nextId, accels).accels == m.accels;
  }

  lemma FreeListChange(tasks: seq<Task>, lists: seq<seq<nat>>, nextId: nat, accels: seq<Accel>, s: seq<nat>)
    requires |lists| == 1 + 2 * |accels|
    ensures MemOf(tasks, lists[FREE := s], nextId, accels) == MemOf(tasks, lists, nextId, accels).(free := s)
  {
    assert MemOf(tasks, lists[FREE := s], nextId, accels).accels == MemOf(tasks, lists, nextId, accels).accels;
  }

  /** Whatever else is written to one accelerator's record, only its load shows in the memory. */
  lemma LoadOnly(tasks: seq<Task>, lists: seq<seq<nat>>, nextId: nat, accels: seq<Accel>, accels': seq<Accel>,
                 a: nat, load: int)
    requires |lists| == 1 + 2 * |accels| && |accels'| == |accels| && a < |accels| && accels'[a].loadPercent == load
    requires forall b :: 0 <= b < |accels| && b != a ==> accels'[b] == accels[b]
    ensures MemOf(tasks, lists, nextId, accels') == SetLoad(MemOf(tasks, lists, nextId, accels), a, load)
  {
    assert MemOf(tasks, lists, nextId, accels').accels == SetLoad(MemOf(tasks, lists, nextId, accels), a, load).accels;
  }

  // ---- Interference ----

  /** From xs to ys slot t went through the assignments added to ws, the others at most through cancels. */
  ghost predicate Carried(xs: seq<Task>, ys: seq<Task>, t: nat, ws: seq<Write>, ws': seq<Write>) {
    && |xs| == |ys| && t < |xs| && ws <= ws'
    && ys[t] == After(xs[t], ws'[|ws|..])
    && forall i :: 0 <= i < |xs| && i != t ==> Touched(xs[i], ys[i])
  }

  lemma CarriedTwice(xs: seq<Task>, ys: seq<Task>, zs: seq<Task>, t: nat, ws: seq<Write>, ws': seq<Write>, ws'': seq<Write>)
    requires Carried(xs, ys, t, ws, ws') && Carried(ys, zs, t, ws', ws'')
    ensures Carried(xs, zs, t, ws, ws'')
    ensures ws''[|ws|..] == ws'[|ws|..] + ws''[|ws'|..]
    ensures WorkerPart(ws''[|ws|..]) == WorkerPart(ws'[|ws|..]) + WorkerPart(ws''[|ws'|..])
  {
    var a, b := ws'[|ws|..], ws''[|ws'|..];
    assert ws''[|ws|..] == a + b;
    AfterAppend(xs[t], a, b);
  }

  /** One assignment by the worker. */
  lemma CarriedOnce(xs: seq<Task>, t: nat, ws: seq<Write>, w: Write)
    requires t < |xs|
    ensures Carried(xs, xs[t := A.Written(xs[t], w.field, w.tick)], t, ws, ws + [w])
    ensures WorkerPart((ws + [w])[|ws|..]) == if w.cancel then [] else [w]
  {
    assert (ws + [w])[|ws|..] == [w];
    assert [w][..0] == [];
    assert After(xs[t], [w]) == A.Written(After(xs[t], []), w.field, w.tick);
  }

  lemma CarriedNothing(xs: seq<Task>, t: nat, ws: seq<Write>)
    requires t < |xs|
    ensures Carried(xs, xs, t, ws, ws)
  {
  }

  lemma OnlyCancelled(xs: seq<Task>, ys: seq<Task>, t: nat, ws: seq<Write>, ws': seq<Write>)
    requires Carried(xs, ys, t, ws, ws') && CancelsOnly(ws'[|ws|..])
    ensures Touched(xs[t], ys[t])
  {
    CancelsTouch(xs[t], ws'[|ws|..]);
  }

  lemma SameTimeout(xs: seq<Task>, ys: seq<Task>, t: nat, ws: seq<Write>)
    requires Carried(xs, ys, t, [], ws) && Proper(ws)
    ensures ys[t].timeoutMs == xs[t].timeoutMs
  {
    assert ws[0..] == ws;
    RestAfter(xs[t], ws);
  }

  /** A task that was set RUNNING and shows CANCELLED was cancelled since. */
  lemma CancelledShows(x: Task, ws: seq<Write>, start: nat)
    requires Proper(ws) && WorkerPart(ws) == [Write(false, A.StateRunning, start)]
    ensures After(x, ws).state == Cancelled <==> Since(ws, A.StateCancelled, STATE_FIELDS)
  {
    StateAfter(x, ws);
  }

  lemma MemOfHas(tasks: seq<Task>, lists: seq<seq<nat>>, nextId: nat, accels: seq<Accel>, a: nat)
    requires |lists| == 1 + 2 * |accels| && a < |accels|
    ensures |MemOf(tasks, lists, nextId, accels).accels| == |accels|
    ensures MemOf(tasks, lists, nextId, accels).accels[a].queue == lists[QueueOf(a)]
    ensures MemOf(tasks, lists, nextId, accels).accels[a].active == lists[ActiveOf(a)]
    ensures MemOf(tasks, lists, nextId, accels).tasks == tasks
  {
  }

  lemma LoadAndTasks(tasks: seq<Task>, tasks': seq<Task>, lists: seq<seq<nat>>, nextId: nat,
                     accels: seq<Accel>, accels': seq<Accel>, a: nat)
    requires |lists| == 1 + 2 * |accels| && |accels'| == |accels| && a < |accels|
    requires forall b :: 0 <= b < |accels| && b != a ==> accels'[b] == accels[b]
    requires accels'[a].loadPercent == LoweredLoad(RaisedLoad(accels[a].loadPercent))
    ensures var m := MemOf(tasks, lists, nextId, accels);
            && |m.accels| == |accels|
            && MemOf(tasks', lists, nextId, accels')
               == SetLoad(m, a, LoweredLoad(RaisedLoad(m.accels[a].load))).(tasks := tasks')
  {
    LoadOnly(tasks, lists, nextId, accels, accels', a, accels'[a].loadPercent);
  }

  lemma TakeAndRelease(m: Mem, a: nat, t: nat, tasks: seq<Task>, j: nat)
    requires a < |m.accels| && m.accels[a].queue != [] && m.accels[a].queue[0] == t < |m.tasks|
    ensures Retire(SetLoad(Dequeue(m, a), a, LoweredLoad(RaisedLoad(Dequeue(m, a).accels[a].load))).(tasks := tasks), a, t)
            == IterationCall(m, a, j).(tasks := tasks)
  {
  }

  lemma Stamped(ws: seq<Write>, ws': seq<Write>)
    requires ws <= ws' && |ws| < |ws'| && CancelsOnly(ws'[|ws|..|ws'| - 1])
    requires Since(ws, A.StateCancelled, STATE_FIELDS)
    requires var w := ws'[|ws'| - 1]; !w.cancel && w.field == A.CompleteTime
    ensures CutShort(ws')
  {
    hide Since, CutShort;
    var w, more := ws'[|ws'| - 1], ws'[|ws|..|ws'| - 1];
    StampCutsShort(ws, more, w);
    assert ws + more + [w] == ws';
  }

  lemma NoLaterStamp(ws: seq<Write>, ws': seq<Write>)
    requires ws <= ws' && NoStamp(ws'[|ws|..])
    ensures CutShort(ws') == CutShort(ws)
  {
    CutShortStays(ws, ws'[|ws|..]);
    assert ws + ws'[|ws|..] == ws';
  }

  class Driver {
    const tasks: array<Task>
    const accels: array<Accel>
    const links: Arena
    var nextTaskId: nat

    ghost predicate Valid()
      reads this, tasks, accels, links, links.next, links.prev
    {
      links.Valid() && links.slots == tasks.Length && links.heads == 1 + 2 * accels.Length
    }

    ghost function View(): Mem
      reads this, tasks, accels, links, links.next, links.prev
      requires Valid()
    {
      MemOf(tasks[..], links.lists, nextTaskId, accels[..])
    }

    /** The device structure as the first part of probe builds it: zeroed, lists empty, then the
        pool and every accelerator initialised. */
    constructor (slots: nat, kinds: seq<nat>)
      ensures Valid() && fresh(tasks) && fresh(accels) && fresh(links) && fresh(links.next) && fresh(links.prev)
      ensures tasks.Length == slots && accels.Length == |kinds|
      ensures View() == InitialMem(slots, |kinds|)
      ensures forall a :: 0 <= a < |kinds| ==> accels[a] == Accel(kinds[a], 1000000000, 40, 0, 0x0001_0000, 0x0200_0000, 0x4000_0000, 0x4000_0000, 2)
    {
      tasks := new Task[slots](i => ZERO_TASK);
      accels := new Accel[|kinds|](a => ZERO_ACCEL);
      links := new Arena(slots, 1 + 2 * |kinds|);
      nextTaskId := 0;
      new;
      TaskPoolInit();
      for a := 0 to |kinds|
        invariant Valid() && tasks[..] == seq(slots, i => ZERO_TASK) && nextTaskId == 0
        invariant links.lists == seq(1 + 2 * |kinds|, h => [])[FREE := Index(slots)]
        invariant forall b :: 0 <= b < a ==> accels[b] == Accel(kinds[b], 1000000000, 40, 0, 0x0001_0000, 0x0200_0000, 0x4000_0000, 0x4000_0000, 2)
      {
        AccelInit(a, kinds[a]);
      }
      assert View().accels == InitialMem(slots, |kinds|).accels;
    }

    /** task_pool_init: every slot, in order, onto the free list. */
    method TaskPoolInit()
      requires Valid() && forall h :: 0 <= h < |links.lists| ==> links.lists[h] == []
      modifies tasks, links`lists, links.next, links.prev
      ensures Valid()
      ensures links.lists == old(links.lists)[FREE := Index(tasks.Length)]
      ensures forall i :: 0 <= i < tasks.Length ==> tasks[i] == old(tasks[..])[i].(state := Free, done := false)
    {
      ghost var before := tasks[..];
      for i := 0 to tasks.Length
        invariant Valid()
        invariant links.lists == old(links.lists)[FREE := Index(i)]
        invariant forall k :: 0 <= k < i ==> tasks[k] == before[k].(state := Free, done := false)
        invariant forall k :: i <= k < tasks.Length ==> tasks[k] == before[k]
      {
        tasks[i] := tasks[i].(state := Free, done := false);
        links.AddTail(FREE, i);
        assert Index(i) + [i] == Index(i + 1);
      }
    }

    /** accel_init: nothing the structure held before survives. To the callers and workers it only
        sets one load to 0: the tasks, the lists and every other accelerator are as before. */
    method AccelInit(a: nat, kind: nat)
      requires Valid() && a < accels.Length
      modifies accels
      ensures Valid() && View() == SetLoad(old(View()), a, 0)
      ensures accels[a] == Accel(kind, 1000000000, 40, 0, 0x0001_0000, 0x0200_0000, 0x4000_0000, 0x4000_0000, 2)
      ensures forall b :: 0 <= b < accels.Length && b != a ==> accels[b] == old(accels[b])
    {
      ghost var before := accels[..];
      accels[a] := accels[a].(kind := kind);
      accels[a] := accels[a].(freqHz := 1000000000);
      accels[a] := accels[a].(tempCelsius := 40);
      accels[a] := accels[a].(loadPercent := 0);
      accels[a] := accels[a].(fwVersion := 0x00010000);
      accels[a] := accels[a].(hwVersion := 0x02000000);
      accels[a] := accels[a].(memTotal := 1024 * 1024 * 1024);
      accels[a] := accels[a].(memFree := 1024 * 1024 * 1024);
      accels[a] := accels[a].(powerState := 2);
      LoadOnly(tasks[..], links.lists, nextTaskId, before, accels[..], a, 0);
    }

    /** task_alloc: NULL exactly when the free list is empty. */
    method TaskAlloc() returns (p: Pointer)
      requires Valid()
      modifies this`nextTaskId, tasks, links`lists, links.next, links.prev
      ensures Valid()
      ensures p.Null? <==> old(View()).free == []
      ensures p.Null? ==> View() == old(View())
      ensures p.Slot? ==> p.t == old(View()).free[0] < tasks.Length && View() == AllocHead(old(View()))
      ensures p.Slot? ==> Off(links.lists, p.t)
      ensures p.Slot? && old(nextTaskId) < 0xffff_ffff ==> tasks[p.t].id == old(nextTaskId) + 1
      ensures p.Slot? && old(nextTaskId) == 0xffff_ffff ==> tasks[p.t].id == 0
    {
      ghost var m := View();
      var empty := links.IsEmpty(FREE);
      if empty {
        return Null;
      }
      var t := links.First(FREE);
      FreeListChange(tasks[..], links.lists, nextTaskId, accels[..], links.lists[FREE][1..]);
      assert RemoveAt(links.lists[FREE], 0) == links.lists[FREE][1..];
      links.Del(t, FREE, 0);
      nextTaskId := (nextTaskId + 1) % U32;
      tasks[t] := ZERO_TASK;
      tasks[t] := tasks[t].(id := nextTaskId);
      assert tasks[..] == m.tasks[t := ZERO_TASK.(id := NextId(m))];
      assert View().accels == m.accels;
      return Slot(t);
    }

    /** task_free: the slot goes to the back of the free list. */
    method TaskFree(t: nat)
      requires Valid() && t < tasks.Length && Off(links.lists, t)
      modifies tasks, links`lists, links.next, links.prev
      ensures Valid() && View() == FreeTask(old(View()), t)
    {
      ghost var m := View();
      FreeListChange(tasks[..], links.lists, nextTaskId, accels[..], links.lists[FREE] + [t]);
      tasks[t] := tasks[t].(state := Free);
      links.AddTail(FREE, t);
      assert tasks[..] == m.tasks[t := m.tasks[t].(state := Free)];
      assert View().accels == m.accels;
    }

    /** task_submit, at jiffies j. */
    method TaskSubmit(t: nat, a: nat, j: nat) returns (ret: int)
      requires Valid() && t < tasks.Length && a < accels.Length && Off(links.lists, t)
      modifies tasks, links`lists, links.next, links.prev
      ensures Valid()
      ensures ret == if old(tasks[t].accelType) >= accels.Length then -EINVAL else 0
      ensures ret != 0 ==> View() == old(View())
      ensures ret == 0 ==> View() == SubmitSlot(old(View()), t, a, j)
    {
      ghost var m := View();
      if tasks[t].accelType >= accels.Length {
        return -EINVAL;
      }
      tasks[t] := tasks[t].(state := Pending);
      tasks[t] := tasks[t].(submitJiffies := j);
      assert tasks[..] == SetSubmit(SetState(m, t, Pending), t, j).tasks;
      ListsChange(tasks[..], links.lists, nextTaskId, accels[..], a, links.lists[QueueOf(a)] + [t]);
      links.AddTail(QueueOf(a), t);
      return 0;
    }

    /** task_query: the first slot that matches, or -ENOENT. */
    method TaskQuery(id: nat, copied: bool) returns (ret: int, status: Status)
      requires Valid()
      ensures ret == -ENOENT <==> FirstMatch(tasks[..], id, 0) == tasks.Length
      ensures ret != -ENOENT ==> ret == if copied then 0 else -EFAULT
      ensures ret != -ENOENT ==> status == StatusFor(tasks[FirstMatch(tasks[..], id, 0)])
    {
      status := StatusFor(ZERO_TASK);
      for i := 0 to tasks.Length
        invariant FirstMatch(tasks[..], id, 0) == FirstMatch(tasks[..], id, i)
      {
        if tasks[i].id == id && tasks[i].state != Free {
          status := Status(tasks[i].id, tasks[i].state,
                           ExecUsec(tasks[i].completeJiffies, tasks[i].submitJiffies), tasks[i].errorCode);
          return if copied then 0 else -EFAULT, status;
        }
      }
      return -ENOENT, status;
    }

    /** task_cancel: the first slot that matches, or -ENOENT. */
    method TaskCancel(id: nat) returns (ret: int)
      requires Valid()
      modifies tasks
      ensures Valid()
      ensures var k := FirstMatch(old(tasks[..]), id, 0);
              if k == tasks.Length then ret == -ENOENT && View() == old(View())
              else ret == 0 && View() == CancelSlot(old(View()), k)
    {
      ghost var m := View();
      for i := 0 to tasks.Length
        invariant tasks[..] == m.tasks && Valid()
        invariant FirstMatch(m.tasks, id, 0) == FirstMatch(m.tasks, id, i)
      {
        if tasks[i].id == id && tasks[i].state != Free {
          tasks[i] := tasks[i].(state := Cancelled);
          tasks[i] := tasks[i].(errorCode := -ECANCELED);
          tasks[i] := tasks[i].(done := true);
          assert tasks[..] == CancelSlot(m, i).tasks;
          return 0;
        }
      }
      return -ENOENT;
    }

    /** accel_get_info: `a` is the accelerator the caller named, and stays in the answer. */
    method AccelGetInfo(a: nat) returns (info: Accel)
      requires Valid() && a < accels.Length
      ensures info.kind == a && info == accels[a].(kind := a)
      ensures info.loadPercent == View().accels[a].load
    {
      info := ZERO_ACCEL.(kind := a);
      info := info.(freqHz := accels[a].freqHz, tempCelsius := accels[a].tempCelsius);
      info := info.(loadPercent := accels[a].loadPercent);
      info := info.(fwVersion := accels[a].fwVersion, hwVersion := accels[a].hwVersion);
      info := info.(memTotal := accels[a].memTotal, memFree := accels[a].memFree, powerState := accels[a].powerState);
    }

    /** The SUBMIT_TASK ioctl. The first check that fails decides the answer, and then nothing has
        changed; a failed copy-out leaves the task queued. */
    method IoctlSubmit(d: Desc, copiedIn: bool, copiedOut: bool, j: nat) returns (ret: int, taskId: nat)
      requires Valid()
      modifies this`nextTaskId, tasks, links`lists, links.next, links.prev
      ensures Valid()
      ensures !copiedIn ==> ret == -14
      ensures copiedIn && d.accelType >= accels.Length ==> ret == -22
      ensures copiedIn && d.accelType < accels.Length && d.flags != 0 ==> ret == -22
      ensures copiedIn && d.accelType < accels.Length && d.flags == 0 && d.inputSize > 67108864 ==> ret == -7
      ensures copiedIn && d.accelType < accels.Length && d.flags == 0 && d.outputSize > 67108864 ==> ret == -7
      ensures (copiedIn && d.accelType < accels.Length && d.flags == 0
               && d.inputSize <= 67108864 && d.outputSize <= 67108864) ==>
                if old(View()).free == [] then ret == -12
                else
                  && old(View()).free[0] < tasks.Length
                  && View() == SubmitCall(old(View()), d, j)
                  && taskId == NextId(old(View()))
                  && ret == if copiedOut then 0 else -14
      ensures View() != old(View()) ==>
                && copiedIn && d.accelType < accels.Length && d.flags == 0
                && d.inputSize <= 67108864 && d.outputSize <= 67108864 && old(View()).free != []
    {
      ghost var m := View();
      taskId := 0;
      if !copiedIn {
        return -EFAULT, taskId;
      }
      if d.accelType >= accels.Length {
        return -EINVAL, taskId;
      }
      if d.flags != 0 {
        return -EINVAL, taskId;
      }
      if d.inputSize > MAX_BUFFER {
        return -E2BIG, taskId;
      }
      if d.outputSize > MAX_BUFFER {
        return -E2BIG, taskId;
      }
      var p := TaskAlloc();
      if p.Null? {
        return -ENOMEM, taskId;
      }
      var t := p.t;
      ghost var n := View();
      FillSlot(t, d);
      ret := TaskSubmit(t, d.accelType, j);
      assert ret == 0;  // so task_free is not reached: the descriptor's type was checked above
      taskId := tasks[t].id;
      ret := if copiedOut then 0 else -EFAULT;
    }

    /** The seven assignments between task_alloc and task_submit. */
    method FillSlot(t: nat, d: Desc)
      requires Valid() && t < tasks.Length
      modifies tasks
      ensures Valid() && View() == Put(old(View()), t, Filled(old(View()).tasks[t], d))
      ensures tasks[t].accelType == d.accelType
    {
      ghost var m := View();
      tasks[t] := tasks[t].(accelType := d.accelType);
      tasks[t] := tasks[t].(priority := d.priority);
      tasks[t] := tasks[t].(inputAddr := d.inputAddr);
      tasks[t] := tasks[t].(inputSize := d.inputSize);
      tasks[t] := tasks[t].(outputAddr := d.outputAddr);
      tasks[t] := tasks[t].(outputSize := d.outputSize);
      tasks[t] := tasks[t].(timeoutMs := d.timeoutMs);
      assert tasks[..] == m.tasks[t := Filled(m.tasks[t], d)];
    }

    // ---- The worker, with cancels and stop requests at any moment ----

    /** Other threads run between two statements of the worker: they may cancel the task of slot t,
        some cancels only in part, cancel other tasks too, or ask the worker to stop. */
    method Others(t: nat, env: Environment)
      requires Valid() && env.Valid() && t < tasks.Length
      modifies tasks, env`stop, env`writes, env`napsAtCancel
      ensures Valid() && env.Valid() && (old(env.stop) ==> env.stop)
      ensures Carried(old(tasks[..]), tasks[..], t, old(env.writes), env.writes)
      ensures CancelsOnly(env.writes[|old(env.writes)|..])
      ensures old(tasks[t].state) != Cancelled && tasks[t].state == Cancelled ==> env.napsAtCancel == env.naps
      ensures old(tasks[t].state) == Cancelled || tasks[t].state != Cancelled ==> env.napsAtCancel == old(env.napsAtCancel)
    {
      hide After, Touched, WorkerPart, Since, CutShort;
      ghost var xs, ws := tasks[..], env.writes;
      CancelOthers(t);
      CarriedNothing(tasks[..], t, ws);
      var n: nat :| n >= 0;
      for k := 0 to n
        invariant Valid() && env.Valid() && env.stop == old(env.stop)
        invariant Carried(xs, tasks[..], t, ws, env.writes) && CancelsOnly(env.writes[|ws|..])
        invariant xs[t].state == Cancelled ==> tasks[t].state == Cancelled
        invariant xs[t].state != Cancelled && tasks[t].state == Cancelled ==> env.napsAtCancel == env.naps
        invariant xs[t].state == Cancelled || tasks[t].state != Cancelled ==> env.napsAtCancel == old(env.napsAtCancel)
      {
        ghost var ys, us := tasks[..], env.writes;
        CancelOnce(t, env);
        ghost var w := env.writes[|us|];
        assert env.writes == us + [w];
        CarriedOnce(ys, t, us, w);
        CarriedTwice(xs, ys, tasks[..], t, ws, us, env.writes);
        assert env.writes[|ws|..] == us[|ws|..] + [w];
      }
      env.MayStop();
    }

    /** Cancels of other tasks. */
    method CancelOthers(t: nat)
      requires Valid() && t < tasks.Length
      modifies tasks
      ensures Valid() && tasks[t] == old(tasks[t])
      ensures forall i :: 0 <= i < tasks.Length ==> Touched(old(tasks[i]), tasks[i])
    {
      for i := 0 to tasks.Length
        invariant Valid() && tasks[t] == old(tasks[t])
        invariant forall k :: 0 <= k < tasks.Length ==> Touched(old(tasks[k]), tasks[k])
      {
        if i != t {
          var state: bool, error: bool, signal: bool := *, *, *;
          tasks[i] := tasks[i].(state := if state then Cancelled else tasks[i].state,
                                errorCode := if error then -ECANCELED else tasks[i].errorCode,
                                done := tasks[i].done || signal);
        }
      }
    }

    /** One of the three assignments of a cancel. */
    method CancelOnce(t: nat, env: Environment)
      requires Valid() && env.Valid() && t < tasks.Length
      modifies tasks, env`writes, env`napsAtCancel
      ensures Valid() && env.Valid()
      ensures |env.writes| == |old(env.writes)| + 1 && env.writes[..|old(env.writes)|] == old(env.writes)
      ensures var w := env.writes[|old(env.writes)|];
              && w.cancel && w.field in CANCEL_FIELDS
              && tasks[..] == old(tasks[..])[t := A.Written(old(tasks[t]), w.field, w.tick)]
      ensures env.napsAtCancel == if old(tasks[t].state) != Cancelled && tasks[t].state == Cancelled then env.naps
                                  else old(env.napsAtCancel)
    {
      var state: bool, error: bool := *, *;
      if state {
        env.NoteCancel(A.StateCancelled, tasks[t].state != Cancelled);
        tasks[t] := tasks[t].(state := Cancelled);
      } else if error {
        env.NoteCancel(A.CancelError, false);
        tasks[t] := tasks[t].(errorCode := -ECANCELED);
      } else {
        env.NoteCancel(A.DoneSignal, false);
        tasks[t] := tasks[t].(done := true);
      }
    }

    /** One assignment of the worker to its task's record. */
    method Store(t: nat, f: A.Field, env: Environment)
      requires Valid() && env.Valid() && t < tasks.Length
      requires f != A.StateCancelled && f != A.CancelError
      modifies tasks, env`writes
      ensures Valid() && env.Valid()
      ensures tasks[..] == old(tasks[..])[t := A.Written(old(tasks[t]), f, env.now)]
      ensures env.writes == old(env.writes) + [Write(false, f, env.now)]
    {
      match f {
        case StateRunning => tasks[t] := tasks[t].(state := TaskState.Running);
        case CompleteTime => tasks[t] := tasks[t].(completeJiffies := Jiffies(env.now));
        case StateComplete => tasks[t] := tasks[t].(state := Complete);
        case NoError => tasks[t] := tasks[t].(errorCode := 0);
        case DoneSignal => tasks[t] := tasks[t].(done := true);
      }
      env.Note(f);
    }

    /** The same after whatever other threads do before it. */
    method Assign(t: nat, f: A.Field, env: Environment)
      requires Valid() && env.Valid() && t < tasks.Length
      requires f != A.StateCancelled && f != A.CancelError
      modifies tasks, env`stop, env`writes, env`napsAtCancel
      ensures Valid() && env.Valid() && (old(env.stop) ==> env.stop)
      ensures Carried(old(tasks[..]), tasks[..], t, old(env.writes), env.writes)
      ensures WorkerPart(env.writes[|old(env.writes)|..]) == [Write(false, f, env.now)]
      ensures |env.writes| > |old(env.writes)| && env.writes[|env.writes| - 1] == Write(false, f, env.now)
      ensures CancelsOnly(env.writes[|old(env.writes)|..|env.writes| - 1])
      ensures f.StateRunning? ==> tasks[t].state == TaskState.Running
    {
      hide After, Touched, WorkerPart, Since, CutShort;
      ghost var xs, ws := tasks[..], env.writes;
      Others(t, env);
      ghost var ys, us := tasks[..], env.writes;
      CancelsAreNotTheWorkers(us[|ws|..]);
      Store(t, f, env);
      CarriedOnce(ys, t, us, Write(false, f, env.now));
      CarriedTwice(xs, ys, tasks[..], t, ws, us, env.writes);
      assert env.writes[|ws|..|env.writes| - 1] == us[|ws|..];
    }

    /** The first locked region: off the queue, onto the active list. */
    method TakeFirst(a: nat, t: nat)
      requires Valid() && a < accels.Length && links.lists[QueueOf(a)] != [] && t == links.lists[QueueOf(a)][0]
      modifies links`lists, links.next, links.prev
      ensures Valid() && View() == Dequeue(old(View()), a)
      ensures t < tasks.Length
      ensures links.lists[ActiveOf(a)] == old(links.lists[ActiveOf(a)]) + [t] && t !in old(links.lists[ActiveOf(a)])
    {
      ghost var queue := links.lists[QueueOf(a)];
      ListsChange(tasks[..], links.lists, nextTaskId, accels[..], a, queue[1..]);
      assert RemoveAt(queue, 0) == queue[1..];
      links.Del(t, QueueOf(a), 0);
      ListsChange(tasks[..], links.lists, nextTaskId, accels[..], a, links.lists[ActiveOf(a)] + [t]);
      links.AddTail(ActiveOf(a), t);
    }

    /** The second locked region: off the active list, whose last node it is. */
    method Release(a: nat, t: nat)
      requires Valid() && a < accels.Length && links.lists[ActiveOf(a)] != []
      requires var active := links.lists[ActiveOf(a)];
               active[|active| - 1] == t && t !in active[..|active| - 1]
      modifies links`lists, links.next, links.prev
      ensures Valid() && View() == Retire(old(View()), a, t)
    {
      ghost var active := links.lists[ActiveOf(a)];
      ghost var last := |active| - 1;
      assert active[..last] + [t] == active;
      WithoutLast(active[..last], t);
      assert RemoveAt(active, last) == active[..last];
      ListsChange(tasks[..], links.lists, nextTaskId, accels[..], a, active[..last]);
      links.Del(t, ActiveOf(a), last);
    }

    /** The task is started: RUNNING, and the load raised. */
    method StartTask(a: nat, t: nat, env: Environment)
      requires Valid() && env.Valid() && a < accels.Length && t < tasks.Length
      modifies tasks, accels, env`stop, env`writes, env`napsAtCancel
      ensures Valid() && env.Valid() && (old(env.stop) ==> env.stop)
      ensures Carried(old(tasks[..]), tasks[..], t, old(env.writes), env.writes)
      ensures WorkerPart(env.writes[|old(env.writes)|..]) == [Write(false, A.StateRunning, env.now)]
      ensures tasks[t].state == TaskState.Running || (tasks[t].state == Cancelled && env.napsAtCancel == env.naps)
      ensures accels[..] == old(accels[..])[a := old(accels[a]).(loadPercent := RaisedLoad(old(accels[a]).loadPercent))]
      ensures accels[a].loadPercent == if old(accels[a].loadPercent) <= 90 then old(accels[a].loadPercent) + 10 else 100
    {
      hide After, Touched, WorkerPart, Since, CutShort;
      ghost var xs, ws := tasks[..], env.writes;
      Assign(t, A.StateRunning, env);
      ghost var ys, us := tasks[..], env.writes;
      Others(t, env);
      CancelsAreNotTheWorkers(env.writes[|us|..]);
      CarriedTwice(xs, ys, tasks[..], t, ws, us, env.writes);
      OnlyCancelled(ys, tasks[..], t, us, env.writes);
      var load := if accels[a].loadPercent + 10 < 100 then accels[a].loadPercent + 10 else 100;
      accels[a] := accels[a].(loadPercent := load);
    }

    /** The deadline loop. It always ends. Without a cancel or a stop request it ends at least the
        timeout and fewer than timeout + slack ticks after it began, although it compares wrapped
        counters; after a cancel or a stop request there is at most one more sleep. */
    method DeadlineWait(t: nat, env: Environment, slack: nat)
      requires Valid() && env.Valid() && t < tasks.Length && 1 <= slack < U64 / 2
      requires tasks[t].timeoutMs > 0 && tasks[t].state in {TaskState.Running, Cancelled}
      modifies tasks, env
      ensures Valid() && env.Valid() && env.now >= old(env.now) && (old(env.stop) ==> env.stop)
      ensures Carried(old(tasks[..]), tasks[..], t, old(env.writes), env.writes)
      ensures CancelsOnly(env.writes[|old(env.writes)|..])
      ensures env.now - old(env.now) < Ticks(old(tasks[t].timeoutMs)) + slack
      ensures env.now - old(env.now) >= Ticks(old(tasks[t].timeoutMs)) || tasks[t].state == Cancelled || env.stop
      ensures var elapsed, ms := env.now - old(env.now), old(tasks[t].timeoutMs);
              && (1000 * elapsed >= ms * HZ || tasks[t].state == Cancelled || env.stop)
              && (ms < 0x8000_0000 ==> 1000 * elapsed < ms * HZ + 1000 * slack)
      ensures old(tasks[t].state) == TaskState.Running && tasks[t].state == Cancelled ==> env.naps <= env.napsAtCancel + 1
      ensures old(tasks[t].state) == Cancelled ==> env.naps == old(env.naps)
      ensures old(env.stop) ==> env.naps <= old(env.naps) + 1
    {
      hide After, Touched, WorkerPart, Since, CutShort;
      TicksBound(tasks[t].timeoutMs);
      TicksAreMilliseconds(tasks[t].timeoutMs);
      TicksAtLeast(tasks[t].timeoutMs);
      TicksPositive(1);
      OneMillisecond();
      var timeout := Ticks(tasks[t].timeoutMs);
      var start := Jiffies(env.now);
      ghost var xs, ws := tasks[..], env.writes;
      ghost var begin, naps0 := env.now, env.naps;
      CarriedNothing(xs, t, ws);
      while true
        invariant Valid() && env.Valid() && begin <= env.now && (old(env.stop) ==> env.stop)
        invariant Carried(xs, tasks[..], t, ws, env.writes) && CancelsOnly(env.writes[|ws|..])
        invariant tasks[t].state in {TaskState.Running, Cancelled}
        invariant env.now == begin || env.now - begin < timeout + slack
        invariant xs[t].state == Cancelled ==> tasks[t].state == Cancelled && env.naps == naps0
        invariant xs[t].state == TaskState.Running && tasks[t].state == Cancelled ==> env.naps <= env.napsAtCancel + 1
        invariant old(env.stop) ==> env.naps == naps0
        decreases begin + timeout - env.now
      {
        ElapsedIsExact(begin, env.now);
        if !(JiffiesSince(Jiffies(env.now), start) < timeout) {
          break;
        }
        if tasks[t].state != TaskState.Running {
          break;
        }
        OthersOnce(xs, ws, t, env);
        env.Sleep(1, slack);
        OthersOnce(xs, ws, t, env);
        if env.stop {
          break;
        }
      }
    }

    /** Others, as one more stretch of what has happened since xs and ws. */
    method OthersOnce(ghost xs: seq<Task>, ghost ws: seq<Write>, t: nat, env: Environment)
      requires Valid() && env.Valid() && t < tasks.Length
      requires Carried(xs, tasks[..], t, ws, env.writes) && CancelsOnly(env.writes[|ws|..])
      modifies tasks, env`stop, env`writes, env`napsAtCancel
      ensures Valid() && env.Valid() && (old(env.stop) ==> env.stop)
      ensures Carried(xs, tasks[..], t, ws, env.writes) && CancelsOnly(env.writes[|ws|..])
      ensures tasks[t].state == old(tasks[t].state) || tasks[t].state == Cancelled
      ensures old(tasks[t].state) != Cancelled && tasks[t].state == Cancelled ==> env.napsAtCancel == env.naps
      ensures old(tasks[t].state) == Cancelled || tasks[t].state != Cancelled ==> env.napsAtCancel == old(env.napsAtCancel)
    {
      hide After, Touched, WorkerPart, Since, CutShort;
      ghost var ys, us := tasks[..], env.writes;
      Others(t, env);
      CarriedTwice(xs, ys, tasks[..], t, ws, us, env.writes);
      OnlyCancelled(ys, tasks[..], t, us, env.writes);
      assert env.writes[|ws|..] == us[|ws|..] + env.writes[|us|..];
    }

    /** Assign, as one more stretch of what has happened since xs and ws. */
    method AssignOnce(ghost xs: seq<Task>, ghost ws: seq<Write>, t: nat, f: A.Field, env: Environment)
      requires Valid() && env.Valid() && t < tasks.Length
      requires f != A.StateCancelled && f != A.CancelError && f != A.CompleteTime
      requires Carried(xs, tasks[..], t, ws, env.writes)
      modifies tasks, env`stop, env`writes, env`napsAtCancel
      ensures Valid() && env.Valid() && (old(env.stop) ==> env.stop)
      ensures Carried(xs, tasks[..], t, ws, env.writes)
      ensures WorkerPart(env.writes[|ws|..]) == WorkerPart(old(env.writes)[|ws|..]) + [Write(false, f, env.now)]
      ensures CutShort(env.writes) == CutShort(old(env.writes))
    {
      hide After, Touched, WorkerPart, Since, CutShort;
      ghost var ys, us := tasks[..], env.writes;
      Assign(t, f, env);
      CarriedTwice(xs, ys, tasks[..], t, ws, us, env.writes);
      ghost var more := env.writes[|us|..];
      assert more[..|more| - 1] == env.writes[|us|..|env.writes| - 1];
      NoLaterStamp(us, env.writes);
    }

    /** Stamp, COMPLETE and error code. */
    method WriteResult(t: nat, env: Environment)
      requires Valid() && env.Valid() && t < tasks.Length
      modifies tasks, env`stop, env`writes, env`napsAtCancel
      ensures Valid() && env.Valid() && (old(env.stop) ==> env.stop)
      ensures Carried(old(tasks[..]), tasks[..], t, old(env.writes), env.writes)
      ensures WorkerPart(env.writes[|old(env.writes)|..]) == IterationWrites(0, env.now)[1..4]
      ensures Since(old(env.writes), A.StateCancelled, STATE_FIELDS) ==> CutShort(env.writes)
    {
      hide After, Touched, WorkerPart, Since, CutShort, MemOf, Proper;
      ghost var xs, ws := tasks[..], env.writes;
      Assign(t, A.CompleteTime, env);
      if Since(ws, A.StateCancelled, STATE_FIELDS) {
        Stamped(ws, env.writes);
      }
      AssignOnce(xs, ws, t, A.StateComplete, env);
      AssignOnce(xs, ws, t, A.NoError, env);
    }

    /** The task is finished: stamp, COMPLETE, error, load, completion. */
    method FinishTask(a: nat, t: nat, env: Environment)
      requires Valid() && env.Valid() && a < accels.Length && t < tasks.Length
      modifies tasks, accels, env`stop, env`writes, env`napsAtCancel
      ensures Valid() && env.Valid() && (old(env.stop) ==> env.stop)
      ensures Carried(old(tasks[..]), tasks[..], t, old(env.writes), env.writes)
      ensures WorkerPart(env.writes[|old(env.writes)|..]) == IterationWrites(0, env.now)[1..]
      ensures Since(old(env.writes), A.StateCancelled, STATE_FIELDS) ==> CutShort(env.writes)
      ensures accels[..] == old(accels[..])[a := old(accels[a]).(loadPercent := LoweredLoad(old(accels[a]).loadPercent))]
      ensures accels[a].loadPercent == if old(accels[a].loadPercent) >= 10 then old(accels[a].loadPercent) - 10 else 0
    {
      hide After, Touched, WorkerPart, Since, CutShort, MemOf, Proper;
      ghost var xs, ws := tasks[..], env.writes;
      WriteResult(t, env);
      var load := if accels[a].loadPercent - 10 > 0 then accels[a].loadPercent - 10 else 0;
      accels[a] := accels[a].(loadPercent := load);
      AssignOnce(xs, ws, t, A.DoneSignal, env);
      ghost var ys, us := tasks[..], env.writes;
      Others(t, env);
      CancelsAreNotTheWorkers(env.writes[|us|..]);
      CarriedTwice(xs, ys, tasks[..], t, ws, us, env.writes);
      NoLaterStamp(us, env.writes);
    }

    /** One turn of the worker's loop, from taking the lock to dropping it the second time, while
        cancels write the task's record, wholly or in part, and anybody may ask the worker to stop,
        between any two of its statements. What survives is exact: CANCELLED exactly if a cancel
        wrote the state after COMPLETE, -ECANCELED exactly if one wrote the error after it was
        cleared; so COMPLETE with -ECANCELED is possible, and so is CANCELLED with 0. */
    method WorkerIteration(a: nat, env: Environment, slack: nat) returns (p: Pointer, ghost stamp: nat)
      requires Valid() && a < accels.Length && env.Valid() && env.writes == []
      requires Ticks(10) < slack < U64 / 2
      modifies tasks, accels, links`lists, links.next, links.prev, env
      ensures Valid() && env.Valid()
      ensures p.Null? <==> old(View()).accels[a].queue == []
      ensures p.Null? ==> View() == old(View())
      ensures p.Slot? ==> p.t == old(View()).accels[a].queue[0] < tasks.Length
      ensures p.Slot? ==> View() == IterationCall(old(View()), a, Jiffies(stamp)).(tasks := tasks[..])
      ensures p.Slot? ==> WorkerPart(env.writes) == IterationWrites(old(env.now), stamp)
      ensures p.Slot? ==> tasks[p.t] == old(tasks[..])[p.t].(
                            state := if Since(env.writes, A.StateCancelled, STATE_FIELDS) then Cancelled else Complete,
                            errorCode := if Since(env.writes, A.CancelError, {A.NoError}) then -ECANCELED else 0,
                            completeJiffies := Jiffies(stamp),
                            done := true)
      ensures p.Slot? ==> forall i :: 0 <= i < tasks.Length && i != p.t ==> Touched(old(tasks[i]), tasks[i])
      ensures p.Slot? ==>
                && old(env.now) <= stamp == env.now
                && stamp - old(env.now) < MinRun(old(tasks[..])[p.t].timeoutMs) + slack
                && (CutShort(env.writes) || env.stop || stamp - old(env.now) >= MinRun(old(tasks[..])[p.t].timeoutMs))
      ensures p.Slot? ==>
                var elapsed, ms := stamp - old(env.now), old(tasks[..])[p.t].timeoutMs;
                var runMs := if ms > 0 then ms else 10;
                && (CutShort(env.writes) || env.stop || 1000 * elapsed >= runMs * HZ)
                && (ms < 0x8000_0000 ==> 1000 * elapsed < runMs * HZ + 1000 * slack)
    {
      hide After, Touched, WorkerPart, Since, CutShort, Carried, MemOf, IterationCall, Retire, Dequeue;
      stamp := env.now;
      var empty := links.IsEmpty(QueueOf(a));
      if empty {
        MemOfHas(tasks[..], links.lists, nextTaskId, accels[..], a);
        return Null, stamp;
      }
      var t := links.First(QueueOf(a));
      MemOfHas(tasks[..], links.lists, nextTaskId, accels[..], a);
      ghost var m, xs := View(), tasks[..];
      MinRunIsMilliseconds(tasks[t].timeoutMs);
      TakeFirst(a, t);
      stamp := Execute(a, t, env, slack);
      Release(a, t);
      TakeAndRelease(m, a, t, tasks[..], Jiffies(stamp));
      return Slot(t), stamp;
    }

    /** Between the two locked regions. */
    method Execute(a: nat, t: nat, env: Environment, slack: nat) returns (ghost stamp: nat)
      requires Valid() && env.Valid() && a < accels.Length && t < tasks.Length && env.writes == []
      requires Ticks(10) < slack < U64 / 2
      modifies tasks, accels, env
      ensures Valid() && env.Valid()
      ensures View() == SetLoad(old(View()), a, LoweredLoad(RaisedLoad(old(View()).accels[a].load))).(tasks := tasks[..])
      ensures WorkerPart(env.writes) == IterationWrites(old(env.now), stamp)
      ensures tasks[t] == old(tasks[t]).(
                state := if Since(env.writes, A.StateCancelled, STATE_FIELDS) then Cancelled else Complete,
                errorCode := if Since(env.writes, A.CancelError, {A.NoError}) then -ECANCELED else 0,
                completeJiffies := Jiffies(stamp),
                done := true)
      ensures forall i :: 0 <= i < tasks.Length && i != t ==> Touched(old(tasks[i]), tasks[i])
      ensures old(env.now) <= stamp == env.now < old(env.now) + MinRun(old(tasks[t].timeoutMs)) + slack
      ensures CutShort(env.writes) || env.stop || stamp - old(env.now) >= MinRun(old(tasks[t].timeoutMs))
    {
      hide After, Touched, WorkerPart, Since, CutShort, MemOf;
      ghost var xs, before := tasks[..], accels[..];
      RunTask(a, t, env, slack);
      stamp := env.now;
      ghost var us := env.writes;
      ghost var ys := tasks[..];
      FinishTask(a, t, env);
      CarriedTwice(xs, ys, tasks[..], t, [], us, env.writes);
      assert env.writes[0..] == env.writes && us[0..] == us;
      Survivors(xs[t], env.writes, old(env.now), stamp);
      LoadAndTasks(xs, tasks[..], links.lists, nextTaskId, before, accels[..], a);
    }

    /** From RUNNING to the moment before the completion time is taken. */
    method RunTask(a: nat, t: nat, env: Environment, slack: nat)
      requires Valid() && env.Valid() && a < accels.Length && t < tasks.Length && env.writes == []
      requires Ticks(10) < slack < U64 / 2
      modifies tasks, accels, env
      ensures Valid() && env.Valid()
      ensures Carried(old(tasks[..]), tasks[..], t, [], env.writes)
      ensures WorkerPart(env.writes) == [Write(false, A.StateRunning, old(env.now))]
      ensures accels[..] == old(accels[..])[a := old(accels[a]).(loadPercent := RaisedLoad(old(accels[a]).loadPercent))]
      ensures old(env.now) <= env.now < old(env.now) + MinRun(old(tasks[t].timeoutMs)) + slack
      ensures || Since(env.writes, A.StateCancelled, STATE_FIELDS) || env.stop
              || env.now - old(env.now) >= MinRun(old(tasks[t].timeoutMs))
    {
      hide After, Touched, WorkerPart, Since, CutShort;
      ghost var xs := tasks[..];
      StartTask(a, t, env);
      ghost var ys, us := tasks[..], env.writes;
      SameTimeout(xs, ys, t, us);
      if tasks[t].timeoutMs > 0 {
        DeadlineWait(t, env, slack);
      } else {
        CarriedNothing(ys, t, us);
        OthersOnce(ys, us, t, env);
        env.Sleep(10, slack - 1);
        OthersOnce(ys, us, t, env);
      }
      CancelsAreNotTheWorkers(env.writes[|us|..]);
      CarriedTwice(xs, ys, tasks[..], t, [], us, env.writes);
      assert env.writes[0..] == env.writes && us[0..] == us;
      CancelledShows(xs[t], env.writes, old(env.now));
    }
  }
}
