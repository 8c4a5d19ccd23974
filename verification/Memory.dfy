/** The memory that clients and workers share, and the effect of each assignment or locked
    region of the source on it. The step system and the imperative methods both use these. */
module Memory {
  import opened Types

  /** The parts of an accelerator that tasks pass through: two lists and the load figure. */
  datatype AccelMem = AccelMem(queue: seq<nat>, active: seq<nat>, load: int)

  datatype Mem = Mem(tasks: seq<Task>, free: seq<nat>, nextId: nat, accels: seq<AccelMem>)

  ghost predicate Slots(s: seq<nat>, n: nat) {
    forall i :: 0 <= i < |s| ==> s[i] < n
  }

  ghost predicate Distinct(s: seq<nat>) {
    forall i, j :: 0 <= i < j < |s| ==> s[i] != s[j]
  }

  ghost predicate AccelShape(m: Mem, a: nat)
    requires a < |m.accels|
  {
    Slots(m.accels[a].queue, |m.tasks|) && Slots(m.accels[a].active, |m.tasks|)
  }

  /** Every list holds slot numbers. */
  ghost predicate MemShape(m: Mem) {
    && Slots(m.free, |m.tasks|)
    && (forall a :: 0 <= a < |m.accels| ==> AccelShape(m, a))
  }

  function Index(n: nat): (s: seq<nat>)
    ensures |s| == n && forall i :: 0 <= i < n ==> s[i] == i
  {
    seq(n, i => i)
  }

  /** What kzalloc, task_pool_init and accel_init leave: n zeroed slots, all free. */
  function InitialMem(n: nat, accels: nat): Mem {
    Mem(seq(n, i => ZERO_TASK), Index(n), 0, seq(accels, a => AccelMem([], [], 0)))
  }

  function Put(m: Mem, t: nat, x: Task): Mem
    requires t < |m.tasks|
  {
    m.(tasks := m.tasks[t := x])
  }

  // ---- Pool and client effects ----

  function NextId(m: Mem): nat {
    (m.nextId + 1) % U32
  }

  /** The locked region of task_alloc when the free list is not empty. */
  function AllocHead(m: Mem): Mem
    requires m.free != [] && m.free[0] < |m.tasks|
  {
    Put(m, m.free[0], ZERO_TASK.(id := NextId(m))).(free := m.free[1..], nextId := NextId(m))
  }

  function Filled(x: Task, d: Desc): Task {
    x.(accelType := d.accelType, priority := d.priority,
       inputAddr := d.inputAddr, inputSize := d.inputSize,
       outputAddr := d.outputAddr, outputSize := d.outputSize,
       timeoutMs := d.timeoutMs)
  }

  function FreeTask(m: Mem, t: nat): Mem
    requires t < |m.tasks|
  {
    Put(m, t, m.tasks[t].(state := Free)).(free := m.free + [t])
  }

  function SetState(m: Mem, t: nat, st: TaskState): Mem
    requires t < |m.tasks|
  {
    Put(m, t, m.tasks[t].(state := st))
  }

  function SetError(m: Mem, t: nat, code: int): Mem
    requires t < |m.tasks|
  {
    Put(m, t, m.tasks[t].(errorCode := code))
  }

  function SetSubmit(m: Mem, t: nat, j: nat): Mem
    requires t < |m.tasks|
  {
    Put(m, t, m.tasks[t].(submitJiffies := j))
  }

  function SetComplete(m: Mem, t: nat, j: nat): Mem
    requires t < |m.tasks|
  {
    Put(m, t, m.tasks[t].(completeJiffies := j))
  }

  /** complete_all */
  function SetDone(m: Mem, t: nat): Mem
    requires t < |m.tasks|
  {
    Put(m, t, m.tasks[t].(done := true))
  }

  function PutAccel(m: Mem, a: nat, x: AccelMem): Mem
    requires a < |m.accels|
  {
    m.(accels := m.accels[a := x])
  }

  function Enqueue(m: Mem, a: nat, t: nat): Mem
    requires a < |m.accels|
  {
    PutAccel(m, a, m.accels[a].(queue := m.accels[a].queue + [t]))
  }

  // ---- Worker effects ----

  /** The first locked region of the worker when its queue is not empty. */
  function Dequeue(m: Mem, a: nat): Mem
    requires a < |m.accels| && m.accels[a].queue != []
  {
    var x := m.accels[a];
    PutAccel(m, a, x.(queue := x.queue[1..], active := x.active + [x.queue[0]]))
  }

  /** list_del seen as an operation on the list's contents. */
  function Without(s: seq<nat>, t: nat): (r: seq<nat>)
    ensures |r| <= |s|
    ensures forall i :: 0 <= i < |r| ==> r[i] in s
  {
    if s == [] then [] else if s[0] == t then s[1..] else [s[0]] + Without(s[1..], t)
  }

  /** The second locked region of the worker. */
  function Retire(m: Mem, a: nat, t: nat): Mem
    requires a < |m.accels|
  {
    PutAccel(m, a, m.accels[a].(active := Without(m.accels[a].active, t)))
  }

  function SetLoad(m: Mem, a: nat, load: int): Mem
    requires a < |m.accels|
  {
    PutAccel(m, a, m.accels[a].(load := load))
  }

  function RaisedLoad(load: int): int {
    if load + 10 < 100 then load + 10 else 100
  }

  function LoweredLoad(load: int): int {
    if load - 10 > 0 then load - 10 else 0
  }

  // ---- Lock-free scan ----

  /** The test both scans make on each slot. */
  predicate Matches(x: Task, id: nat) {
    x.id == id && x.state != Free
  }

  /** The checks cortex_forge_ioctl makes on a descriptor before it allocates: 0, or the error. */
  function Validate(d: Desc, accels: nat): int {
    if d.accelType >= accels then -EINVAL
    else if d.flags != 0 then -EINVAL
    else if d.inputSize > MAX_BUFFER then -E2BIG
    else if d.outputSize > MAX_BUFFER then -E2BIG
    else 0
  }
}
