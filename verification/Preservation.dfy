/** Every step of every thread keeps the invariant. */
module Preservation {
  import opened Types
  import opened Memory
  import opened Steps
  import opened Invariant

  ghost predicate SameShape(s: State, s': State) {
    && Shape(s) && Shape(s')
    && |s.hist| == |s'.hist|
    && |s.workers| == |s'.workers|
    && |s.clients| == |s'.clients|
  }

  // ---- How one slot may change under other threads' feet ----

  /** What the other threads rely on across any step. */
  ghost predicate Evolves(s: State, s': State, i: nat)
    requires i < |s.hist| == |s'.hist|
  {
    var h, h' := s.hist[i], s'.hist[i];
    && h.phase.Rank() <= h'.phase.Rank()
    && (h.phase.Rank() >= 9 ==> h'.doneTick == h.doneTick)
    && (h.phase.Rank() >= 3 ==> h'.submitTick == h.submitTick)
  }

  /** Nobody but its owner moves a slot that a client is filling or submitting. */
  ghost predicate OwnedKept(s: State, s': State, c: nat, i: nat)
    requires SameShape(s, s') && i < |s.hist|
  {
    s.hist[i].phase.Owned() && s.hist[i].phase.c == c ==>
      s'.hist[i].phase == s.hist[i].phase && s'.mem.tasks[i].accelType == s.mem.tasks[i].accelType
  }

  lemma ClientKept(s: State, s': State, c: nat, pc: ClientPc)
    requires SameShape(s, s') && ClientShape(s, pc) && ClientShape(s', pc)
    requires ClientOk(s, c, pc)
    requires forall i {:trigger s.hist[i]} :: 0 <= i < |s.hist| ==> OwnedKept(s, s', c, i)
    requires forall i {:trigger s.hist[i]} :: 0 <= i < |s.hist| ==> Evolves(s, s', i)
    ensures ClientOk(s', c, pc)
  {
  }

  /** A slot no step touched. */
  ghost predicate SlotSame(s: State, s': State, i: nat)
    requires SameShape(s, s') && i < |s.hist|
  {
    && s'.mem.tasks[i] == s.mem.tasks[i]
    && s'.hist[i] == s.hist[i]
    && (i >= s.mem.nextId <==> i >= s'.mem.nextId)
    && s.now <= s'.now
  }

  ghost predicate LogsGrow(s: State, s': State)
    requires SameShape(s, s')
  {
    forall a :: 0 <= a < |s.workers| ==> s.workers[a].log <= s'.workers[a].log
  }

  lemma SlotKept(s: State, s': State, i: nat)
    requires SameShape(s, s') && i < |s.hist| && SlotOk(s, i)
    requires SlotSame(s, s', i)
    requires LogsGrow(s, s')
    requires s.hist[i].phase.Owned() ==> OwnerPc(s'.clients[s.hist[i].phase.c], s.hist[i].phase, i)
    ensures SlotOk(s', i)
  {
  }

  /** All that an accelerator's invariant reads of a slot. */
  ghost predicate SlotForAccel(s: State, s': State, i: nat)
    requires SameShape(s, s') && i < |s.hist|
  {
    var x, x', h, h' := s.mem.tasks[i], s'.mem.tasks[i], s.hist[i], s'.hist[i];
    && h'.phase == h.phase
    && x'.timeoutMs == x.timeoutMs
    && x'.accelType == x.accelType
    && h'.startTick == h.startTick
    && (h.disturbed ==> h'.disturbed)
    && (x.done ==> x'.done)
  }

  lemma AccelKept(s: State, s': State, a: nat)
    requires SameShape(s, s') && a < |s.workers| && AccelOk(s, a)
    requires s'.mem.accels[a] == s.mem.accels[a]
    requires s'.workers[a].(running := true, stop := true) == s.workers[a].(running := true, stop := true)
    requires s'.boot == s.boot && s.now <= s'.now
    requires forall i :: 0 <= i < |s.hist| && s.hist[i].phase.Logged() && s.hist[i].phase.a == a ==> SlotForAccel(s, s', i)
    ensures AccelOk(s', a)
  {
    forall k | 0 <= k < |s.workers[a].log|
      ensures EntryOk(s', a, k)
    {
      assert EntryOk(s, a, k);
    }
    if s.workers[a].pc.Busy() {
      assert EntryOk(s, a, s.workers[a].retired);
    }
  }

  // ---- Putting a step together ----

  /** Only caller c and accelerator a (-1: none) changed, and both still point into the arrays. */
  lemma ShapeKept(s: State, s': State, c: int, a: int)
    requires Shape(s)
    requires |s.hist| == |s'.hist| == |s'.mem.tasks|
    requires |s.workers| == |s'.workers| == |s'.mem.accels|
    requires |s.clients| == |s'.clients|
    requires Slots(s'.mem.free, |s.hist|)
    requires forall d :: 0 <= d < |s.clients| && d != c ==> s'.clients[d] == s.clients[d]
    requires forall b :: 0 <= b < |s.workers| && b != a ==>
               s'.mem.accels[b] == s.mem.accels[b] && s'.workers[b].pc == s.workers[b].pc
    requires 0 <= c < |s.clients| ==> ClientShape(s', s'.clients[c])
    requires 0 <= a < |s.workers| ==> AccelShape(s'.mem, a) && WorkerShape(s', s'.workers[a].pc)
    ensures SameShape(s, s')
  {
    forall b | 0 <= b < |s.workers| ensures AccelShape(s'.mem, b) {
      assert AccelShape(s.mem, b);
    }
    forall d | 0 <= d < |s.clients| ensures ClientShape(s', s'.clients[d]) {
      assert ClientShape(s, s.clients[d]);
    }
  }

  /** A caller owns at most the slot its program counter names. */
  lemma OwnsOnly(s: State, c: nat)
    requires Inv(s) && c < |s.clients|
    ensures forall i {:trigger s.hist[i]} :: 0 <= i < |s.hist| && s.hist[i].phase.Owned() && s.hist[i].phase.c == c ==>
              OwnerPc(s.clients[c], s.hist[i].phase, i)
  {
    forall i {:trigger s.hist[i]} | 0 <= i < |s.hist| && s.hist[i].phase.Owned() && s.hist[i].phase.c == c
      ensures OwnerPc(s.clients[c], s.hist[i].phase, i)
    {
      assert SlotOk(s, i);
    }
  }

  /** Outside slot t, caller c and accelerator a (-1: none) the step changed nothing. */
  ghost predicate Elsewhere(s: State, s': State, t: int, c: int, a: int) {
    && SameShape(s, s')
    && LogsGrow(s, s')
    && s'.boot == s.boot
    && s.now <= s'.now
    && (forall i :: 0 <= i < |s.hist| && i != t ==> SlotSame(s, s', i))
    && (forall d :: 0 <= d < |s.clients| && d != c ==> s'.clients[d] == s.clients[d])
    && (forall b :: 0 <= b < |s.workers| && b != a ==>
          s'.mem.accels[b] == s.mem.accels[b] &&
          s'.workers[b].(running := true, stop := true) == s.workers[b].(running := true, stop := true))
  }

  /** The stepping caller still stands behind the slots it owns. */
  ghost predicate OwnerStands(s: State, s': State, t: int, c: int)
    requires SameShape(s, s')
  {
    0 <= c < |s.clients| ==>
      forall i :: 0 <= i < |s.hist| && i != t && s.hist[i].phase.Owned() && s.hist[i].phase.c == c ==>
        OwnerPc(s'.clients[c], s.hist[i].phase, i)
  }

  /** The touched slot moved on in a way every other thread tolerates. */
  ghost predicate TouchOk(s: State, s': State, t: int, c: int, a: int)
    requires SameShape(s, s')
  {
    0 <= t < |s.hist| ==>
      && SlotOk(s', t)
      && Evolves(s, s', t)
      && (s.hist[t].phase.Owned() ==> s.hist[t].phase.c == c || OwnedKept(s, s', s.hist[t].phase.c, t))
      && (s.hist[t].phase.Logged() ==> s.hist[t].phase.a == a || SlotForAccel(s, s', t))
  }

  lemma Assemble(s: State, s': State, t: int, c: int, a: int)
    requires Inv(s) && Elsewhere(s, s', t, c, a) && PoolOk(s'.mem)
    requires OwnerStands(s, s', t, c)
    requires TouchOk(s, s', t, c, a)
    requires 0 <= c < |s.clients| ==> ClientOk(s', c, s'.clients[c])
    requires 0 <= a < |s.workers| ==> AccelOk(s', a)
    ensures Inv(s')
  {
    forall i | 0 <= i < |s.hist| ensures SlotOk(s', i) {
      if i != t {
        SlotKept(s, s', i);
      }
    }
    forall b | 0 <= b < |s.workers| ensures AccelOk(s', b) {
      if b != a {
        forall i | 0 <= i < |s.hist| && s.hist[i].phase.Logged() && s.hist[i].phase.a == b
          ensures SlotForAccel(s, s', i)
        {
          assert i != t ==> SlotSame(s, s', i);
        }
        AccelKept(s, s', b);
      }
    }
    forall d | 0 <= d < |s.clients| ensures ClientOk(s', d, s'.clients[d]) {
      if d != c {
        forall i | 0 <= i < |s.hist| ensures OwnedKept(s, s', d, i) && Evolves(s, s', i) {
          assert i != t ==> SlotSame(s, s', i);
        }
        ClientKept(s, s', d, s.clients[d]);
      }
    }
  }

  /** A step that changes nothing but the caller's own program counter and variables. */
  lemma KeepLocal(s: State, c: nat, pc: ClientPc)
    requires Inv(s) && c < |s.clients| && ClientShape(s, pc) && ClientOk(s, c, pc)
    requires forall i :: 0 <= i < |s.hist| && s.hist[i].phase.Owned() && s.hist[i].phase.c == c ==>
               OwnerPc(pc, s.hist[i].phase, i)
    ensures Inv(Pc(s, c, pc))
  {
    var s' := Pc(s, c, pc);
    ShapeKept(s, s', c, -1);
    Assemble(s, s', -1, c, -1);
  }
}
