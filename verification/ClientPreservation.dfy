/** Steps of ioctl callers keep the invariant. */
module ClientPreservation {
  import opened Types
  import opened Memory
  import opened Steps
  import opened Invariant
  import opened Preservation

  /** The free list starts at the first slot never handed out. */
  lemma FreeHead(m: Mem)
    requires PoolOk(m) && m.free != []
    ensures m.free[0] == m.nextId < |m.tasks|
    ensures NextId(m) == m.nextId + 1
    ensures m.free[1..] == Index(|m.tasks|)[m.nextId + 1..]
  {
  }

  lemma KeepBegin(s: State, c: nat, r: Request, copied: bool)
    requires Inv(s) && Enabled(s, Begin(c, r, copied))
    ensures Inv(Apply(s, Begin(c, r, copied)))
  {
    OwnsOnly(s, c);
    KeepLocal(s, c, FirstPc(s, r, copied));
  }

  lemma KeepReturn(s: State, c: nat)
    requires Inv(s) && Enabled(s, Return(c))
    ensures Inv(Apply(s, Return(c)))
  {
    OwnsOnly(s, c);
    KeepLocal(s, c, Idle);
  }

  lemma KeepAlloc(s: State, c: nat, d: Desc)
    requires Inv(s) && c < |s.clients| && s.clients[c] == SAlloc(d)
    ensures Inv(AllocStep(s, c, d))
  {
    assert ClientShape(s, s.clients[c]);
    OwnsOnly(s, c);
    if s.mem.free == [] {
      KeepLocal(s, c, Done(SubmitTask(d), Error(-ENOMEM)));
    } else {
      FreeHead(s.mem);
      var t := s.mem.nextId;
      var s' := AllocStep(s, c, d);
      assert SlotOk(s, t);
      ShapeKept(s, s', c, -1);
      Assemble(s, s', t, c, -1);
    }
  }

  lemma KeepFill(s: State, c: nat, d: Desc, t: nat)
    requires Inv(s) && c < |s.clients| && s.clients[c] == SFill(d, t)
    ensures Inv(SubmitStep(s, c, true))
  {
    assert ClientOk(s, c, s.clients[c]);
    assert SlotOk(s, t);
    var s' := SubmitStep(s, c, true);
    ShapeKept(s, s', c, -1);
    OwnsOnly(s, c);
    Assemble(s, s', t, c, -1);
  }

  lemma KeepPublish(s: State, c: nat, d: Desc, t: nat)
    requires Inv(s) && c < |s.clients| && s.clients[c] == SPublish(d, t)
    ensures Inv(SubmitStep(s, c, true))
  {
    assert ClientOk(s, c, s.clients[c]);
    assert SlotOk(s, t);
    var s' := SubmitStep(s, c, true);
    ShapeKept(s, s', c, -1);
    OwnsOnly(s, c);
    Assemble(s, s', t, c, -1);
  }

  lemma KeepStamp(s: State, c: nat, d: Desc, t: nat)
    requires Inv(s) && c < |s.clients| && s.clients[c] == SStamp(d, t)
    ensures Inv(SubmitStep(s, c, true))
  {
    assert ClientOk(s, c, s.clients[c]);
    assert SlotOk(s, t);
    var s' := SubmitStep(s, c, true);
    ShapeKept(s, s', c, -1);
    OwnsOnly(s, c);
    Assemble(s, s', t, c, -1);
  }

  lemma KeepEnqueue(s: State, c: nat, d: Desc, t: nat)
    requires Inv(s) && c < |s.clients| && s.clients[c] == SEnqueue(d, t)
    ensures Inv(EnqueueStep(s, c, d, t))
  {
    assert ClientShape(s, s.clients[c]);
    assert ClientOk(s, c, s.clients[c]);
    assert SlotOk(s, t);
    var a := d.accelType;
    var s' := EnqueueStep(s, c, d, t);
    assert AccelShape(s.mem, a) && WorkerShape(s, s.workers[a].pc);
    ShapeKept(s, s', c, a);
    OwnsOnly(s, c);
    EnqueueAccel(s, s', c, d, t);
    Assemble(s, s', t, c, a);
  }

  /** The accelerator's own invariant after an enqueue. */
  lemma EnqueueAccel(s: State, s': State, c: nat, d: Desc, t: nat)
    requires Inv(s) && c < |s.clients| && s.clients[c] == SEnqueue(d, t)
    requires d.accelType < |s.workers| && t < |s.hist| && s' == EnqueueStep(s, c, d, t)
    requires SameShape(s, s') && ClientOk(s, c, s.clients[c])
    ensures AccelOk(s', d.accelType)
  {
    var a := d.accelType;
    var w, w' := s.workers[a], s'.workers[a];
    assert AccelOk(s, a);
    assert SlotsOf(w'.log) == SlotsOf(w.log) + [t];
    forall k | 0 <= k < |w'.log| ensures EntryOk(s', a, k) {
      if k < |w.log| {
        assert EntryOk(s, a, k);
      }
    }
    if w.pc.Busy() {
      assert EntryOk(s, a, w.retired);
    }
  }

  lemma KeepCheckType(s: State, c: nat, d: Desc, t: nat)
    requires Inv(s) && c < |s.clients| && s.clients[c] == SCheckType(d, t)
    ensures Inv(SubmitStep(s, c, true))
  {
    assert ClientShape(s, s.clients[c]);
    assert ClientOk(s, c, s.clients[c]);
    OwnsOnly(s, c);
    KeepLocal(s, c, SPublish(d, t));
  }

  lemma KeepReadId(s: State, c: nat, d: Desc, t: nat)
    requires Inv(s) && c < |s.clients| && s.clients[c] == SReadId(d, t)
    ensures Inv(SubmitStep(s, c, true))
  {
    assert ClientShape(s, s.clients[c]);
    assert ClientOk(s, c, s.clients[c]);
    assert SlotOk(s, t);
    OwnsOnly(s, c);
    KeepLocal(s, c, SCopyOut(d, s.mem.tasks[t].id));
  }

  lemma KeepCopyOut(s: State, c: nat, d: Desc, id: nat, copied: bool)
    requires Inv(s) && c < |s.clients| && s.clients[c] == SCopyOut(d, id)
    ensures Inv(SubmitStep(s, c, copied))
  {
    assert ClientOk(s, c, s.clients[c]);
    OwnsOnly(s, c);
    KeepLocal(s, c, Done(SubmitTask(d), if copied then Submitted(id) else Error(-EFAULT)));
  }

  lemma KeepSubmit(s: State, c: nat, copied: bool)
    requires Inv(s) && c < |s.clients| && s.clients[c].InSubmit()
    ensures Inv(SubmitStep(s, c, copied))
  {
    assert !s.clients[c].SUndo? by {
      assert ClientOk(s, c, s.clients[c]);
    }
    match s.clients[c]
    case SAlloc(d) => KeepAlloc(s, c, d);
    case SFill(d, t) => KeepFill(s, c, d, t);
    case SCheckType(d, t) => KeepCheckType(s, c, d, t);
    case SPublish(d, t) => KeepPublish(s, c, d, t);
    case SStamp(d, t) => KeepStamp(s, c, d, t);
    case SEnqueue(d, t) => KeepEnqueue(s, c, d, t);
    case SReadId(d, t) => KeepReadId(s, c, d, t);
    case SCopyOut(d, id) => KeepCopyOut(s, c, d, id, copied);
  }

  // ---- Scans ----

  lemma KeepScanning(s: State, c: nat)
    requires Inv(s) && c < |s.clients| && (s.clients[c].ScanId? || s.clients[c].ScanState?)
    ensures Inv(ScanStep(s, c, true))
  {
    var pc := s.clients[c];
    assert ClientShape(s, pc);
    assert ClientOk(s, c, pc);
    if pc.i < |s.hist| {
      assert SlotOk(s, pc.i);
    }
    OwnsOnly(s, c);
    KeepLocal(s, c, ScanStep(s, c, true).clients[c]);
  }

  lemma KeepReading(s: State, c: nat, copied: bool)
    requires Inv(s) && c < |s.clients| && s.clients[c].InMatch()
    ensures Inv(ScanStep(s, c, copied))
  {
    hide Inv;
    InvClient(s, c);
    InvSlot(s, s.clients[c].t);
    OwnsOnly(s, c);
    KeepLocal(s, c, ScanStep(s, c, copied).clients[c]);
  }

  /** A cancel writes one slot and leaves its phase alone. */
  lemma KeepCancelWrite(s: State, s': State, c: nat, t: nat)
    requires Inv(s) && c < |s.clients| && (s.clients[c].CMark? || s.clients[c].CError? || s.clients[c].CSignal?)
    requires t == s.clients[c].t < |s.hist|
    requires s' == ScanStep(s, c, true)
    requires SameShape(s, s') && SlotOk(s', t) && SlotForAccel(s, s', t) && Evolves(s, s', t)
    ensures Inv(s')
  {
    hide Inv, SlotOk, SlotForAccel, Evolves;
    InvClient(s, c);
    InvPool(s);
    OwnsOnly(s, c);
    Assemble(s, s', t, c, -1);
  }

  lemma KeepMark(s: State, c: nat, id: nat, t: nat)
    requires Inv(s) && c < |s.clients| && s.clients[c] == CMark(id, t)
    ensures Inv(ScanStep(s, c, true))
  {
    assert ClientShape(s, s.clients[c]) && ClientOk(s, c, s.clients[c]);
    assert SlotOk(s, t);
    var s' := ScanStep(s, c, true);
    ShapeKept(s, s', c, -1);
    OwnsOnly(s, c);
    assert SlotOk(s', t);
    KeepCancelWrite(s, s', c, t);
  }

  lemma KeepCancelError(s: State, c: nat, id: nat, t: nat)
    requires Inv(s) && c < |s.clients| && s.clients[c] == CError(id, t)
    ensures Inv(ScanStep(s, c, true))
  {
    assert ClientShape(s, s.clients[c]) && ClientOk(s, c, s.clients[c]);
    assert SlotOk(s, t);
    var s' := ScanStep(s, c, true);
    ShapeKept(s, s', c, -1);
    OwnsOnly(s, c);
    assert SlotOk(s', t);
    KeepCancelWrite(s, s', c, t);
  }

  lemma KeepCancelSignal(s: State, c: nat, id: nat, t: nat)
    requires Inv(s) && c < |s.clients| && s.clients[c] == CSignal(id, t)
    ensures Inv(ScanStep(s, c, true))
  {
    assert ClientShape(s, s.clients[c]) && ClientOk(s, c, s.clients[c]);
    assert SlotOk(s, t);
    var s' := ScanStep(s, c, true);
    ShapeKept(s, s', c, -1);
    OwnsOnly(s, c);
    assert SlotOk(s', t);
    KeepCancelWrite(s, s', c, t);
  }

  lemma KeepScan(s: State, c: nat, copied: bool)
    requires Inv(s) && c < |s.clients| && s.clients[c].InScan()
    ensures Inv(ScanStep(s, c, copied))
  {
    var pc := s.clients[c];
    if pc.InMatch() {
      KeepReading(s, c, copied);
    } else if pc.ScanId? || pc.ScanState? {
      KeepScanning(s, c);
    } else {
      match pc
      case CMark(id, t) => KeepMark(s, c, id, t);
      case CError(id, t) => KeepCancelError(s, c, id, t);
      case CSignal(id, t) => KeepCancelSignal(s, c, id, t);
    }
  }

  lemma KeepClient(s: State, c: nat, copied: bool)
    requires Inv(s) && Enabled(s, Client(c, copied))
    ensures Inv(Apply(s, Client(c, copied)))
  {
    var pc := s.clients[c];
    if pc.InSubmit() {
      KeepSubmit(s, c, copied);
    } else if pc.InScan() {
      KeepScan(s, c, copied);
    } else {
      assert ClientShape(s, pc);
      assert ClientOk(s, c, pc);
      if pc.IRead? {
        assert AccelOk(s, pc.accelType);
      }
      OwnsOnly(s, c);
      KeepLocal(s, c, ClientStep(s, c, copied).clients[c]);
    }
  }
}
