/** What happens around a running worker: the clock, requests to stop, and the writes that cancels
    make to the record of the task it runs. */
module Clock {
  import opened Types
  import A = Abstract

  /** One assignment to the record, by the worker or by a cancel, and the tick at which it was made. */
  datatype Write = Write(cancel: bool, field: A.Field, tick: nat)

  /** The record after these assignments. */
  function After(x: Task, ws: seq<Write>): Task {
    if ws == [] then x
    else
      var w := ws[|ws| - 1];
      A.Written(After(x, ws[..|ws| - 1]), w.field, w.tick)
  }

  /** The worker's own assignments among them. */
  function WorkerPart(ws: seq<Write>): seq<Write> {
    if ws == [] then []
    else
      var w := ws[|ws| - 1];
      WorkerPart(ws[..|ws| - 1]) + if w.cancel then [] else [w]
  }

  /** A cancel assigned field g after the worker last assigned one of fs. */
  function Since(ws: seq<Write>, g: A.Field, fs: set<A.Field>): bool {
    if ws == [] then false
    else
      var w := ws[|ws| - 1];
      if w.cancel && w.field == g then true
      else if !w.cancel && w.field in fs then false
      else Since(ws[..|ws| - 1], g, fs)
  }

  const STATE_FIELDS := {A.StateRunning, A.StateComplete}
  const CANCEL_FIELDS := {A.StateCancelled, A.CancelError, A.DoneSignal}

  /** A cancel assigned the state after the worker wrote RUNNING and before it took the completion time. */
  function CutShort(ws: seq<Write>): bool {
    if ws == [] then false
    else
      var w := ws[|ws| - 1];
      if !w.cancel && w.field == A.CompleteTime then Since(ws[..|ws| - 1], A.StateCancelled, STATE_FIELDS)
      else CutShort(ws[..|ws| - 1])
  }

  ghost predicate CancelsOnly(ws: seq<Write>) {
    forall i :: 0 <= i < |ws| ==> ws[i].cancel && ws[i].field in CANCEL_FIELDS
  }

  /** The worker never assigns what only cancels do, and the other way round. */
  ghost predicate Proper(ws: seq<Write>) {
    forall i :: 0 <= i < |ws| ==>
      if ws[i].cancel then ws[i].field in CANCEL_FIELDS
      else ws[i].field != A.StateCancelled && ws[i].field != A.CancelError
  }

  /** The assignments of one iteration that starts and completes at these ticks. */
  function IterationWrites(start: nat, stamp: nat): seq<Write> {
    [Write(false, A.StateRunning, start), Write(false, A.CompleteTime, stamp), Write(false, A.StateComplete, stamp),
     Write(false, A.NoError, stamp), Write(false, A.DoneSignal, stamp)]
  }

  lemma {:induction false} AfterAppend(x: Task, a: seq<Write>, b: seq<Write>)
    ensures After(x, a + b) == After(After(x, a), b)
    ensures WorkerPart(a + b) == WorkerPart(a) + WorkerPart(b)
  {
    if b == [] {
      assert a + b == a;
    } else {
      assert (a + b)[..|a + b| - 1] == a + b[..|b| - 1];
      AfterAppend(x, a, b[..|b| - 1]);
    }
  }

  lemma {:induction false} CancelsAreNotTheWorkers(ws: seq<Write>)
    requires CancelsOnly(ws)
    ensures WorkerPart(ws) == [] && Proper(ws)
  {
    if ws != [] {
      CancelsAreNotTheWorkers(ws[..|ws| - 1]);
    }
  }

  lemma LastOwn(ws: seq<Write>)
    requires ws != []
    ensures var n := |ws| - 1;
            if ws[n].cancel then WorkerPart(ws) == WorkerPart(ws[..n])
            else WorkerPart(ws) != [] && WorkerPart(ws)[|WorkerPart(ws)| - 1] == ws[n]
                 && WorkerPart(ws)[..|WorkerPart(ws)| - 1] == WorkerPart(ws[..n])
  {
  }

  /** The last state the worker assigned, or the one before it started. */
  function WorkerState(x: Task, ws: seq<Write>): TaskState {
    if ws == [] then x.state
    else if ws[|ws| - 1].field == A.StateRunning then Running
    else if ws[|ws| - 1].field == A.StateComplete then Complete
    else WorkerState(x, ws[..|ws| - 1])
  }

  /** Who decides what the state shows. */
  lemma {:induction false} StateAfter(x: Task, ws: seq<Write>)
    requires Proper(ws)
    ensures After(x, ws).state
            == if Since(ws, A.StateCancelled, STATE_FIELDS) then Cancelled else WorkerState(x, WorkerPart(ws))
  {
    if ws != [] {
      hide WorkerPart;
      var n := |ws| - 1;
      StateAfter(x, ws[..n]);
      LastOwn(ws);
    }
  }

  function WorkerError(x: Task, ws: seq<Write>): int {
    if ws == [] then x.errorCode
    else if ws[|ws| - 1].field == A.NoError then 0
    else WorkerError(x, ws[..|ws| - 1])
  }

  lemma {:induction false} ErrorAfter(x: Task, ws: seq<Write>)
    requires Proper(ws)
    ensures After(x, ws).errorCode
            == if Since(ws, A.CancelError, {A.NoError}) then -ECANCELED else WorkerError(x, WorkerPart(ws))
  {
    if ws != [] {
      hide WorkerPart;
      var n := |ws| - 1;
      ErrorAfter(x, ws[..n]);
      LastOwn(ws);
    }
  }

  function WorkerTime(x: Task, ws: seq<Write>): nat {
    if ws == [] then x.completeJiffies
    else if ws[|ws| - 1].field == A.CompleteTime then Jiffies(ws[|ws| - 1].tick)
    else WorkerTime(x, ws[..|ws| - 1])
  }

  /** Cancels leave the completion time, the signal once given and the description alone. */
  lemma {:induction false} RestAfter(x: Task, ws: seq<Write>)
    requires Proper(ws)
    ensures var x' := After(x, ws);
            && x' == x.(state := x'.state, errorCode := x'.errorCode, done := x'.done, completeJiffies := x'.completeJiffies)
            && x'.completeJiffies == WorkerTime(x, WorkerPart(ws))
            && (x.done || (exists i :: 0 <= i < |WorkerPart(ws)| && WorkerPart(ws)[i].field == A.DoneSignal) ==> x'.done)
  {
    if ws != [] {
      hide WorkerPart;
      var n := |ws| - 1;
      RestAfter(x, ws[..n]);
      LastOwn(ws);
    }
  }

  /** What survives of an iteration: CANCELLED exactly if a cancel wrote the state after COMPLETE,
      -ECANCELED exactly if one wrote the error after it was cleared; stamped and signalled. */
  lemma Survivors(x: Task, ws: seq<Write>, start: nat, stamp: nat)
    requires Proper(ws) && WorkerPart(ws) == IterationWrites(start, stamp)
    ensures After(x, ws) == x.(
              state := if Since(ws, A.StateCancelled, STATE_FIELDS) then Cancelled else Complete,
              errorCode := if Since(ws, A.CancelError, {A.NoError}) then -ECANCELED else 0,
              completeJiffies := Jiffies(stamp),
              done := true)
  {
    StateAfter(x, ws);
    ErrorAfter(x, ws);
    RestAfter(x, ws);
    var own := IterationWrites(start, stamp);
    assert own[4].field == A.DoneSignal;
    assert own[..4][..3] == own[..3] && own[..3][..2] == own[..2];
    assert WorkerState(x, own) == WorkerState(x, own[..4]) == WorkerState(x, own[..3]) == Complete;
    assert WorkerError(x, own) == WorkerError(x, own[..4]) == 0;
    assert WorkerTime(x, own) == WorkerTime(x, own[..4]) == WorkerTime(x, own[..3]) == WorkerTime(x, own[..2]);
  }

  lemma {:induction false} WorkerPartPrefix(ws: seq<Write>, k: nat)
    requires k <= |ws|
    ensures WorkerPart(ws[..k]) <= WorkerPart(ws)
  {
    if k < |ws| {
      var n := |ws| - 1;
      WorkerPartPrefix(ws[..n], k);
      assert ws[..n][..k] == ws[..k];
    } else {
      assert ws[..k] == ws;
    }
  }

  lemma OwnPrefix(x: Task, start: nat, stamp: nat, n: nat)
    requires n <= 5 && WorkerState(x, IterationWrites(start, stamp)[..n]) == Complete && x.state != Complete
    ensures WorkerTime(x, IterationWrites(start, stamp)[..n]) == Jiffies(stamp)
  {
    var own := IterationWrites(start, stamp);
    assert own[..5] == own && own[..5][..4] == own[..4] && own[..4][..3] == own[..3];
    assert own[..3][..2] == own[..2] && own[..2][..1] == own[..1] && own[..1][..0] == own[..0];
    assert WorkerTime(x, own[..2]) == Jiffies(stamp);
    assert WorkerTime(x, own[..3]) == WorkerTime(x, own[..2]);
    assert WorkerTime(x, own[..4]) == WorkerTime(x, own[..3]);
    assert WorkerTime(x, own[..5]) == WorkerTime(x, own[..4]);
  }

  /** At no moment of an iteration does the record show COMPLETE without the completion time. */
  lemma CompleteIsStamped(x: Task, ws: seq<Write>, start: nat, stamp: nat, k: nat)
    requires Proper(ws) && WorkerPart(ws) == IterationWrites(start, stamp) && k <= |ws| && x.state != Complete
    ensures After(x, ws[..k]).state == Complete ==> After(x, ws[..k]).completeJiffies == Jiffies(stamp)
  {
    hide Since;
    WorkerPartPrefix(ws, k);
    StateAfter(x, ws[..k]);
    RestAfter(x, ws[..k]);
    if After(x, ws[..k]).state == Complete {
      var n := |WorkerPart(ws[..k])|;
      assert WorkerPart(ws[..k]) == IterationWrites(start, stamp)[..n];
      OwnPrefix(x, start, stamp, n);
    }
  }

  /** What cancels can do to a record. */
  ghost predicate Touched(x: Task, x': Task) {
    && x' == x.(state := x'.state, errorCode := x'.errorCode, done := x'.done)
    && (x'.state == x.state || x'.state == Cancelled)
    && (x'.errorCode == x.errorCode || x'.errorCode == -ECANCELED)
    && (x.done ==> x'.done)
  }

  lemma {:induction false} CancelsTouch(x: Task, ws: seq<Write>)
    requires CancelsOnly(ws)
    ensures Touched(x, After(x, ws))
  {
    if ws != [] {
      CancelsTouch(x, ws[..|ws| - 1]);
    }
  }

  lemma {:induction false} SinceGrows(ws: seq<Write>, more: seq<Write>, g: A.Field, fs: set<A.Field>)
    requires CancelsOnly(more) && Since(ws, g, fs)
    ensures Since(ws + more, g, fs)
  {
    if more == [] {
      assert ws + more == ws;
    } else {
      assert (ws + more)[..|ws + more| - 1] == ws + more[..|more| - 1];
      SinceGrows(ws, more[..|more| - 1], g, fs);
    }
  }

  ghost predicate NoStamp(ws: seq<Write>) {
    forall i :: 0 <= i < |ws| ==> ws[i].cancel || ws[i].field != A.CompleteTime
  }

  lemma {:induction false} CutShortStays(ws: seq<Write>, more: seq<Write>)
    requires NoStamp(more)
    ensures CutShort(ws + more) == CutShort(ws)
  {
    if more == [] {
      assert ws + more == ws;
    } else {
      assert (ws + more)[..|ws + more| - 1] == ws + more[..|more| - 1];
      CutShortStays(ws, more[..|more| - 1]);
    }
  }

  /** Taking the completion time after a cancel of the running task. */
  lemma StampCutsShort(ws: seq<Write>, more: seq<Write>, w: Write)
    requires CancelsOnly(more) && Since(ws, A.StateCancelled, STATE_FIELDS) && !w.cancel && w.field == A.CompleteTime
    ensures CutShort(ws + more + [w])
  {
    SinceGrows(ws, more, A.StateCancelled, STATE_FIELDS);
    assert (ws + more + [w])[..|ws + more|] == ws + more;
  }

  /** The clock and the stop flag. `naps` counts sleeps, `napsAtCancel` remembers that count when a
      cancel first wrote the state, and `writes` is every assignment to the record (all ghost). */
  class Environment {
    var now: nat
    var stop: bool
    ghost var naps: nat
    ghost var napsAtCancel: nat
    ghost var writes: seq<Write>

    ghost predicate Valid()
      reads this
    {
      napsAtCancel <= naps && Proper(writes)
    }

    constructor (now: nat, stop: bool)
      ensures Valid() && this.now == now && this.stop == stop && naps == 0 && writes == []
    {
      this.now, this.stop := now, stop;
      naps, napsAtCancel, writes := 0, 0, [];
    }

    /** msleep: at least the time asked for, and at most `slack` ticks in all. */
    method Sleep(ms: nat, slack: nat)
      requires Valid() && Ticks(ms) <= slack
      modifies this`now, this`naps
      ensures Valid() && old(now) + Ticks(ms) <= now <= old(now) + slack
      ensures naps == old(naps) + 1
    {
      var d: nat :| Ticks(ms) <= d <= slack;
      now := now + d;
      naps := naps + 1;
    }

    /** The worker's assignment is noted. */
    ghost method Note(f: A.Field)
      requires Valid() && f != A.StateCancelled && f != A.CancelError
      modifies this`writes
      ensures Valid() && writes == old(writes) + [Write(false, f, now)]
    {
      writes := writes + [Write(false, f, now)];
    }

    /** So is a cancel's; the first one of the state also marks the number of sleeps so far. */
    ghost method NoteCancel(f: A.Field, first: bool)
      requires Valid() && f in CANCEL_FIELDS
      modifies this`writes, this`napsAtCancel
      ensures Valid() && writes == old(writes) + [Write(true, f, now)]
      ensures napsAtCancel == if first then naps else old(napsAtCancel)
    {
      writes := writes + [Write(true, f, now)];
      if first {
        napsAtCancel := naps;
      }
    }

    /** Anybody may ask the worker to stop. */
    method MayStop()
      requires Valid()
      modifies this`stop
      ensures Valid() && (old(stop) ==> stop)
    {
      var halt: bool := *;
      stop := stop || halt;
    }
  }

  lemma OneMillisecond()
    ensures Ticks(1) == 1
  {
  }
}
