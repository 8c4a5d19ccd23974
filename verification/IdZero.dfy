/** The one ID for which the unlocked scan is wrong. A scan reads `id` and then `state` without
    a lock. A never-used slot has id 0; if it is allocated and published between the two reads,
    a call for ID 0 matches it, although no task ever has ID 0. */
module IdZero {
  import opened Types
  import opened Memory
  import opened Steps
  import opened Invariant
  import opened Runs
  import S = Scans

  /** In no run does a call for this ID match a slot that has another ID. */
  ghost predicate MatchesOnlyItsTask(id: nat) {
    forall ss: seq<State>, es: seq<Event>, c: nat ::
      DriverRun(ss, es) && c < |ss[|es|].clients| && S.HasMatched(ss[|es|].clients[c]) && ss[|es|].clients[c].id == id ==>
        ss[|es|].clients[c].t < |ss[|es|].mem.tasks| && ss[|es|].mem.tasks[ss[|es|].clients[c].t].id == id
  }

  const DESC := Desc(0, 0, 0, 0, 0, 0, 0, 0)

  /** Caller 0 looks for ID 0 while caller 1 submits, with one slot and one accelerator. */
  function Script(kind: ScanKind): seq<Event> {
    [Begin(0, ScanTask(kind, 0), true),
     Client(0, true),
     Begin(1, SubmitTask(DESC), true),
     Client(1, true),
     Client(1, true),
     Client(1, true),
     Client(1, true),
     Client(0, true)]
  }

  function With(task: Task, free: seq<nat>, nextId: nat, pc0: ClientPc, pc1: ClientPc, phase: Phase): State {
    State(Mem([task], free, nextId, [AccelMem([], [], 0)]),
          [Worker(true, false, Head, [], 0)],
          [pc0, pc1], [NO_HIST.(phase := phase)], 0, 0)
  }

  const ISSUED := ZERO_TASK.(id := 1)

  /** Caller 0 between its two reads while caller 1 is at pc. */
  function Between(kind: ScanKind, task: Task, free: seq<nat>, nextId: nat, pc: ClientPc, phase: Phase): State {
    With(task, free, nextId, ScanState(kind, 0, 0), pc, phase)
  }

  function Story(kind: ScanKind): seq<State> {
    [With(ZERO_TASK, [0], 0, Idle, Idle, Unused),
     With(ZERO_TASK, [0], 0, ScanId(kind, 0, 0), Idle, Unused),
     Between(kind, ZERO_TASK, [0], 0, Idle, Unused),
     Between(kind, ZERO_TASK, [0], 0, SAlloc(DESC), Unused),
     Between(kind, ISSUED, [], 1, SFill(DESC, 0), Held(1)),
     Between(kind, ISSUED, [], 1, SCheckType(DESC, 0), Held(1)),
     Between(kind, ISSUED, [], 1, SPublish(DESC, 0), Held(1)),
     Between(kind, ISSUED.(state := Pending), [], 1, SStamp(DESC, 0), Published(1)),
     With(ISSUED.(state := Pending), [], 1,
          if kind == Query then QReadId(0, 0) else CMark(0, 0), SStamp(DESC, 0), Published(1))]
  }

  lemma StoryStarts(kind: ScanKind)
    ensures Story(kind)[0] == Init(1, 1, 2, 0)
  {
    var s := Init(1, 1, 2, 0);
    assert s.clients == [Idle, Idle];
    assert s.mem.free == [0] && s.mem.tasks == [ZERO_TASK] && s.mem.accels == [AccelMem([], [], 0)];
    assert s.workers == [Worker(true, false, Head, [], 0)] && s.hist == [NO_HIST];
  }

  /** A step of either caller that changes no shared memory. */
  lemma LocalStep(s: State, e: Event, pc: ClientPc)
    requires |s.clients| == 2 && Shape(s) && Enabled(s, e) && (e.Begin? || e.Client?) && e.c < 2
    requires Apply(s, e) == Pc(s, e.c, pc)
    ensures e.c == 0 ==> Step(s, e, s.(clients := [pc, s.clients[1]]))
    ensures e.c == 1 ==> Step(s, e, s.(clients := [s.clients[0], pc]))
  {
    assert s.clients[e.c := pc] == if e.c == 0 then [pc, s.clients[1]] else [s.clients[0], pc];
  }

  lemma StoryShape(kind: ScanKind, i: nat)
    requires i < 8
    ensures Shape(Story(kind)[i])
  {
  }

  lemma StoryBegins(kind: ScanKind)
    ensures Step(Story(kind)[0], Script(kind)[0], Story(kind)[1])
  {
    hide ClientStep, WorkStep, Shape;
    StoryShape(kind, 0);
    LocalStep(Story(kind)[0], Script(kind)[0], ScanId(kind, 0, 0));
  }

  lemma StoryReadsId(kind: ScanKind)
    ensures Step(Story(kind)[1], Script(kind)[1], Story(kind)[2])
  {
    hide SubmitStep, WorkStep, FirstPc, Shape;
    StoryShape(kind, 1);
    LocalStep(Story(kind)[1], Script(kind)[1], ScanState(kind, 0, 0));
  }

  lemma StoryMatches(kind: ScanKind)
    ensures Step(Story(kind)[7], Script(kind)[7], Story(kind)[8])
  {
    hide SubmitStep, WorkStep, FirstPc, Shape;
    StoryShape(kind, 7);
    LocalStep(Story(kind)[7], Script(kind)[7], if kind == Query then QReadId(0, 0) else CMark(0, 0));
  }

  lemma StorySubmits(kind: ScanKind)
    ensures Step(Story(kind)[2], Script(kind)[2], Story(kind)[3])
  {
    hide ClientStep, WorkStep, Shape;
    StoryShape(kind, 2);
    LocalStep(Story(kind)[2], Script(kind)[2], SAlloc(DESC));
  }

  lemma StoryAllocates(kind: ScanKind)
    ensures Step(Story(kind)[3], Script(kind)[3], Story(kind)[4])
  {
    hide ScanStep, WorkStep, FirstPc, Shape;
    StoryShape(kind, 3);
    var s' := Apply(Story(kind)[3], Script(kind)[3]);
    assert s'.clients == [ScanState(kind, 0, 0), SFill(DESC, 0)];
    assert s'.mem == Mem([ISSUED], [], 1, [AccelMem([], [], 0)]);
  }

  lemma StoryFills(kind: ScanKind)
    ensures Step(Story(kind)[4], Script(kind)[4], Story(kind)[5])
  {
    hide ScanStep, WorkStep, FirstPc, Shape;
    StoryShape(kind, 4);
    var s' := Apply(Story(kind)[4], Script(kind)[4]);
    assert s'.clients == [ScanState(kind, 0, 0), SCheckType(DESC, 0)];
    assert s'.mem == Story(kind)[4].mem;
  }

  lemma StoryChecks(kind: ScanKind)
    ensures Step(Story(kind)[5], Script(kind)[5], Story(kind)[6])
  {
    hide ScanStep, WorkStep, FirstPc, Shape;
    StoryShape(kind, 5);
    LocalStep(Story(kind)[5], Script(kind)[5], SPublish(DESC, 0));
  }

  lemma StoryPublishes(kind: ScanKind)
    ensures Step(Story(kind)[6], Script(kind)[6], Story(kind)[7])
  {
    hide ScanStep, WorkStep, FirstPc, Shape;
    StoryShape(kind, 6);
    var s' := Apply(Story(kind)[6], Script(kind)[6]);
    assert s'.clients == [ScanState(kind, 0, 0), SStamp(DESC, 0)];
    assert s'.mem == Mem([ISSUED.(state := Pending)], [], 1, [AccelMem([], [], 0)]);
  }

  lemma StoryIsARun(kind: ScanKind)
    ensures DriverRun(Story(kind), Script(kind))
  {
    StoryStarts(kind);
    StoryBegins(kind);
    StoryReadsId(kind);
    StorySubmits(kind);
    StoryAllocates(kind);
    StoryFills(kind);
    StoryChecks(kind);
    StoryPublishes(kind);
    StoryMatches(kind);
  }

  /** A call for ID 0 can reach the task with ID 1, to report it or to cancel it. */
  lemma ZeroCanMatchAnotherTask(kind: ScanKind)
    ensures DriverRun(Story(kind), Script(kind))
    ensures var s := Story(kind)[8];
            && S.HasMatched(s.clients[0]) && s.clients[0].id == 0
            && s.mem.tasks[s.clients[0].t].id == 1
            && s.clients[0].CMark? == (kind == Cancel)
  {
    StoryIsARun(kind);
  }

  /** So the scan is right for an ID, in every run, exactly when the ID is not 0. */
  lemma ScanIsRightIffIdNotZero(id: nat)
    ensures MatchesOnlyItsTask(id) <==> id != 0
  {
    if id == 0 {
      var ss, es := Story(Query), Script(Query);
      ZeroCanMatchAnotherTask(Query);
      assert DriverRun(ss, es) && ss[|es|].mem.tasks[ss[|es|].clients[0].t].id == 1;
    } else {
      forall ss: seq<State>, es: seq<Event>, c: nat |
        DriverRun(ss, es) && c < |ss[|es|].clients| && S.HasMatched(ss[|es|].clients[c]) && ss[|es|].clients[c].id == id
        ensures ss[|es|].clients[c].t < |ss[|es|].mem.tasks| && ss[|es|].mem.tasks[ss[|es|].clients[c].t].id == id
      {
        S.MatchIsTheTask(ss, es, |es|, c);
      }
    }
  }
}
