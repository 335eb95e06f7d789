/**
  The deploy's census of server/task_board/deploy_quiesce.py: what still moves
  once the gate is closed, and what an empty census is worth.
 */
module Census {
  import opened Base
  import opened Admission

  // ------------------------------------------------------------ from close to open

  /** The step that ends the closed period. */
  predicate Opens(s: State, e: Step) {
    e.Proceed? && At(s, e.t).waiting == Some(OpenOp)
  }

  predicate NeverOpens(s: State, steps: seq<Step>)
    requires Runs(s, steps)
    decreases |steps|
  {
    steps == [] || (!Opens(s, steps[0]) && NeverOpens(Apply(s, steps[0]), steps[1..]))
  }

  predicate ClosedRun(s: State, steps: seq<Step>) {
    s.gate.closed && Runs(s, steps) && NeverOpens(s, steps)
  }

  /** No process, registration, round or task run is added. */
  ghost predicate Shrinks(s: State, t: State) {
    t.procs <= s.procs && t.running <= s.running && t.rows <= s.rows && t.runs <= s.runs
  }

  predicate StartsTurn(s: State, e: Step, x: Session)
    requires Enabled(s, e)
  {
    x !in s.chats.turns && x in Apply(s, e).chats.turns
  }

  lemma NobodyInside(s: State)
    requires Inv(s) && s.gate.closed
    ensures forall t: Task :: At(s, t).nesting == 0
  {
  }

  lemma ClosedStep(s: State, e: Step)
    requires Inv(s) && s.gate.closed && Enabled(s, e) && !Opens(s, e)
    ensures Apply(s, e).gate.closed && Shrinks(s, Apply(s, e))
    ensures Apply(s, e).chats == if e.Chat? then ChatNext(s.chats, e.e) else s.chats
  {
    NobodyInside(s);
    hide Inv;
  }

  /**
    With the gate closed two steps start a turn: a park cancelled with prompts behind it, and a claimed run's worker.
   */
  lemma ClosedStartsBySteps(s: State, e: Step, x: Session)
    requires Inv(s) && s.gate.closed && Enabled(s, e) && !Opens(s, e)
    ensures StartsTurn(s, e, x) <==>
            && x !in s.chats.turns
            && (|| (e == Chat(ReleaseParked(x)) && x in s.chats.queued)
                || (e == Chat(WorkerStarts(x)) && x !in s.chats.parked))
  {
    ClosedStep(s, e);
    hide Inv, Apply;
  }

  ghost predicate StartsSomeTurn(s: State, steps: seq<Step>)
    requires Runs(s, steps)
    decreases |steps|
  {
    steps != [] && ((exists x :: StartsTurn(s, steps[0], x)) || StartsSomeTurn(Apply(s, steps[0]), steps[1..]))
  }

  /** Once closed and until opened nobody enters, no work starts, and a turn that runs ran before or was started so. */
  lemma {:induction false} ClosedStaysQuiet(s: State, steps: seq<Step>)
    requires Inv(s) && ClosedRun(s, steps)
    ensures var end := After(s, steps);
            && Inv(end) && end.gate.closed && (forall t: Task :: At(end, t).nesting == 0) && Shrinks(s, end)
            && (StartsSomeTurn(s, steps) || end.chats.turns <= s.chats.turns)
    decreases |steps|
  {
    if steps == [] {
      NobodyInside(s);
    } else {
      var next := Apply(s, steps[0]);
      ClosedStep(s, steps[0]);
      StepKeepsExclusive(s, steps[0]);
      StepKeepsTracked(s, steps[0]);
      hide Exclusive, Tracked, Apply;
      ClosedStaysQuiet(next, steps[1..]);
      if !StartsSomeTurn(s, steps) {
        forall x | x in next.chats.turns
          ensures x in s.chats.turns
        {
          assert !StartsTurn(s, steps[0], x);
        }
      }
    }
  }

  // ------------------------------------------------------------ whether a turn can still start

  /** A worker on its way, or a prompt behind a turn, a park or a cancelled park. */
  predicate MayStart(c: Chats) {
    c.launching != {} || !(c.turns + c.parked + c.releasing !! c.queued)
  }

  lemma QuietStaysQuiet(c: Chats, e: ChatStep)
    requires !MayStart(c) && ChatEnabled(c, e)
    ensures !MayStart(ChatNext(c, e)) && ChatNext(c, e).turns <= c.turns
  {
    var d := ChatNext(c, e);
    assert d.turns + d.parked + d.releasing <= c.turns + c.parked + c.releasing && d.queued <= c.queued;
  }

  lemma {:induction false} NothingStarts(s: State, steps: seq<Step>)
    requires Inv(s) && ClosedRun(s, steps) && !MayStart(s.chats)
    ensures !StartsSomeTurn(s, steps) && !MayStart(After(s, steps).chats)
    decreases |steps|
  {
    if steps != [] {
      var next := Apply(s, steps[0]);
      ClosedStep(s, steps[0]);
      StepKeepsExclusive(s, steps[0]);
      StepKeepsTracked(s, steps[0]);
      if steps[0].Chat? {
        QuietStaysQuiet(s.chats, steps[0].e);
      }
      hide Exclusive, Tracked, MayStart, Apply;
      NothingStarts(next, steps[1..]);
    }
  }

  /** A run that begins with a step beside the gate. */
  lemma ChatFirst(s: State, e: ChatStep, rest: seq<Step>)
    requires s.gate.closed && ChatEnabled(s.chats, e)
    requires ClosedRun(s.(chats := ChatNext(s.chats, e)), rest)
    ensures ClosedRun(s, [Chat(e)] + rest) &&
            After(s, [Chat(e)] + rest) == After(s.(chats := ChatNext(s.chats, e)), rest)
    ensures StartsSomeTurn(s.(chats := ChatNext(s.chats, e)), rest) ==> StartsSomeTurn(s, [Chat(e)] + rest)
    ensures (exists x :: StartsTurn(s, Chat(e), x)) ==> StartsSomeTurn(s, [Chat(e)] + rest)
  {
    assert ([Chat(e)] + rest)[1..] == rest;
    assert Apply(s, Chat(e)) == s.(chats := ChatNext(s.chats, e));
  }

  lemma ReleaseStarts(s: State, x: Session) returns (steps: seq<Step>)
    requires s.gate.closed && x in s.chats.releasing && x in s.chats.queued
    ensures ClosedRun(s, steps) && StartsSomeTurn(s, steps)
  {
    var ended := s.(chats := ChatNext(s.chats, TurnEnds(x)));
    assert StartsTurn(ended, Chat(ReleaseParked(x)), x);
    ChatFirst(ended, ReleaseParked(x), []);
    ChatFirst(s, TurnEnds(x), [Chat(ReleaseParked(x))] + []);
    steps := [Chat(TurnEnds(x))] + ([Chat(ReleaseParked(x))] + []);
  }

  lemma CancelStarts(s: State, x: Session) returns (steps: seq<Step>)
    requires s.gate.closed && x in s.chats.parked && x in s.chats.queued
    ensures ClosedRun(s, steps) && StartsSomeTurn(s, steps)
  {
    var rest := ReleaseStarts(s.(chats := ChatNext(s.chats, ParkCancelled(x))), x);
    ChatFirst(s, ParkCancelled(x), rest);
    steps := [Chat(ParkCancelled(x))] + rest;
  }

  lemma ParkStarts(s: State, x: Session) returns (steps: seq<Step>)
    requires s.gate.closed && x in s.chats.turns && x in s.chats.queued
    ensures ClosedRun(s, steps) && StartsSomeTurn(s, steps)
  {
    var rest := CancelStarts(s.(chats := ChatNext(s.chats, Parks(x))), x);
    ChatFirst(s, Parks(x), rest);
    steps := [Chat(Parks(x))] + rest;
  }

  lemma WorkerStartsTurn(s: State, x: Session) returns (steps: seq<Step>)
    requires s.gate.closed && x in s.chats.launching
    ensures ClosedRun(s, steps) && StartsSomeTurn(s, steps)
  {
    var ended := s.(chats := ChatNext(s.chats, TurnEnds(x)));
    var free := ended.(chats := ChatNext(ended.chats, ParkDropped(x)));
    assert StartsTurn(free, Chat(WorkerStarts(x)), x);
    ChatFirst(free, WorkerStarts(x), []);
    ChatFirst(ended, ParkDropped(x), [Chat(WorkerStarts(x))] + []);
    ChatFirst(s, TurnEnds(x), [Chat(ParkDropped(x))] + ([Chat(WorkerStarts(x))] + []));
    steps := [Chat(TurnEnds(x))] + ([Chat(ParkDropped(x))] + ([Chat(WorkerStarts(x))] + []));
  }

  /**
    A closed gate lets another turn start before it opens if and only if a worker or a held prompt can still bring
    one.
   */
  lemma ClosedStartsExactly(s: State)
    requires Inv(s) && s.gate.closed
    ensures (exists steps :: ClosedRun(s, steps) && StartsSomeTurn(s, steps)) <==> MayStart(s.chats)
  {
    if MayStart(s.chats) {
      var steps;
      if s.chats.launching != {} {
        var x :| x in s.chats.launching;
        steps := WorkerStartsTurn(s, x);
      } else {
        var x :| x in s.chats.turns + s.chats.parked + s.chats.releasing && x in s.chats.queued;
        if x in s.chats.turns {
          steps := ParkStarts(s, x);
        } else if x in s.chats.parked {
          steps := CancelStarts(s, x);
        } else {
          steps := ReleaseStarts(s, x);
        }
      }
    } else {
      forall steps | ClosedRun(s, steps)
        ensures !StartsSomeTurn(s, steps)
      {
        NothingStarts(s, steps);
      }
    }
  }

  // ------------------------------------------------------------ the census

  /** The steps of other tasks between one look of the census and the next. */
  datatype Pauses = Pauses(beforeParks: seq<Step>, beforeRuns: seq<Step>, beforeTasks: seq<Step>,
    beforeRounds: seq<Step>)

  function Whole(p: Pauses): seq<Step> {
    p.beforeParks + p.beforeRuns + p.beforeTasks + p.beforeRounds
  }

  /** Each look at its own moment finds nothing: sessions, parked rows, task runs, registered tasks, rounds. */
  ghost predicate FindsNothing(s: State, p: Pauses) {
    && s.chats.turns == {} && ClosedRun(s, p.beforeParks)
    && var s1 := After(s, p.beforeParks);
    && s1.chats.parked == {} && ClosedRun(s1, p.beforeRuns)
    && var s2 := After(s1, p.beforeRuns);
    && s2.runs == {} && ClosedRun(s2, p.beforeTasks)
    && var s3 := After(s2, p.beforeTasks);
    && s3.running == {} && ClosedRun(s3, p.beforeRounds)
    && After(s3, p.beforeRounds).rows == {}
  }

  lemma {:induction false} ClosedAppend(s: State, first: seq<Step>, rest: seq<Step>)
    requires ClosedRun(s, first) && Inv(s) && ClosedRun(After(s, first), rest)
    ensures ClosedRun(s, first + rest) && After(s, first + rest) == After(After(s, first), rest)
    decreases |first|
  {
    if first == [] {
      assert first + rest == rest;
    } else {
      assert (first + rest)[0] == first[0] && (first + rest)[1..] == first[1..] + rest;
      ClosedStep(s, first[0]);
      StepKeepsExclusive(s, first[0]);
      StepKeepsTracked(s, first[0]);
      hide Exclusive, Tracked, Apply;
      ClosedAppend(Apply(s, first[0]), first[1..], rest);
    }
  }

  /** An empty census ends in a state without work, but for children given up on; of turns it says nothing. */
  lemma AfterEmptyCensus(s: State, p: Pauses)
    requires Inv(s) && FindsNothing(s, p)
    ensures ClosedRun(s, Whole(p))
    ensures var mid := After(s, Whole(p));
            Inv(mid) && mid.gate.closed && mid.running == {} && mid.rows == {} && mid.runs == {} &&
              mid.procs <= mid.outlived
  {
    hide Exclusive, Tracked;
    var s1 := After(s, p.beforeParks);
    ClosedStaysQuiet(s, p.beforeParks);
    var s2 := After(s1, p.beforeRuns);
    ClosedStaysQuiet(s1, p.beforeRuns);
    var s3 := After(s2, p.beforeTasks);
    ClosedStaysQuiet(s2, p.beforeTasks);
    ClosedStaysQuiet(s3, p.beforeRounds);
    ClosedAppend(s, p.beforeParks, p.beforeRuns);
    ClosedAppend(s, p.beforeParks + p.beforeRuns, p.beforeTasks);
    ClosedAppend(s, p.beforeParks + p.beforeRuns + p.beforeTasks, p.beforeRounds);
    LiveIsKnown(After(s, Whole(p)));
  }

  lemma LiveIsKnown(s: State)
    requires Inv(s) && s.gate.closed
    ensures s.procs <= s.running + s.outlived
  {
  }

  // ------------------------------------------------------------ what an empty census misses

  /**
    A park cancelled between the two looks of a census is seen by neither, and its queue runs behind the closed gate.
   */
  lemma CancelledParkEscapes(s: State, x: Session)
    requires Inv(s) && s.gate.closed && s.running == {} && s.rows == {} && s.runs == {}
    requires s.chats.turns == {} && s.chats.parked == {x} && x in s.chats.queued
    ensures var p := Pauses([Chat(ParkCancelled(x))], [], [], []);
            && FindsNothing(s, p)
            && var mid := After(s, Whole(p));
               ClosedRun(mid, [Chat(ReleaseParked(x))]) && x in After(mid, [Chat(ReleaseParked(x))]).chats.turns
  {
    var e := Chat(ParkCancelled(x));
    var mid := Apply(s, e);
    assert [e][1..] == [] && Whole(Pauses([e], [], [], [])) == [e];
    assert After(s, [e]) == mid && NeverOpens(s, [e]);
    assert [Chat(ReleaseParked(x))][1..] == [];
    assert After(mid, [Chat(ReleaseParked(x))]) == Apply(mid, Chat(ReleaseParked(x)));
  }

  /** Task 0 inside, through the open gate. */
  const ENTERED := [Call(0, AdmitOp), Proceed(0)]

  const INSIDE := START.(gate := Gate(false, Some(0), 1, true), tasks := map[0 := Activity(1, None, Free)])

  lemma Entering()
    ensures Runs(START, ENTERED) && After(START, ENTERED) == INSIDE
  {
    var s1 := Apply(START, Call(0, AdmitOp));
    RunsCons(s1, Proceed(0), []);
    RunsCons(START, Call(0, AdmitOp), [Proceed(0)]);
  }

  const CLOSED := [Call(1, CloseOp), Proceed(1)]

  lemma Closing(s: State)
    requires s.gate == FRESH && At(s, 1) == IDLE
    ensures Runs(s, CLOSED)
    ensures var t := After(s, CLOSED); t.gate.closed && t == s.(gate := t.gate, tasks := t.tasks)
  {
    var s1 := Apply(s, Call(1, CloseOp));
    RunsCons(s1, Proceed(1), []);
    RunsCons(s, Call(1, CloseOp), [Proceed(1)]);
  }

  /** A turn started and a second prompt queued behind it, and then the turn parked. */
  const ADMITTED := [Claims(0, 7), Queues(0, 7), Leave(0)]
  const PARKED := [Chat(Parks(7)), Chat(TurnEnds(7))]

  lemma Admitted() returns (s: State)
    ensures Runs(INSIDE, ADMITTED) && After(INSIDE, ADMITTED) == s
    ensures s == START.(tasks := map[0 := IDLE], chats := NO_CHATS.(turns := {7}, queued := {7}))
  {
    var s1 := Apply(INSIDE, Claims(0, 7));
    var s2 := Apply(s1, Queues(0, 7));
    s := Apply(s2, Leave(0));
    RunsCons(s2, Leave(0), []);
    RunsCons(s1, Queues(0, 7), [Leave(0)]);
    RunsCons(INSIDE, Claims(0, 7), [Queues(0, 7), Leave(0)]);
  }

  lemma Parked(s: State) returns (t: State)
    requires s == START.(tasks := map[0 := IDLE], chats := NO_CHATS.(turns := {7}, queued := {7}))
    ensures Runs(s, PARKED) && After(s, PARKED) == t
    ensures t == s.(chats := NO_CHATS.(queued := {7}, parked := {7}))
  {
    var s1 := Apply(s, Chat(Parks(7)));
    t := Apply(s1, Chat(TurnEnds(7)));
    RunsCons(s1, Chat(TurnEnds(7)), []);
    RunsCons(s, Chat(Parks(7)), [Chat(TurnEnds(7))]);
  }

  lemma ParkedRun() returns (t: State)
    ensures Runs(START, ENTERED + ADMITTED + PARKED + CLOSED) && After(START, ENTERED + ADMITTED + PARKED + CLOSED) == t
    ensures t.gate.closed && t.running == {} && t.rows == {} && t.runs == {}
    ensures t.chats == NO_CHATS.(queued := {7}, parked := {7})
  {
    Entering();
    var s := Admitted();
    var u := Parked(s);
    Closing(u);
    t := After(u, CLOSED);
    hide *;
    RunsAppend(START, ENTERED, ADMITTED);
    RunsAppend(START, ENTERED + ADMITTED, PARKED);
    RunsAppend(START, ENTERED + ADMITTED + PARKED, CLOSED);
  }

  /** The exception is real: a turn that starts after an empty census of a closed gate. */
  lemma ParkedQueueEscapesTheCensus()
    ensures exists before, p, later ::
              && Runs(START, before) && FindsNothing(After(START, before), p) && Runs(START, before + Whole(p))
              && ClosedRun(After(START, before + Whole(p)), later)
              && After(After(START, before + Whole(p)), later).chats.turns != {}
  {
    var before := ENTERED + ADMITTED + PARKED + CLOSED;
    var p, later := Pauses([Chat(ParkCancelled(7))], [], [], []), [Chat(ReleaseParked(7))];
    var t := ParkedRun();
    assert Inv(START);
    RunKeepsInv(START, before);
    CancelledParkEscapes(t, 7);
    AfterEmptyCensus(t, p);
    hide *;
    RunsAppend(START, before, Whole(p));
  }

  /** A child is spawned and registered, its row is not saved, it outlives the wait for its exit. */
  const SPAWNED := [BeginSpawn(0), SpawnAndRegister(0, 7)]
  const GIVEN_UP := [SaveFails(0), WaitEnds(0), Leave(0)]

  lemma Spawned() returns (s: State)
    ensures Runs(INSIDE, SPAWNED) && After(INSIDE, SPAWNED) == s
    ensures s == INSIDE.(tasks := map[0 := Activity(1, None, Saving(7))], procs := {7}, running := {7}, used := {7})
  {
    var s1 := Apply(INSIDE, BeginSpawn(0));
    s := Apply(s1, SpawnAndRegister(0, 7));
    RunsCons(s1, SpawnAndRegister(0, 7), []);
    RunsCons(INSIDE, BeginSpawn(0), [SpawnAndRegister(0, 7)]);
  }

  lemma GivenUp(s: State) returns (t: State)
    requires s == INSIDE.(tasks := map[0 := Activity(1, None, Saving(7))], procs := {7}, running := {7}, used := {7})
    ensures Runs(s, GIVEN_UP) && After(s, GIVEN_UP) == t
    ensures t == START.(tasks := map[0 := IDLE], procs := {7}, outlived := {7}, used := {7})
  {
    var s1 := Apply(s, SaveFails(0));
    var s2 := Apply(s1, WaitEnds(0));
    t := Apply(s2, Leave(0));
    RunsCons(s2, Leave(0), []);
    RunsCons(s1, WaitEnds(0), [Leave(0)]);
    RunsCons(s, SaveFails(0), [WaitEnds(0), Leave(0)]);
  }

  /** And a child whose registration failed can outlive its six seconds, and an empty census. */
  lemma LostWorkEscapesTheCensus()
    ensures var before := ENTERED + SPAWNED + GIVEN_UP + CLOSED;
            && Runs(START, before) && FindsNothing(After(START, before), Pauses([], [], [], []))
            && After(START, before).procs == {7}
  {
    Entering();
    var s := Spawned();
    var t := GivenUp(s);
    Closing(t);
    assert FindsNothing(After(t, CLOSED), Pauses([], [], [], []));
    hide *;
    RunsAppend(START, ENTERED, SPAWNED);
    RunsAppend(START, ENTERED + SPAWNED, GIVEN_UP);
    RunsAppend(START, ENTERED + SPAWNED + GIVEN_UP, CLOSED);
  }

  // ------------------------------------------------------------ what an empty census is worth

  /** No turn runs, and none can start. */
  predicate Idle(s: State) {
    s.chats.turns == {} && !MayStart(s.chats)
  }

  /**
    What the deploy relies on. After an empty census of a closed gate no process, task, round or run is left until it
    opens, but children a timed wait had given up on. It stays without a turn if and only if at the census' end none
    runs, no worker is on its way, and no prompt waits behind a park, cancelled or not.
   */
  lemma EmptyCensusStaysIdle(before: seq<Step>, p: Pauses)
    requires Runs(START, before) && FindsNothing(After(START, before), p)
    ensures Runs(START, before + Whole(p))
    ensures var mid := After(START, before + Whole(p));
            && (forall w | w in mid.procs :: GaveUpOn(START, before + Whole(p), w))
            && (forall steps | ClosedRun(mid, steps) ::
                  var end := After(mid, steps);
                  end.running == {} && end.rows == {} && end.runs == {} && end.procs <= mid.procs)
            && ((forall steps | ClosedRun(mid, steps) :: After(mid, steps).chats.turns == {}) <==> Idle(mid))
  {
    assert Inv(START);
    RunKeepsInv(START, before);
    AfterEmptyCensus(After(START, before), p);
    RunsAppend(START, before, Whole(p));
    var mid := After(START, before + Whole(p));
    forall w | w in mid.procs
      ensures GaveUpOn(START, before + Whole(p), w)
    {
      OutlivedMeansGivenUp(START, before + Whole(p), w);
    }
    hide Exclusive, Tracked, GaveUpOn;
    forall steps | ClosedRun(mid, steps)
      ensures Shrinks(mid, After(mid, steps))
    {
      ClosedStaysQuiet(mid, steps);
    }
    IdleExactly(mid);
  }

  lemma IdleExactly(s: State)
    requires Inv(s) && s.gate.closed
    ensures (forall steps | ClosedRun(s, steps) :: After(s, steps).chats.turns == {}) <==> Idle(s)
  {
    hide Exclusive, Tracked;
    if Idle(s) {
      forall steps | ClosedRun(s, steps)
        ensures After(s, steps).chats.turns == {}
      {
        NothingStarts(s, steps);
        ClosedStaysQuiet(s, steps);
      }
    } else if s.chats.turns != {} {
      assert ClosedRun(s, []) && After(s, []) == s;
    } else {
      ClosedStartsExactly(s);
      var steps :| ClosedRun(s, steps) && StartsSomeTurn(s, steps);
      var early := UpToStart(s, steps);
      assert After(s, early).chats.turns != {};
    }
  }

  /** The run cut right after the first turn it starts. */
  lemma {:induction false} UpToStart(s: State, steps: seq<Step>) returns (early: seq<Step>)
    requires Inv(s) && ClosedRun(s, steps) && StartsSomeTurn(s, steps)
    ensures ClosedRun(s, early) && After(s, early).chats.turns != {}
    decreases |steps|
  {
    var e, next := steps[0], Apply(s, steps[0]);
    ClosedStep(s, e);
    StepKeepsExclusive(s, e);
    StepKeepsTracked(s, e);
    var rest := [];
    if exists x :: StartsTurn(s, e, x) {
      var x :| StartsTurn(s, e, x);
      assert x in next.chats.turns;
    } else {
      rest := UpToStart(next, steps[1..]);
    }
    hide Exclusive, Tracked, Apply;
    early := [e] + rest;
    assert early[0] == e && early[1..] == rest;
    assert ClosedRun(next, rest) && After(next, rest).chats.turns != {};
  }
}
