/**
  The re-entrant admission gate of server/deploy_admission.py and the work that
  starts inside it or beside it, over every interleaving of tasks.
 */
module Admission {
  import opened Base

  type Task = nat
  type Work = nat
  type Session = nat

  // ------------------------------------------------------------ the gate

  /** The fields of the gate; `locked` is its asyncio lock. */
  datatype Gate = Gate(closed: bool, owner: Option<Task>, depth: nat, locked: bool)

  const FRESH := Gate(false, None, 0, false)

  /** A task that does not hold the gate, once the lock is granted: refused, or in. */
  function Entered(g: Gate, t: Task): Gate {
    if g.closed then g else g.(owner := Some(t), depth := 1, locked := true)
  }

  function Deepened(g: Gate): Gate { g.(depth := g.depth + 1) }

  function Left(g: Gate): Gate {
    if g.depth > 1 then g.(depth := g.depth - 1) else g.(owner := None, depth := 0, locked := false)
  }

  class DeployAdmissionGate {
    var closed: bool
    var owner: Option<Task>
    var depth: nat
    var locked: bool

    function Value(): Gate reads this { Gate(closed, owner, depth, locked) }

    constructor ()
      ensures Value() == FRESH
    {
      closed, owner, depth, locked := false, None, 0, false;
    }

    /** The part of `admit` before its body; without the gate it runs once the lock is granted. */
    method Admit(t: Task) returns (refused: bool)
      requires owner == Some(t) || !locked
      modifies this
      ensures Value() == if old(owner) == Some(t) then Deepened(old(Value())) else Entered(old(Value()), t)
      ensures refused <==> old(owner) != Some(t) && old(closed)
      // In plain fields.
      ensures closed == old(closed) && (refused ==> owner == old(owner) && depth == old(depth) && locked == old(locked))
      ensures !refused ==> owner == Some(t)
      ensures !refused && old(owner) == Some(t) ==> depth == old(depth) + 1 && locked == old(locked)
      ensures !refused && old(owner) != Some(t) ==> depth == 1 && locked
    {
      if owner == Some(t) {
        depth := depth + 1;
        return false;
      }
      locked := true;
      if closed {
        locked := false;
        return true;
      }
      owner := Some(t);
      depth := 1;
      refused := false;
    }

    /** The part of `admit` after its body: `nested` says which of the two bodies ran. */
    method Leave(nested: bool)
      requires locked && owner.Some? && depth >= 1 && (nested <==> depth > 1)
      modifies this
      ensures Value() == Left(old(Value()))
      ensures closed == old(closed) && depth == old(depth) - 1
      ensures if nested then owner == old(owner) && locked else owner.None? && !locked
    {
      if nested {
        depth := depth - 1;
      } else {
        depth := 0;
        owner := None;
        locked := false;
      }
    }

    method Close()
      requires !locked
      modifies this
      ensures Value() == old(Value()).(closed := true)
    {
      locked := true;
      closed := true;
      locked := false;
    }

    method Open()
      requires !locked
      modifies this
      ensures Value() == old(Value()).(closed := false)
    {
      locked := true;
      closed := false;
      locked := false;
    }
  }

  // ------------------------------------------------------------ turns, whether admitted or not

  /**
    The session manager's view of its sessions. `turns` have an active turn, `queued` a prompt held back, `parked` a
    row in parked_turns. `releasing` are sessions whose park was cancelled and whose queue is about to be released,
    `launching` the workers of claimed task runs whose first turn is about to start.
   */
  datatype Chats = Chats(
    turns: set<Session>, queued: set<Session>, parked: set<Session>, releasing: set<Session>, launching: set<Session>)

  /** What happens to sessions without the gate. */
  datatype ChatStep =
    | Parks(x: Session)           // the turn hit the usage limit: its row is stored
    | TurnEnds(x: Session)
    | QueueEmptied(x: Session)
    | ParkDropped(x: Session)     // the row goes: a wake-up, the end of the attempts, the session's delete
    | ParkCancelled(x: Session)   // DELETE parked-turn, up to the row
    | ReleaseParked(x: Session)   // and the rest of it: release_parked_queue
    | WorkerStarts(x: Session)    // start_message(admission_claimed=True)
    | WorkerFails(x: Session)

  predicate ChatEnabled(c: Chats, e: ChatStep) {
    match e
    case Parks(x) => x in c.turns
    case ParkCancelled(x) => x in c.parked
    case ReleaseParked(x) => x in c.releasing
    case WorkerStarts(x) => x in c.launching
    case WorkerFails(x) => x in c.launching
    case _ => true
  }

  function ChatNext(c: Chats, e: ChatStep): Chats {
    match e
    case Parks(x) => c.(parked := c.parked + {x})
    case TurnEnds(x) => c.(turns := c.turns - {x})
    case QueueEmptied(x) => c.(queued := c.queued - {x})
    case ParkDropped(x) => c.(parked := c.parked - {x})
    case ParkCancelled(x) => c.(parked := c.parked - {x}, releasing := c.releasing + {x})
    case ReleaseParked(x) =>
      c.(releasing := c.releasing - {x}, turns := if x in c.queued then c.turns + {x} else c.turns)
    case WorkerStarts(x) =>
      var d := c.(launching := c.launching - {x});
      if x in c.turns || x in c.parked then d.(queued := c.queued + {x}) else d.(turns := c.turns + {x})
    case WorkerFails(x) => c.(launching := c.launching - {x})
  }

  // ------------------------------------------------------------ tasks and work

  datatype Op = AdmitOp | CloseOp | OpenOp | RequireOp

  /** What an admitted body is awaiting: between two of these its code runs without a break. */
  datatype Pc =
    | Free
    | Spawning              // _start_task: the subprocess
    | Saving(w: Work)       // registered; the row of the task
    | Announcing(w: Work)   // the broadcast of the started task
    | Settling(w: Work)     // the row failed: popped and signalled, and now at most six seconds for the exit
    | Creating              // create_and_start: the child session and the row of the round
    | Starting(r: Session)  // row and record are there; the child's turn
    | Failing(r: Session)   // the turn failed to start; the row's finish

  /** Where a task stands: how many admit bodies it is in, what it wants the lock for, what its body awaits. */
  datatype Activity = Activity(nesting: nat, waiting: Option<Op>, pc: Pc)

  const IDLE := Activity(0, None, Free)

  /**
    `procs` are live children, `running` the registered ones, `monitored` those whose monitor task exists. `rows` are
    the delegation children with a running round, `runs` the workers with a running task run. As history, `outlived`
    are children whose timed wait ended before they did, and `used` all ids there were.
   */
  datatype State = State(
    gate: Gate, tasks: map<Task, Activity>, procs: set<Work>, running: set<Work>, monitored: set<Work>,
    rows: set<Session>, runs: set<Session>, chats: Chats, outlived: set<Work>, used: set<Work>)

  const NO_CHATS := Chats({}, {}, {}, {}, {})

  const START := State(FRESH, map[], {}, {}, {}, {}, {}, NO_CHATS, {}, {})

  datatype Step =
    | Call(t: Task, op: Op)
    | Proceed(t: Task)
    | GiveUpWaiting(t: Task)
    | Leave(t: Task)
    // _start_task
    | BeginSpawn(t: Task)
    | SpawnFails(t: Task)
    | SpawnAndRegister(t: Task, w: Work)
    | Saved(t: Task)
    | SaveFails(t: Task)
    | Announced(t: Task, cancelled: bool)
    | SeesExit(t: Task)
    | WaitEnds(t: Task)
    // create_and_start
    | BeginRound(t: Task)
    | RowFails(t: Task)
    | RowInserted(t: Task, r: Session, cancelled: bool)
    | TurnStarts(t: Task)
    | TurnQueues(t: Task)
    | TurnFails(t: Task)
    | StartCancelled(t: Task)
    | RowFinished(t: Task)
    | FinishCancelled(t: Task)
    // start_message, once it has looked: the session is idle, or busy
    | Claims(t: Task, x: Session)
    | Queues(t: Task, x: Session)
    // _dispatch_task: the row of the run
    | RunClaimed(t: Task, x: Session, cancelled: bool)
    // anything else
    | Exits(w: Work)
    | Reap(w: Work)
    | MonitorGivesUp(w: Work)
    | RowSettles(r: Session)
    | RunSettles(x: Session)
    | Chat(e: ChatStep)

  function At(s: State, t: Task): Activity {
    if t in s.tasks then s.tasks[t] else IDLE
  }

  /** The task runs its admitted body. */
  predicate Inside(s: State, t: Task) {
    At(s, t).nesting > 0 && At(s, t).waiting.None?
  }

  /** The order of the code, and nothing else: a body is left only where it has returned or raised. */
  predicate Enabled(s: State, e: Step) {
    match e
    case Call(t, _) => At(s, t).waiting.None?
    case Proceed(t) => At(s, t).waiting.Some? && !s.gate.locked
    case GiveUpWaiting(t) => At(s, t).waiting.Some?
    case Leave(t) => Inside(s, t) && (At(s, t).nesting > 1 || At(s, t).pc.Free?)
    case BeginSpawn(t) => Inside(s, t) && At(s, t).pc.Free?
    case SpawnFails(t) => Inside(s, t) && At(s, t).pc.Spawning?
    case SpawnAndRegister(t, w) => Inside(s, t) && At(s, t).pc.Spawning? && w !in s.used
    case Saved(t) => Inside(s, t) && At(s, t).pc.Saving?
    case SaveFails(t) => Inside(s, t) && At(s, t).pc.Saving?
    case Announced(t, _) => Inside(s, t) && At(s, t).pc.Announcing?
    case SeesExit(t) => Inside(s, t) && At(s, t).pc.Settling? && At(s, t).pc.w !in s.procs
    case WaitEnds(t) => Inside(s, t) && At(s, t).pc.Settling?
    case BeginRound(t) => Inside(s, t) && At(s, t).pc.Free?
    case RowFails(t) => Inside(s, t) && At(s, t).pc.Creating?
    case RowInserted(t, _, _) => Inside(s, t) && At(s, t).pc.Creating?
    case TurnStarts(t) => Inside(s, t) && At(s, t).pc.Starting?
    case TurnQueues(t) => Inside(s, t) && At(s, t).pc.Starting?
    case TurnFails(t) => Inside(s, t) && At(s, t).pc.Starting?
    case StartCancelled(t) => Inside(s, t) && At(s, t).pc.Starting?
    case RowFinished(t) => Inside(s, t) && At(s, t).pc.Failing?
    case FinishCancelled(t) => Inside(s, t) && At(s, t).pc.Failing?
    case Claims(t, _) => Inside(s, t) && At(s, t).pc.Free?
    case Queues(t, _) => Inside(s, t) && At(s, t).pc.Free?
    case RunClaimed(t, _, _) => Inside(s, t) && At(s, t).pc.Free?
    case Exits(w) => w in s.procs
    case Reap(w) => w in s.monitored && w !in s.procs
    case MonitorGivesUp(w) => w in s.monitored
    case RowSettles(_) => true
    case RunSettles(_) => true
    case Chat(c) => ChatEnabled(s.chats, c)
  }

  function Put(s: State, t: Task, a: Activity, g: Gate): State {
    s.(tasks := s.tasks[t := a], gate := g)
  }

  function Await(s: State, t: Task, pc: Pc): State {
    Put(s, t, At(s, t).(pc := pc), s.gate)
  }

  function Started(s: State, x: Session): State {
    s.(chats := s.chats.(turns := s.chats.turns + {x}))
  }

  function Held(s: State, x: Session): State {
    s.(chats := s.chats.(queued := s.chats.queued + {x}))
  }

  /** The lock is granted: each critical section is over before any other task runs, except an admitted body. */
  function Granted(s: State, t: Task, op: Op): State {
    var a := At(s, t).(waiting := None);
    match op
    case AdmitOp => Put(s, t, if s.gate.closed then a else Activity(1, None, Free), Entered(s.gate, t))
    case CloseOp => Put(s, t, a, s.gate.(closed := true))
    case OpenOp => Put(s, t, a, s.gate.(closed := false))
    case RequireOp => Put(s, t, a, s.gate)
  }

  function Apply(s: State, e: Step): State
    requires Enabled(s, e)
  {
    match e
    case Call(t, op) =>
      var a := At(s, t);
      if op == AdmitOp && s.gate.owner == Some(t) then Put(s, t, a.(nesting := a.nesting + 1), Deepened(s.gate))
      else Put(s, t, a.(waiting := Some(op)), s.gate)
    case Proceed(t) => Granted(s, t, At(s, t).waiting.value)
    case GiveUpWaiting(t) => Put(s, t, At(s, t).(waiting := None), s.gate)
    case Leave(t) =>
      var a := At(s, t);
      Put(s, t, if a.nesting > 1 then a.(nesting := a.nesting - 1) else IDLE, Left(s.gate))
    case BeginSpawn(t) => Await(s, t, Spawning)
    case SpawnFails(t) => Await(s, t, Free)
    case SpawnAndRegister(t, w) =>
      Await(s, t, Saving(w)).(procs := s.procs + {w}, running := s.running + {w}, used := s.used + {w})
    case Saved(t) => Await(s, t, Announcing(At(s, t).pc.w))
    case SaveFails(t) => Await(s, t, Settling(At(s, t).pc.w)).(running := s.running - {At(s, t).pc.w})
    case Announced(t, cancelled) =>
      Await(s, t, Free).(monitored := if cancelled then s.monitored else s.monitored + {At(s, t).pc.w})
    case SeesExit(t) => Await(s, t, Free)
    case WaitEnds(t) => Await(s, t, Free).(outlived := s.outlived + ({At(s, t).pc.w} * s.procs))
    case BeginRound(t) => Await(s, t, Creating)
    case RowFails(t) => Await(s, t, Free)
    case RowInserted(t, r, cancelled) => Await(s, t, if cancelled then Free else Starting(r)).(rows := s.rows + {r})
    case TurnStarts(t) => Started(Await(s, t, Free), At(s, t).pc.r)
    case TurnQueues(t) => Held(Await(s, t, Free), At(s, t).pc.r)
    case TurnFails(t) => Await(s, t, Failing(At(s, t).pc.r))
    case StartCancelled(t) => Await(s, t, Free)
    case RowFinished(t) => Await(s, t, Free).(rows := s.rows - {At(s, t).pc.r})
    case FinishCancelled(t) => Await(s, t, Free)
    case Claims(t, x) => Started(Await(s, t, Free), x)
    case Queues(t, x) => Held(Await(s, t, Free), x)
    case RunClaimed(t, x, cancelled) =>
      Await(s, t, Free).(
        runs := s.runs + {x},
        chats := if cancelled then s.chats else s.chats.(launching := s.chats.launching + {x}))
    case Exits(w) => s.(procs := s.procs - {w})
    case Reap(w) => s.(running := s.running - {w}, monitored := s.monitored - {w})
    case MonitorGivesUp(w) =>
      s.(running := s.running - {w}, monitored := s.monitored - {w}, outlived := s.outlived + ({w} * s.procs))
    case RowSettles(r) => s.(rows := s.rows - {r})
    case RunSettles(x) => s.(runs := s.runs - {x})
    case Chat(c) => s.(chats := ChatNext(s.chats, c))
  }

  // ------------------------------------------------------------ mutual exclusion and tracking

  /** The lock is held exactly while one task is inside, the gate is then open, and depth is that task's nesting. */
  ghost predicate Exclusive(s: State) {
    && (s.gate.locked <==> s.gate.owner.Some?)
    && (s.gate.owner.Some? ==> !s.gate.closed && s.gate.depth > 0)
    && (s.gate.owner.None? ==> s.gate.depth == 0)
    && (forall t: Task :: At(s, t).nesting == if s.gate.owner == Some(t) then s.gate.depth else 0)
    && (forall t: Task :: At(s, t).nesting == 0 ==> At(s, t).pc.Free?)
  }

  /** The child whose registration failed and whose exit the task inside is waiting for. */
  function Unsettled(s: State): set<Work> {
    if s.gate.owner.Some? && At(s, s.gate.owner.value).pc.Settling? then {At(s, s.gate.owner.value).pc.w} else {}
  }

  /**
    A live child is registered, or outlived its wait, or is being waited for by the task inside; never two of these.
   */
  ghost predicate Tracked(s: State) {
    && s.procs <= s.running + s.outlived + Unsettled(s)
    && s.running !! s.outlived && Unsettled(s) !! s.running && Unsettled(s) !! s.outlived
    && s.monitored <= s.running && s.running + s.outlived + Unsettled(s) <= s.used
    && (s.gate.owner.Some? ==>
          var pc := At(s, s.gate.owner.value).pc;
          && (pc.Saving? ==> pc.w in s.running && pc.w !in s.monitored)
          && (pc.Announcing? ==> pc.w in s.running && pc.w !in s.monitored))
  }

  ghost predicate Inv(s: State) { Exclusive(s) && Tracked(s) }

  predicate AtTheGate(e: Step) { e.Call? || e.Proceed? || e.GiveUpWaiting? || e.Leave? }

  predicate OfNoTask(e: Step) { e.Exits? || e.Reap? || e.MonitorGivesUp? || e.RowSettles? || e.RunSettles? || e.Chat? }

  lemma GateKeepsExclusive(s: State, e: Step)
    requires Exclusive(s) && Enabled(s, e) && AtTheGate(e)
    ensures Exclusive(Apply(s, e))
  {
  }

  lemma AwaitKeepsExclusive(s: State, t: Task, pc: Pc)
    requires Exclusive(s) && At(s, t).nesting > 0
    ensures Exclusive(Await(s, t, pc))
  {
  }

  lemma SameTasks(s: State, t: State)
    requires Exclusive(s) && t.gate == s.gate && t.tasks == s.tasks
    ensures Exclusive(t)
  {
    assert forall k: Task :: At(t, k) == At(s, k);
  }

  lemma StepKeepsExclusive(s: State, e: Step)
    requires Exclusive(s) && Enabled(s, e)
    ensures Exclusive(Apply(s, e))
  {
    hide Exclusive;
    if AtTheGate(e) {
      GateKeepsExclusive(s, e);
    } else if OfNoTask(e) {
      SameTasks(s, Apply(s, e));
    } else {
      var pc := At(Apply(s, e), e.t).pc;
      AwaitKeepsExclusive(s, e.t, pc);
      SameTasks(Await(s, e.t, pc), Apply(s, e));
    }
  }

  lemma OnlyTheOwnerActs(s: State, t: Task)
    requires Exclusive(s) && At(s, t).nesting > 0
    ensures s.gate.owner == Some(t) && s.gate.depth == At(s, t).nesting
  {
  }

  lemma NoTaskKeepsTracked(s: State, e: Step)
    requires Inv(s) && Enabled(s, e) && OfNoTask(e)
    ensures Tracked(Apply(s, e))
  {
    hide Exclusive;
    assert Unsettled(Apply(s, e)) == Unsettled(s);
  }

  lemma GateKeepsTracked(s: State, e: Step)
    requires Inv(s) && Enabled(s, e) && AtTheGate(e)
    ensures Tracked(Apply(s, e))
  {
    if At(s, e.t).nesting > 0 {
      OnlyTheOwnerActs(s, e.t);
    }
    assert Unsettled(Apply(s, e)) == Unsettled(s);
  }

  lemma StepKeepsTracked(s: State, e: Step)
    requires Inv(s) && Enabled(s, e)
    ensures Tracked(Apply(s, e))
  {
    if OfNoTask(e) {
      NoTaskKeepsTracked(s, e);
    } else if AtTheGate(e) {
      GateKeepsTracked(s, e);
    } else {
      OnlyTheOwnerActs(s, e.t);
      hide Exclusive;
    }
  }

  predicate Runs(s: State, steps: seq<Step>)
    decreases |steps|
  {
    steps == [] || (Enabled(s, steps[0]) && Runs(Apply(s, steps[0]), steps[1..]))
  }

  function After(s: State, steps: seq<Step>): State
    requires Runs(s, steps)
    decreases |steps|
  {
    if steps == [] then s else After(Apply(s, steps[0]), steps[1..])
  }

  lemma {:induction false} RunKeepsInv(s: State, steps: seq<Step>)
    requires Inv(s) && Runs(s, steps)
    ensures Inv(After(s, steps))
    decreases |steps|
  {
    if steps != [] {
      StepKeepsExclusive(s, steps[0]);
      StepKeepsTracked(s, steps[0]);
      RunKeepsInv(Apply(s, steps[0]), steps[1..]);
    }
  }

  /** Every interleaving: at most one task is inside, only through an open gate, with depth its nesting. */
  lemma EveryRunIsExclusive(steps: seq<Step>)
    requires Runs(START, steps)
    ensures var s := After(START, steps);
            && (forall t: Task, u: Task :: At(s, t).nesting > 0 && At(s, u).nesting > 0 ==> t == u)
            && (forall t: Task :: At(s, t).nesting > 0 ==>
                  !s.gate.closed && s.gate.owner == Some(t) && s.gate.depth == At(s, t).nesting)
  {
    assert Inv(START);
    RunKeepsInv(START, steps);
  }

  // ------------------------------------------------------------ what a closed census misses

  /** This step gives up on a child that is still alive: a failed registration, or a monitor, whose wait timed out. */
  predicate GivesUpOn(s: State, e: Step, w: Work) {
    && w in s.procs
    && ((e.WaitEnds? && At(s, e.t).pc == Settling(w)) || e == MonitorGivesUp(w))
  }

  /** Some step of the run gave up on `w`. */
  ghost predicate GaveUpOn(s: State, steps: seq<Step>, w: Work)
    requires Runs(s, steps)
    decreases |steps|
  {
    steps != [] && (GivesUpOn(s, steps[0], w) || GaveUpOn(Apply(s, steps[0]), steps[1..], w))
  }

  lemma {:induction false} OutlivedMeansGivenUp(s: State, steps: seq<Step>, w: Work)
    requires Runs(s, steps)
    ensures w in After(s, steps).outlived <==> w in s.outlived || GaveUpOn(s, steps, w)
    decreases |steps|
  {
    if steps != [] {
      OutlivedGrows(s, steps[0], w);
      OutlivedMeansGivenUp(Apply(s, steps[0]), steps[1..], w);
    }
  }

  lemma OutlivedGrows(s: State, e: Step, w: Work)
    requires Enabled(s, e)
    ensures w in Apply(s, e).outlived <==> w in s.outlived || GivesUpOn(s, e, w)
  {
  }

  /**
    A closed gate: a live child is missing from the census if and only if its timed wait gave up on it while it lived.
   */
  lemma ClosedCensusMissesExactly(steps: seq<Step>, w: Work)
    requires Runs(START, steps) && After(START, steps).gate.closed && w in After(START, steps).procs
    ensures w !in After(START, steps).running <==> GaveUpOn(START, steps, w)
    ensures forall t: Task :: At(After(START, steps), t).pc.Free?
  {
    assert Inv(START);
    RunKeepsInv(START, steps);
    OutlivedMeansGivenUp(START, steps, w);
  }

  // ------------------------------------------------------------ runs in pieces

  lemma {:induction false} RunsAppend(s: State, first: seq<Step>, rest: seq<Step>)
    requires Runs(s, first) && Runs(After(s, first), rest)
    ensures Runs(s, first + rest) && After(s, first + rest) == After(After(s, first), rest)
    decreases |first|
  {
    if first == [] {
      assert first + rest == rest;
    } else {
      assert (first + rest)[0] == first[0] && (first + rest)[1..] == first[1..] + rest;
      RunsAppend(Apply(s, first[0]), first[1..], rest);
    }
  }

  lemma RunsCons(s: State, e: Step, rest: seq<Step>)
    requires Enabled(s, e) && Runs(Apply(s, e), rest)
    ensures Runs(s, [e] + rest) && After(s, [e] + rest) == After(Apply(s, e), rest)
  {
    assert ([e] + rest)[1..] == rest;
  }

  // ------------------------------------------------------------ re-entry

  /** A task inside is never refused or blocked by a nested admit, and leaving it restores the gate. */
  lemma NestedAdmitIsFree(s: State, t: Task)
    requires Inv(s) && Inside(s, t)
    ensures Enabled(s, Call(t, AdmitOp))
    ensures var inside := Apply(s, Call(t, AdmitOp));
            && At(inside, t) == At(s, t).(nesting := At(s, t).nesting + 1)
            && Enabled(inside, Leave(t))
            && Apply(inside, Leave(t)).gate == s.gate && At(Apply(inside, Leave(t)), t) == At(s, t)
  {
    OnlyTheOwnerActs(s, t);
  }

  /** A task that calls close (or open) from inside an admit body waits for itself: the lock is never granted to it. */
  lemma {:induction false} CloseFromInsideBlocks(s: State, t: Task, steps: seq<Step>)
    requires Inv(s) && At(s, t).nesting > 0 && At(s, t).waiting.Some? && Runs(s, steps) && GiveUpWaiting(t) !in steps
    ensures At(After(s, steps), t) == At(s, t) && After(s, steps).gate == s.gate
    decreases |steps|
  {
    if steps != [] {
      StepKeepsExclusive(s, steps[0]);
      StepKeepsTracked(s, steps[0]);
      StuckStep(s, t, steps[0]);
      CloseFromInsideBlocks(Apply(s, steps[0]), t, steps[1..]);
    }
  }

  lemma StuckStep(s: State, t: Task, e: Step)
    requires Inv(s) && At(s, t).nesting > 0 && At(s, t).waiting.Some? && Enabled(s, e) && e != GiveUpWaiting(t)
    ensures At(Apply(s, e), t) == At(s, t) && Apply(s, e).gate == s.gate
  {
    OnlyTheOwnerActs(s, t);
  }
}
