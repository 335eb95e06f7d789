/**
  Delegation rounds under every interleaving of results, errors, limit pauses,
  cancels, start failures, follow-ups, deletes and restarts. A step is the code
  between two awaits of server/delegations.py, or one SQL statement.
 */
module Rounds {
  import opened Base
  import opened RoundStates

  /** A delegation_runs row. */
  datatype Row = Row(delegation: string, roundNo: nat, state: RoundState)

  /** A DelegationRunState object of the running process; `overwritten` by a start failure. */
  datatype Handle = Handle(runId: string, delegation: string, roundNo: nat, state: RoundState, injected: bool,
    overwritten: bool)

  /**
    Ordinary terminal transitions give up when their compare-and-set loses; the start-failure handler does not look.
   */
  datatype Path = Ordinary | StartFailure

  /**
    A coroutine that has flipped its handle and still has to write the row, to compose the terminal turn, or to store
    it.
   */
  datatype Task =
    | Finishing(handle: nat, path: Path, state: RoundState)
    | Injecting(handle: nat, path: Path)
    | Enqueuing(handle: nat, text: RoundState, spoiled: bool)

  /** A follow-up that has read the newest round of its child. */
  datatype Prior = Prior(child: string, roundNo: nat)

  datatype World = World(
    rows: map<string, Row>,
    outbox: map<string, RoundState>,  // terminal sources, by run id, with the state their text reports
    children: set<string>,            // child sessions that exist
    heard: set<string>,               // those whose parent session exists
    handles: map<nat, Handle>,
    cache: map<string, nat>,          // _records
    tasks: set<Task>,
    creating: set<string>,            // rounds whose row is committed and whose handle is not registered yet
    priors: set<Prior>,
    recovering: bool,
    // history
    usedRuns: set<string>,
    usedChildren: set<string>,
    emitted: seq<string>,
    spoiled: set<string>)             // rounds whose source was composed from an overwritten handle

  datatype Step =
    | InsertFirst(child: string, runId: string)
    | ReadPrior(child: string)
    | InsertFollowUp(child: string, roundNo: nat, runId: string)
    | Register(runId: string, handle: nat)
    | Load(child: string, runId: string, handle: nat)
    | TerminalEvent(child: string, state: RoundState)
    | LimitPaused(child: string)
    | StartFails(handle: nat)
    | Finish(task: Task)
    | Compose(task: Task)
    | Enqueue(task: Task, committed: bool, returned: bool)
    | DeleteChild(child: string)
    | DeleteParent(child: string)
    | Crash
    | RecoverRow(runId: string)
    | RecoverSource(runId: string)
    | RecoveryDone

  predicate RoundTaken(w: World, child: string, n: nat) {
    exists r | r in w.rows :: w.rows[r].delegation == child && w.rows[r].roundNo == n
  }

  predicate Newest(w: World, runId: string) {
    && runId in w.rows
    && forall r | r in w.rows && w.rows[r].delegation == w.rows[runId].delegation ::
         w.rows[r].roundNo <= w.rows[runId].roundNo
  }

  /** INSERT INTO delegation_runs: a missing session or a taken (delegation, round) refuses it. */
  function InsertRow(w: World, child: string, n: nat, runId: string): World {
    if child !in w.children || runId in w.usedRuns || RoundTaken(w, child, n) then w
    else w.(rows := w.rows[runId := Row(child, n, Running)],
            usedRuns := w.usedRuns + {runId},
            creating := w.creating + {runId})
  }

  /** finish_delegation_run: the compare-and-set on a running row. */
  function FinishRow(rows: map<string, Row>, runId: string, state: RoundState): map<string, Row> {
    if runId in rows && rows[runId].state.Running? then rows[runId := rows[runId].(state := state)] else rows
  }

  predicate Changes(rows: map<string, Row>, runId: string) {
    runId in rows && rows[runId].state.Running?
  }

  /** The unique source key: a second insert is ignored; without a parent session there is nothing to insert. */
  function Emit(w: World, runId: string, state: RoundState, spoiled: bool): World {
    if runId in w.outbox || runId !in w.rows || w.rows[runId].delegation !in w.heard then w
    else w.(outbox := w.outbox[runId := state], emitted := w.emitted + [runId],
            spoiled := if spoiled then w.spoiled + {runId} else w.spoiled)
  }

  function Next(w: World, s: Step): World {
    match s
    case InsertFirst(child, runId) =>
      if w.recovering || child in w.usedChildren then w
      else
        var v := w.(
          children := w.children + {child}, heard := w.heard + {child}, usedChildren := w.usedChildren + {child});
        InsertRow(v, child, 1, runId)
    case ReadPrior(child) =>
      if w.recovering || child !in w.cache || w.cache[child] !in w.handles ||
        w.handles[w.cache[child]].state.Running? then w
      else w.(priors := w.priors + {Prior(child, w.handles[w.cache[child]].roundNo)})
    case InsertFollowUp(child, n, runId) =>
      if Prior(child, n) !in w.priors then w else InsertRow(w, child, n + 1, runId)
    case Register(runId, h) =>
      if runId !in w.creating || h in w.handles || runId !in w.rows then w.(creating := w.creating - {runId})
      else w.(handles := w.handles[
                h := Handle(runId, w.rows[runId].delegation, w.rows[runId].roundNo, Running, false, false)],
              cache := w.cache[w.rows[runId].delegation := h],
              creating := w.creating - {runId})
    case Load(child, runId, h) =>
      if w.recovering || h in w.handles || !Newest(w, runId) || w.rows[runId].delegation != child then w
      else w.(handles := w.handles[h := Handle(runId, child, w.rows[runId].roundNo, w.rows[runId].state, false, false)],
              cache := w.cache[child := h])
    case TerminalEvent(child, state) =>
      if state.Running? || child !in w.cache || w.cache[child] !in w.handles ||
        !w.handles[w.cache[child]].state.Running? then w
      else w.(handles := w.handles[w.cache[child] := w.handles[w.cache[child]].(state := state)],
              tasks := w.tasks + {Finishing(w.cache[child], Ordinary, state)})
    case LimitPaused(child) => w
    case StartFails(h) =>
      if h !in w.handles then w
      else w.(handles := w.handles[h := w.handles[h].(state := Failed, overwritten := true)],
              tasks := w.tasks + {Finishing(h, StartFailure, Failed)})
    case Finish(t) =>
      if t !in w.tasks || !t.Finishing? || t.handle !in w.handles then w
      else
        var runId := w.handles[t.handle].runId;
        var goesOn := Changes(w.rows, runId) || t.path.StartFailure?;
        w.(rows := FinishRow(w.rows, runId, t.state),
           tasks := (w.tasks - {t}) + if goesOn then {Injecting(t.handle, t.path)} else {})
    case Compose(t) =>
      if t !in w.tasks || !t.Injecting? || t.handle !in w.handles then w
      else
        var h := w.handles[t.handle];
        w.(tasks := (w.tasks - {t}) + if h.injected then {} else {Enqueuing(t.handle, h.state, h.overwritten)})
    case Enqueue(t, committed, returned) =>
      if t !in w.tasks || !t.Enqueuing? || t.handle !in w.handles then w
      else
        var v, h := w.(tasks := w.tasks - {t}), w.handles[t.handle];
        if !committed then v
        else
          Emit(if returned then v.(handles := v.handles[t.handle := h.(injected := true)]) else v,
               h.runId, t.text, t.spoiled)
    case DeleteChild(child) =>
      w.(rows := map r | r in w.rows && w.rows[r].delegation != child :: w.rows[r],
         children := w.children - {child},
         heard := w.heard - {child})
    case DeleteParent(child) =>
      w.(outbox := map r | r in w.outbox && (r in w.rows ==> w.rows[r].delegation != child) :: w.outbox[r],
         heard := w.heard - {child})
    case Crash =>
      w.(handles := map[], cache := map[], tasks := {}, creating := {}, priors := {}, recovering := true)
    case RecoverRow(runId) =>
      if !w.recovering then w else w.(rows := FinishRow(w.rows, runId, Interrupted))
    case RecoverSource(runId) =>
      if !w.recovering || runId !in w.rows || w.rows[runId].state.Running? then w
      else Emit(w, runId, w.rows[runId].state, false)
    case RecoveryDone => w.(recovering := false)
  }

  // ------------------------------------------------------------ invariant

  ghost predicate LedgerOk(w: World) {
    && w.rows.Keys <= w.usedRuns
    && w.heard <= w.children <= w.usedChildren
    && (forall r | r in w.rows :: w.rows[r].roundNo >= 1 && w.rows[r].delegation in w.children)
    && (forall r, q | r in w.rows && q in w.rows && r != q && w.rows[r].delegation == w.rows[q].delegation ::
          w.rows[r].roundNo != w.rows[q].roundNo)
    && (forall r, n | r in w.rows && 1 <= n < w.rows[r].roundNo :: RoundTaken(w, w.rows[r].delegation, n))
  }

  ghost predicate HandlesOk(w: World) {
    && (w.recovering ==> w.handles == map[] && w.tasks == {} && w.cache == map[] && w.creating == {} && w.priors == {})
    && (forall h | h in w.handles ::
          && (w.handles[h].overwritten ==> w.handles[h].state == Failed)
          && w.handles[h].runId in w.usedRuns
          && w.handles[h].delegation in w.usedChildren
          && (w.handles[h].delegation in w.children ==> w.handles[h].runId in w.rows)
          && (w.handles[h].runId in w.rows ==>
                w.rows[w.handles[h].runId].delegation == w.handles[h].delegation &&
                w.rows[w.handles[h].runId].roundNo == w.handles[h].roundNo))
    && (forall t | t in w.tasks :: t.handle in w.handles)
    && (forall c | c in w.cache :: w.cache[c] in w.handles && w.handles[w.cache[c]].delegation == c)
    && w.creating <= w.usedRuns
  }

  predicate RowIs(w: World, runId: string, state: RoundState) {
    runId in w.rows ==> w.rows[runId].state == state
  }

  predicate Over(w: World, runId: string) {
    runId in w.rows ==> !w.rows[runId].state.Running?
  }

  /** A coroutine on its way: what it may assume about its row. */
  ghost predicate TasksOk(w: World) {
    forall t | t in w.tasks && t.handle in w.handles ::
      var h := w.handles[t.handle];
      match t
      case Finishing(_, path, state) =>
        !state.Running? &&
          (if path.Ordinary? then h.state == state || h.overwritten else state == Failed && h.overwritten)
      case Injecting(_, path) =>
        Over(w, h.runId) && (h.overwritten || (path.Ordinary? && RowIs(w, h.runId, h.state)))
      case Enqueuing(_, text, spoiled) =>
        Over(w, h.runId) && (if spoiled then text == Failed && h.overwritten else RowIs(w, h.runId, text))
  }

  ghost predicate OutboxOk(w: World) {
    && NoDuplicates(w.emitted)
    && (forall r | r in w.outbox :: r in w.emitted && Over(w, r))
    && (forall r | r in w.emitted ::
          r in w.usedRuns && (r in w.rows && w.rows[r].delegation in w.heard ==> r in w.outbox))
    && (forall r | r in w.outbox :: if r in w.spoiled then w.outbox[r] == Failed else RowIs(w, r, w.outbox[r]))
    && (forall r | r in w.spoiled :: r in w.emitted)
  }

  /** The round a follow-up has read is there, with all before it, as long as its child is. */
  ghost predicate PriorsOk(w: World) {
    && (forall p | p in w.priors :: p.child in w.usedChildren)
    && (forall p, m | p in w.priors && 1 <= m <= p.roundNo :: p.child in w.children ==> RoundTaken(w, p.child, m))
  }

  ghost predicate Core(w: World) {
    LedgerOk(w) && HandlesOk(w) && TasksOk(w) && OutboxOk(w)
  }

  ghost predicate Inv(w: World) {
    Core(w) && PriorsOk(w)
  }

  const EMPTY: World := World(map[], map[], {}, {}, map[], map[], {}, {}, {}, false, {}, {}, [], {})

  /** What one step may do to a round: leave `running` once, or go with its session. */
  ghost predicate RoundsAdvance(w: World, v: World) {
    && w.usedRuns <= v.usedRuns
    && (forall r | r in w.rows && r in v.rows ::
          && v.rows[r].delegation == w.rows[r].delegation
          && v.rows[r].roundNo == w.rows[r].roundNo
          && (!w.rows[r].state.Running? ==> v.rows[r].state == w.rows[r].state))
    && (forall r | r in v.rows && r !in w.rows :: r !in w.usedRuns && v.rows[r].state.Running?)
    && (forall r | r in w.outbox && r in v.outbox :: v.outbox[r] == w.outbox[r])
    && |w.emitted| <= |v.emitted| && v.emitted[..|w.emitted|] == w.emitted
  }

  ghost predicate Keeps(w: World, s: Step) {
    Core(Next(w, s)) && RoundsAdvance(w, Next(w, s))
  }

  lemma SameLedger(w: World, v: World)
    requires LedgerOk(w)
    requires v.rows == w.rows && v.children == w.children && v.heard <= w.heard
    requires v.usedChildren == w.usedChildren && w.usedRuns == v.usedRuns
    ensures LedgerOk(v)
  {
    forall r, m | r in v.rows && 1 <= m < v.rows[r].roundNo ensures RoundTaken(v, v.rows[r].delegation, m) {
      assert RoundTaken(w, w.rows[r].delegation, m);
    }
  }

  lemma SameOutbox(w: World, v: World)
    requires OutboxOk(w)
    requires v.rows == w.rows && v.outbox == w.outbox && v.emitted == w.emitted && v.spoiled == w.spoiled
    requires v.heard <= w.heard && w.usedRuns <= v.usedRuns
    ensures OutboxOk(v) && (LedgerOk(w) ==> RoundsAdvance(w, v))
  {
  }

  lemma InsertedRow(w: World, child: string, n: nat, runId: string)
    requires Core(w) && !w.recovering && n >= 1 && forall m | 1 <= m < n :: RoundTaken(w, child, m)
    ensures var v := InsertRow(w, child, n, runId); Core(v) && RoundsAdvance(w, v)
  {
    var v := InsertRow(w, child, n, runId);
    if v != w {
      InsertedLedger(w, child, n, runId);
      InsertedOutbox(w, v, runId);
      hide LedgerOk, OutboxOk, RoundsAdvance;
      assert HandlesOk(v) && TasksOk(v);
    }
  }

  lemma InsertedOutbox(w: World, v: World, runId: string)
    requires LedgerOk(w) && OutboxOk(w) && runId !in w.usedRuns && runId in v.rows && v.rows[runId].state.Running?
    requires v == w.(rows := w.rows[runId := v.rows[runId]], usedRuns := w.usedRuns + {runId}, creating := v.creating)
    ensures OutboxOk(v) && RoundsAdvance(w, v)
  {
  }

  lemma InsertedLedger(w: World, child: string, n: nat, runId: string)
    requires LedgerOk(w) && n >= 1 && forall m | 1 <= m < n :: RoundTaken(w, child, m)
    ensures LedgerOk(InsertRow(w, child, n, runId))
  {
    var v := InsertRow(w, child, n, runId);
    if v != w {
      forall r, m | r in v.rows && 1 <= m < v.rows[r].roundNo ensures RoundTaken(v, v.rows[r].delegation, m) {
        assert r in w.rows ==> RoundTaken(w, w.rows[r].delegation, m);
        assert RoundTaken(w, v.rows[r].delegation, m);
        var q :| q in w.rows && w.rows[q].delegation == v.rows[r].delegation && w.rows[q].roundNo == m;
        assert v.rows[q] == w.rows[q];
      }
    }
  }

  lemma NewChild(w: World, child: string)
    requires Core(w) && child !in w.usedChildren
    ensures Core(w.(children := w.children + {child}, heard := w.heard + {child},
            usedChildren := w.usedChildren + {child}))
  {
    var v := w.(children := w.children + {child}, heard := w.heard + {child}, usedChildren := w.usedChildren + {child});
    forall r, m | r in v.rows && 1 <= m < v.rows[r].roundNo ensures RoundTaken(v, v.rows[r].delegation, m) {
      assert RoundTaken(w, w.rows[r].delegation, m);
    }
    assert forall r | r in w.emitted && r in v.rows && v.rows[r].delegation in v.heard ::
        w.rows[r].delegation in w.heard;
  }

  lemma InsertKeeps(w: World, s: Step)
    requires Core(w) && PriorsOk(w) && (s.InsertFirst? || s.InsertFollowUp?)
    ensures Keeps(w, s)
  {
    hide OutboxOk, RoundsAdvance, TasksOk;
    SameOutbox(w, w);
    if s.InsertFirst? && !w.recovering && s.child !in w.usedChildren {
      var v := w.(
        children := w.children + {s.child}, heard := w.heard + {s.child}, usedChildren := w.usedChildren + {s.child});
      NewChild(w, s.child);
      InsertedRow(v, s.child, 1, s.runId);
      AdvanceFrom(w, v, InsertRow(v, s.child, 1, s.runId));
    } else if s.InsertFollowUp? && Next(w, s) != w {
      InsertedRow(w, s.child, s.roundNo + 1, s.runId);
    }
  }

  lemma AdvanceFrom(w: World, v: World, u: World)
    requires RoundsAdvance(v, u)
    requires v.rows == w.rows && v.outbox == w.outbox && v.emitted == w.emitted && v.usedRuns == w.usedRuns
    ensures RoundsAdvance(w, u)
  {
  }

  lemma RoundsBelow(w: World, runId: string)
    requires LedgerOk(w) && runId in w.rows
    ensures forall m | 1 <= m <= w.rows[runId].roundNo :: RoundTaken(w, w.rows[runId].delegation, m)
  {
  }

  lemma HandleKeeps(w: World, s: Step)
    requires Core(w) && (s.Register? || s.Load?)
    ensures Keeps(w, s)
  {
    hide OutboxOk, RoundsAdvance, LedgerOk, HandlesOk, TasksOk;
    SameLedger(w, Next(w, s));
    SameOutbox(w, Next(w, s));
    NewHandleOk(w, s);
    NewHandleTasks(w, Next(w, s));
  }

  lemma NewHandleTasks(w: World, v: World)
    requires TasksOk(w) && v.tasks == w.tasks && v.rows == w.rows
    requires forall t | t in w.tasks :: t.handle in w.handles
    requires forall h | h in w.handles :: h in v.handles && v.handles[h] == w.handles[h]
    ensures TasksOk(v)
  {
  }

  lemma NewHandleOk(w: World, s: Step)
    requires LedgerOk(w) && HandlesOk(w) && (s.Register? || s.Load?)
    ensures HandlesOk(Next(w, s))
    ensures forall t | t in w.tasks :: t.handle in w.handles
    ensures forall h | h in w.handles :: h in Next(w, s).handles && Next(w, s).handles[h] == w.handles[h]
  {
  }

  lemma TerminalEventKeeps(w: World, s: Step)
    requires Core(w) && s.TerminalEvent?
    ensures Keeps(w, s)
  {
    hide OutboxOk, LedgerOk, RoundsAdvance;
    SameLedger(w, Next(w, s));
    SameOutbox(w, Next(w, s));
  }

  lemma StartFailsKeeps(w: World, s: Step)
    requires Core(w) && s.StartFails?
    ensures Keeps(w, s)
  {
    hide OutboxOk, LedgerOk, RoundsAdvance;
    SameLedger(w, Next(w, s));
    SameOutbox(w, Next(w, s));
  }

  lemma FinishedLedger(w: World, runId: string, state: RoundState)
    requires LedgerOk(w)
    ensures LedgerOk(w.(rows := FinishRow(w.rows, runId, state)))
  {
    var v := w.(rows := FinishRow(w.rows, runId, state));
    forall r, m | r in v.rows && 1 <= m < v.rows[r].roundNo ensures RoundTaken(v, v.rows[r].delegation, m) {
      assert RoundTaken(w, w.rows[r].delegation, m);
      var q :| q in w.rows && w.rows[q].delegation == w.rows[r].delegation && w.rows[q].roundNo == m;
      assert q in v.rows;
    }
  }

  lemma FinishedRows(w: World, runId: string, state: RoundState)
    requires Core(w) && !state.Running?
    ensures var v := w.(rows := FinishRow(w.rows, runId, state)); Core(v) && RoundsAdvance(w, v)
    ensures Over(w.(rows := FinishRow(w.rows, runId, state)), runId)
    ensures Changes(w.rows, runId) ==> RowIs(w.(rows := FinishRow(w.rows, runId, state)), runId, state)
  {
    FinishedLedger(w, runId, state);
    FinishedOutbox(w, runId, state);
    hide LedgerOk, OutboxOk, RoundsAdvance;
  }

  lemma FinishedOutbox(w: World, runId: string, state: RoundState)
    requires LedgerOk(w) && OutboxOk(w) && !state.Running?
    ensures var v := w.(rows := FinishRow(w.rows, runId, state)); OutboxOk(v) && RoundsAdvance(w, v)
  {
  }

  lemma FinishKeeps(w: World, s: Step)
    requires Core(w) && s.Finish?
    ensures Keeps(w, s)
  {
    hide OutboxOk, LedgerOk, RoundsAdvance;
    var v := Next(w, s);
    SameOutbox(w, w);
    if v != w {
      var runId := w.handles[s.task.handle].runId;
      var u := w.(rows := FinishRow(w.rows, runId, s.task.state));
      FinishedRows(w, runId, s.task.state);
      assert v == u.(tasks := v.tasks);
      SameLedger(u, v);
      SameOutbox(u, v);
      AdvanceTwice(w, u, v);
    }
  }

  lemma AdvanceTwice(w: World, u: World, v: World)
    requires RoundsAdvance(w, u) && RoundsAdvance(u, v)
    requires u.rows == v.rows && w.outbox.Keys * v.outbox.Keys <= u.outbox.Keys
    ensures RoundsAdvance(w, v)
  {
  }

  ghost predicate MayEmit(w: World, runId: string, state: RoundState, spoiled: bool) {
    Over(w, runId) && if spoiled then state == Failed else RowIs(w, runId, state)
  }

  lemma EmitKeeps(w: World, runId: string, state: RoundState, spoiled: bool)
    requires Core(w) && MayEmit(w, runId, state, spoiled)
    ensures var v := Emit(w, runId, state, spoiled); Core(v) && RoundsAdvance(w, v)
  {
    var v := Emit(w, runId, state, spoiled);
    SameLedger(w, v);
    EmittedOnce(w, runId, state, spoiled);
    hide OutboxOk, LedgerOk, RoundsAdvance;
  }

  lemma EmittedOnce(w: World, runId: string, state: RoundState, spoiled: bool)
    requires LedgerOk(w) && OutboxOk(w) && MayEmit(w, runId, state, spoiled)
    ensures OutboxOk(Emit(w, runId, state, spoiled)) && RoundsAdvance(w, Emit(w, runId, state, spoiled))
  {
    hide NoDuplicates, RoundsAdvance, RoundTaken;
    EmitAdvances(w, runId, state, spoiled);
    var v := Emit(w, runId, state, spoiled);
    if v != w {
      assert runId !in w.emitted;
      OneMoreDistinct(w.emitted, runId);
      hide LedgerOk;
    }
  }

  lemma EmitAdvances(w: World, runId: string, state: RoundState, spoiled: bool)
    requires LedgerOk(w)
    ensures RoundsAdvance(w, Emit(w, runId, state, spoiled))
  {
    assert w.emitted[..|w.emitted|] == w.emitted;
  }

  lemma OneMoreDistinct<T>(s: seq<T>, x: T)
    requires NoDuplicates(s) && x !in s
    ensures NoDuplicates(s + [x])
    ensures forall y :: y in s + [x] <==> y in s || y == x
  {
  }

  lemma ComposeKeeps(w: World, s: Step)
    requires Core(w) && s.Compose?
    ensures Keeps(w, s)
  {
    hide OutboxOk, LedgerOk, RoundsAdvance;
    SameLedger(w, Next(w, s));
    SameOutbox(w, Next(w, s));
  }

  /** The coroutine is over; its handle may now carry the injected flag. */
  function Settled(w: World, t: Task, injected: bool): World
    requires t.handle in w.handles
  {
    w.(tasks := w.tasks - {t},
       handles := if injected then w.handles[t.handle := w.handles[t.handle].(injected := true)] else w.handles)
  }

  lemma SettledKeeps(w: World, t: Task, injected: bool)
    requires Core(w) && t in w.tasks
    ensures Core(Settled(w, t, injected)) && RoundsAdvance(w, Settled(w, t, injected))
  {
    var v := Settled(w, t, injected);
    SameLedger(w, v);
    SameOutbox(w, v);
    hide OutboxOk, LedgerOk, RoundsAdvance;
  }

  lemma EnqueuingMayEmit(w: World, t: Task, injected: bool)
    requires TasksOk(w) && t in w.tasks && t.handle in w.handles && t.Enqueuing?
    ensures MayEmit(Settled(w, t, injected), w.handles[t.handle].runId, t.text, t.spoiled)
  {
  }

  lemma EnqueueKeeps(w: World, s: Step)
    requires Core(w) && s.Enqueue?
    ensures Keeps(w, s)
  {
    if s.task in w.tasks && s.task.Enqueuing? && s.task.handle in w.handles {
      var t, runId := s.task, w.handles[s.task.handle].runId;
      var v := Settled(w, t, s.committed && s.returned);
      EnqueuingMayEmit(w, t, s.committed && s.returned);
      hide Core, RoundsAdvance, MayEmit;
      SettledKeeps(w, t, s.committed && s.returned);
      if s.committed {
        EmitKeeps(v, runId, t.text, t.spoiled);
        AdvanceTwiceTo(w, v, Next(w, s));
      } else {
        assert Next(w, s) == v;
      }
    } else {
      SameOutbox(w, w);
    }
  }

  lemma AdvanceTwiceTo(w: World, u: World, v: World)
    requires RoundsAdvance(w, u) && RoundsAdvance(u, v) && u.rows == v.rows && u.outbox == w.outbox
    ensures RoundsAdvance(w, v)
  {
    AdvanceTwice(w, u, v);
  }

  lemma DeleteChildKeeps(w: World, s: Step)
    requires Core(w) && s.DeleteChild?
    ensures Keeps(w, s)
  {
    var v := Next(w, s);
    forall r, m | r in v.rows && 1 <= m < v.rows[r].roundNo ensures RoundTaken(v, v.rows[r].delegation, m) {
      assert RoundTaken(w, w.rows[r].delegation, m);
      var q :| q in w.rows && w.rows[q].delegation == w.rows[r].delegation && w.rows[q].roundNo == m;
      assert q in v.rows;
    }
  }

  lemma DeleteParentKeeps(w: World, s: Step)
    requires Core(w) && s.DeleteParent?
    ensures Keeps(w, s)
  {
    var v := Next(w, s);
    SameLedger(w, v);
    assert v.handles == w.handles && v.tasks == w.tasks && v.rows == w.rows;
    assert HandlesOk(v) && TasksOk(v) by { hide OutboxOk, LedgerOk, RoundsAdvance; }
    assert RoundsAdvance(w, v) by { hide LedgerOk, HandlesOk, TasksOk, OutboxOk; }
    hide LedgerOk, HandlesOk, TasksOk, RoundsAdvance;
  }

  lemma RestartKeeps(w: World, s: Step)
    requires Core(w) && (s.Crash? || s.RecoveryDone? || s.LimitPaused? || s.ReadPrior?)
    ensures Keeps(w, s)
  {
    SameLedger(w, Next(w, s));
    SameOutbox(w, Next(w, s));
  }

  lemma RecoveryKeeps(w: World, s: Step)
    requires Core(w) && (s.RecoverRow? || s.RecoverSource?)
    ensures Keeps(w, s)
  {
    hide LedgerOk, HandlesOk, TasksOk, OutboxOk, RoundsAdvance;
    SameOutbox(w, w);
    if s.RecoverRow? {
      FinishedRows(w, s.runId, Interrupted);
    } else if Next(w, s) != w {
      EmitKeeps(w, s.runId, w.rows[s.runId].state, false);
    }
  }

  /** A step keeps the rounds of the children that stay, and adds children that never were. */
  lemma PriorsKeep(w: World, s: Step)
    requires Core(w) && PriorsOk(w)
    ensures PriorsOk(Next(w, s))
  {
    var v := Next(w, s);
    RowsOfChildrenStay(w, s);
    PriorsWere(w, s);
    hide Next, LedgerOk, HandlesOk, TasksOk, OutboxOk;
    forall p, m | p in v.priors && 1 <= m <= p.roundNo && p.child in v.children
      ensures RoundTaken(v, p.child, m)
    {
      assert RoundTaken(w, p.child, m);
      var r :| r in w.rows && w.rows[r].delegation == p.child && w.rows[r].roundNo == m;
      assert r in v.rows;
    }
  }

  lemma RowsOfChildrenStay(w: World, s: Step)
    requires w.rows.Keys <= w.usedRuns && w.children <= w.usedChildren
    ensures forall r | r in w.rows && w.rows[r].delegation in Next(w, s).children ::
              && r in Next(w, s).rows && Next(w, s).rows[r].delegation == w.rows[r].delegation
              && Next(w, s).rows[r].roundNo == w.rows[r].roundNo
    ensures w.usedChildren <= Next(w, s).usedChildren
    ensures forall c | c in Next(w, s).children :: c in w.children || c !in w.usedChildren
  {
  }

  lemma PriorsWere(w: World, s: Step)
    requires Core(w) && PriorsOk(w)
    ensures forall p | p in Next(w, s).priors :: p.child in w.usedChildren
    ensures forall p, m | p in Next(w, s).priors && 1 <= m <= p.roundNo && p.child in w.children ::
              RoundTaken(w, p.child, m)
  {
    if s.ReadPrior? && Next(w, s) != w {
      var h := w.handles[w.cache[s.child]];
      if h.delegation in w.children {
        RoundsBelow(w, h.runId);
      }
    } else if !s.ReadPrior? {
      PriorsOnlyRead(w, s);
    }
  }

  lemma PriorsOnlyRead(w: World, s: Step)
    requires !s.ReadPrior?
    ensures Next(w, s).priors <= w.priors
  {
  }

  lemma StepKeepsInv(w: World, s: Step)
    requires Inv(w)
    ensures Inv(Next(w, s)) && RoundsAdvance(w, Next(w, s))
  {
    PriorsKeep(w, s);
    hide Core, PriorsOk, RoundsAdvance, Next;
    match s
    case InsertFirst(_, _) => InsertKeeps(w, s);
    case InsertFollowUp(_, _, _) => InsertKeeps(w, s);
    case ReadPrior(_) => RestartKeeps(w, s);
    case Register(_, _) => HandleKeeps(w, s);
    case Load(_, _, _) => HandleKeeps(w, s);
    case TerminalEvent(_, _) => TerminalEventKeeps(w, s);
    case StartFails(_) => StartFailsKeeps(w, s);
    case Finish(_) => FinishKeeps(w, s);
    case Compose(_) => ComposeKeeps(w, s);
    case Enqueue(_, _, _) => EnqueueKeeps(w, s);
    case DeleteChild(_) => DeleteChildKeeps(w, s);
    case DeleteParent(_) => DeleteParentKeeps(w, s);
    case Crash => RestartKeeps(w, s);
    case RecoverRow(_) => RecoveryKeeps(w, s);
    case RecoverSource(_) => RecoveryKeeps(w, s);
    case RecoveryDone => RestartKeeps(w, s);
    case LimitPaused(_) => RestartKeeps(w, s);
  }

  // ------------------------------------------------------------ whole runs

  function After(steps: seq<Step>): World {
    if steps == [] then EMPTY else Next(After(steps[..|steps| - 1]), steps[|steps| - 1])
  }

  /** Every reachable world: contiguous rounds, one source per finished round at most, text and row agreeing. */
  lemma {:induction false} EveryRunIsOk(steps: seq<Step>)
    ensures Inv(After(steps))
  {
    if steps != [] {
      hide Inv, RoundsAdvance;
      EveryRunIsOk(steps[..|steps| - 1]);
      StepKeepsInv(After(steps[..|steps| - 1]), steps[|steps| - 1]);
    } else {
      assert RoundsOf(EMPTY) == {};
    }
  }

  function RoundsOf(w: World): set<string> { w.rows.Keys }

  predicate IsRunning(w: World, runId: string) {
    runId in w.rows && w.rows[runId].state.Running?
  }

  lemma StaysClosed(w: World, s: Step, runId: string)
    requires Inv(w) && runId in w.usedRuns && !IsRunning(w, runId)
    ensures runId in Next(w, s).usedRuns && !IsRunning(Next(w, s), runId)
  {
    StepKeepsInv(w, s);
    hide Inv, Next;
    if runId in w.rows && runId in Next(w, s).rows {
      assert Next(w, s).rows[runId].state == w.rows[runId].state;
    }
  }

  /** Once a round has left `running` it is never running again, whatever happens after. */
  lemma {:induction false} NeverReopened(steps: seq<Step>, i: nat, j: nat, runId: string)
    requires i <= j <= |steps|
    requires runId in After(steps[..i]).usedRuns && !IsRunning(After(steps[..i]), runId)
    ensures runId in After(steps[..j]).usedRuns && !IsRunning(After(steps[..j]), runId)
    decreases j
  {
    if i < j {
      NeverReopened(steps, i, j - 1, runId);
      assert steps[..j][..j - 1] == steps[..j - 1];
      assert After(steps[..j]) == Next(After(steps[..j - 1]), steps[j - 1]);
      EveryRunIsOk(steps[..j - 1]);
      hide Inv, Next, After, IsRunning;
      StaysClosed(After(steps[..j - 1]), steps[j - 1], runId);
    }
  }

  /** Over a whole run a round leaves `running` at most once. */
  lemma LeavesRunningOnce(steps: seq<Step>, i: nat, j: nat, runId: string)
    requires i < |steps| && j < |steps|
    requires IsRunning(After(steps[..i]), runId) && !IsRunning(After(steps[..i + 1]), runId)
    requires IsRunning(After(steps[..j]), runId) && !IsRunning(After(steps[..j + 1]), runId)
    ensures i == j
  {
    if i < j {
      LeftIsUsed(steps, i, runId);
      NeverReopened(steps, i + 1, j, runId);
    } else if j < i {
      LeftIsUsed(steps, j, runId);
      NeverReopened(steps, j + 1, i, runId);
    }
  }

  lemma LeftIsUsed(steps: seq<Step>, i: nat, runId: string)
    requires i < |steps| && IsRunning(After(steps[..i]), runId)
    ensures runId in After(steps[..i + 1]).usedRuns
  {
    EveryRunIsOk(steps[..i]);
    assert steps[..i + 1][..i] == steps[..i];
    StepKeepsInv(After(steps[..i]), steps[i]);
  }

  /** At most one terminal event per round, only for a finished round, and rounds are contiguous. */
  lemma TerminalEventsAreUnique(steps: seq<Step>)
    ensures var w := After(steps);
            && NoDuplicates(w.emitted)
            && (forall r | r in w.outbox && r in w.rows :: !w.rows[r].state.Running?)
            && (forall r, n | r in w.rows && 1 <= n <= w.rows[r].roundNo :: RoundTaken(w, w.rows[r].delegation, n))
  {
    EveryRunIsOk(steps);
    var w := After(steps);
    forall r, n | r in w.rows && 1 <= n <= w.rows[r].roundNo ensures RoundTaken(w, w.rows[r].delegation, n) {
      assert n < w.rows[r].roundNo ==> RoundTaken(w, w.rows[r].delegation, n);
    }
  }

  /** This step stores the source of `r`, composed from a handle that a start failure had overwritten. */
  predicate StoresSpoiled(w: World, s: Step, r: string) {
    && s.Enqueue? && s.committed && s.task in w.tasks && s.task.Enqueuing? && s.task.spoiled
    && s.task.handle in w.handles && w.handles[s.task.handle].runId == r
    && r !in w.outbox && r in w.rows && w.rows[r].delegation in w.heard
  }

  ghost predicate SpoiledAt(steps: seq<Step>, k: nat, r: string)
    requires k < |steps|
  {
    StoresSpoiled(After(steps[..k]), steps[k], r)
  }

  lemma SpoiledGrows(w: World, s: Step, r: string)
    ensures r in Next(w, s).spoiled <==> r in w.spoiled || StoresSpoiled(w, s, r)
  {
    match s
    case Enqueue(_, _, _) =>
    case _ =>
      hide RoundTaken;
      assert Next(w, s).spoiled == w.spoiled by { SpoiledOnlyByEnqueue(w, s); }
  }

  lemma SpoiledOnlyByEnqueue(w: World, s: Step)
    requires !s.Enqueue?
    ensures Next(w, s).spoiled == w.spoiled
  {
  }

  /** The history flag says what happened in the run. */
  lemma {:induction false} SpoiledMeansStored(steps: seq<Step>, r: string)
    ensures r in After(steps).spoiled <==> exists k | 0 <= k < |steps| :: SpoiledAt(steps, k, r)
  {
    if steps != [] {
      var n := |steps| - 1;
      var init := steps[..n];
      SpoiledMeansStored(init, r);
      SpoiledLast(steps, r);
      hide After, SpoiledAt;
      forall k | 0 <= k < n
        ensures SpoiledAt(steps, k, r) <==> SpoiledAt(init, k, r)
      {
        SpoiledEarlier(steps, n, k, r);
      }
    }
  }

  lemma SpoiledLast(steps: seq<Step>, r: string)
    requires steps != []
    ensures var n := |steps| - 1;
            r in After(steps).spoiled <==> r in After(steps[..n]).spoiled || SpoiledAt(steps, n, r)
  {
    var n := |steps| - 1;
    SpoiledGrows(After(steps[..n]), steps[n], r);
    hide Next, StoresSpoiled;
  }

  lemma SpoiledEarlier(steps: seq<Step>, n: nat, k: nat, r: string)
    requires k < n <= |steps|
    ensures SpoiledAt(steps, k, r) <==> SpoiledAt(steps[..n], k, r)
  {
    assert steps[..n][..k] == steps[..k] && steps[..n][k] == steps[k];
    hide StoresSpoiled, After;
  }

  /**
    Over every run: a terminal event differs from the durable outcome if and only if it was composed after a start
    failure had overwritten its handle, while another transition, to a state other than failed, won the
    compare-and-set.
   */
  lemma MisreportsExactly(steps: seq<Step>, r: string)
    requires r in After(steps).outbox && r in After(steps).rows
    ensures After(steps).outbox[r] != After(steps).rows[r].state <==>
            (exists k | 0 <= k < |steps| :: SpoiledAt(steps, k, r)) && After(steps).rows[r].state != Failed
  {
    EveryRunIsOk(steps);
    SpoiledMeansStored(steps, r);
  }

  lemma OverwrittenOnlyByStartFails(w: World, s: Step, h: nat)
    requires h in Next(w, s).handles && Next(w, s).handles[h].overwritten && s != StartFails(h)
    ensures h in w.handles && w.handles[h].overwritten
  {
    match s
    case Enqueue(_, _, _) => EnqueueKeepsOverwritten(w, s, h);
    case Register(_, _) => NewHandlesAreClean(w, s, h);
    case Load(_, _, _) => NewHandlesAreClean(w, s, h);
    case TerminalEvent(_, _) => NewHandlesAreClean(w, s, h);
    case _ => OtherStepsKeepHandles(w, s, h);
  }

  lemma EnqueueKeepsOverwritten(w: World, s: Step, h: nat)
    requires s.Enqueue? && h in Next(w, s).handles
    ensures h in w.handles && w.handles[h].overwritten == Next(w, s).handles[h].overwritten
  {
  }

  lemma NewHandlesAreClean(w: World, s: Step, h: nat)
    requires (s.Register? || s.Load? || s.TerminalEvent?) && h in Next(w, s).handles &&
            Next(w, s).handles[h].overwritten
    ensures h in w.handles && w.handles[h].overwritten
  {
    hide RoundTaken, Newest;
  }

  lemma OtherStepsKeepHandles(w: World, s: Step, h: nat)
    requires !s.Enqueue? && !s.Register? && !s.Load? && !s.TerminalEvent? && s != StartFails(h) &&
            h in Next(w, s).handles
    ensures h in w.handles && w.handles[h] == Next(w, s).handles[h]
  {
    hide RoundTaken, FinishRow;
  }

  /** A handle is overwritten only by a start failure of its own. */
  lemma {:induction false} OverwrittenMeansStartFailed(steps: seq<Step>, h: nat)
    requires h in After(steps).handles && After(steps).handles[h].overwritten
    ensures StartFails(h) in steps
  {
    if steps != [] {
      var n := |steps| - 1;
      if steps[n] != StartFails(h) {
        OverwrittenOnlyByStartFails(After(steps[..n]), steps[n], h);
        hide Next;
        OverwrittenMeansStartFailed(steps[..n], h);
      }
    }
  }

  /** So no terminal event is wrong without a start failure that came before it was stored. */
  lemma SpoiledNeedsStartFailure(steps: seq<Step>, k: nat, r: string)
    requires k < |steps| && SpoiledAt(steps, k, r)
    ensures StartFails(steps[k].task.handle) in steps[..k]
  {
    EveryRunIsOk(steps[..k]);
    OverwrittenMeansStartFailed(steps[..k], steps[k].task.handle);
  }

  /**
    A follow-up that inserts a row numbers it right above every round its session has, however old the round it read.
   */
  lemma FollowUpAppendsNextRound(w: World, child: string, n: nat, runId: string)
    requires Inv(w)
    ensures var v := Next(w, InsertFollowUp(child, n, runId));
            v != w ==>
              && v.rows == w.rows[runId := v.rows[runId]] && runId !in w.rows
              && v.rows[runId].delegation == child && v.rows[runId].state == Running
              && (forall r | r in w.rows && w.rows[r].delegation == child :: w.rows[r].roundNo < v.rows[runId].roundNo)
              && (v.rows[runId].roundNo > 1 ==> RoundTaken(w, child, v.rows[runId].roundNo - 1))
  {
    var v := Next(w, InsertFollowUp(child, n, runId));
    if v != w {
      forall r | r in w.rows && w.rows[r].delegation == child
        ensures w.rows[r].roundNo <= n
      {
        assert !RoundTaken(w, w.rows[r].delegation, n + 1);
      }
    }
  }

  /** The exception is real: a result that races a start failure is durable as completed and reported as failed. */
  lemma StartFailureCanMisreport()
    ensures exists steps: seq<Step>, r ::
              && r in After(steps).outbox && r in After(steps).rows
              && After(steps).outbox[r] == Failed && After(steps).rows[r].state == Completed
  {
    hide Next;
    var s1 := [InsertFirst("c", "r")];
    var s2 := s1 + [Register("r", 0)];
    var s3 := s2 + [TerminalEvent("c", Completed)];
    var s4 := s3 + [Finish(Finishing(0, Ordinary, Completed))];
    var s5 := s4 + [StartFails(0)];
    var s6 := s5 + [Compose(Injecting(0, Ordinary))];
    var s7 := s6 + [Enqueue(Enqueuing(0, Failed, true), true, true)];
    AfterStep([], InsertFirst("c", "r"));
    assert [] + s1 == s1;
    AfterStep(s1, Register("r", 0));
    AfterStep(s2, TerminalEvent("c", Completed));
    AfterStep(s3, Finish(Finishing(0, Ordinary, Completed)));
    AfterStep(s4, StartFails(0));
    AfterStep(s5, Compose(Injecting(0, Ordinary)));
    AfterStep(s6, Enqueue(Enqueuing(0, Failed, true), true, true));
    RaceBegins();
    RaceEnds();
    assert "r" in After(s7).outbox && After(s7).outbox["r"] == Failed;
  }

  /** The world in which a registered first round has just been reported completed. */
  function Reported(): World {
    Next(Next(Next(EMPTY, InsertFirst("c", "r")), Register("r", 0)), TerminalEvent("c", Completed))
  }

  lemma RaceBegins()
    ensures var w := Reported();
            && w.rows == map["r" := Row("c", 1, Running)] && w.outbox == map[] && w.heard == {"c"}
            && w.handles == map[0 := Handle("r", "c", 1, Completed, false, false)]
            && w.tasks == {Finishing(0, Ordinary, Completed)}
  {
    var w1 := Next(EMPTY, InsertFirst("c", "r"));
    assert w1.rows == map["r" := Row("c", 1, Running)] by {
      assert !RoundTaken(EMPTY.(children := {"c"}, heard := {"c"}, usedChildren := {"c"}), "c", 1);
    }
  }

  /**
    The result wins the compare-and-set; the start failure overwrites the handle before the terminal turn is composed.
   */
  lemma RaceEnds()
    ensures var w5 := Next(Next(Reported(), Finish(Finishing(0, Ordinary, Completed))), StartFails(0));
            var w7 := Next(Next(w5, Compose(Injecting(0, Ordinary))), Enqueue(Enqueuing(0, Failed, true), true, true));
            && w7.outbox == map["r" := Failed] && w7.rows == map["r" := Row("c", 1, Completed)]
  {
    RaceOverwrites();
    hide Reported, FinishRow, RoundTaken;
  }

  lemma RaceOverwrites()
    ensures var w5 := Next(Next(Reported(), Finish(Finishing(0, Ordinary, Completed))), StartFails(0));
            && w5.rows == map["r" := Row("c", 1, Completed)] && w5.outbox == map[] && w5.heard == {"c"}
            && w5.handles == map[0 := Handle("r", "c", 1, Failed, false, true)]
            && w5.tasks == {Injecting(0, Ordinary), Finishing(0, StartFailure, Failed)}
  {
    RaceBegins();
    hide Reported, RoundTaken;
  }

  lemma AfterStep(steps: seq<Step>, s: Step)
    ensures After(steps + [s]) == Next(After(steps), s)
  {
    assert (steps + [s])[..|steps|] == steps;
  }
}
