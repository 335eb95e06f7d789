/**
  The durable outbox of server/database.py: a system-produced turn is first a
  `session_injections` row and then one user message of its target session.
  Each SQL statement is one atomic function on the tables; a statement that
  the database refuses leaves them as they were.
 */
module Outbox {
  import opened Base

  datatype Status = Pending | Delivered | Failed

  datatype Injection = Injection(sourceKey: string, sessionId: string, prompt: string, status: Status)

  /** The JSON column `messages.content`; only a JSON string can equal a prompt. */
  datatype Content = NoContent | Text(text: string) | Json(encoded: string)

  datatype Message = Message(
    sessionId: string, seqNo: int, role: string, kind: string, content: Content, injectionId: Option<string>)

  datatype BgStatus = BgPending | BgRunning | BgCompleted | BgFailed | BgCancelled | BgInterrupted {
    predicate InFlight() { BgPending? || BgRunning? }
  }

  datatype BgTask = BgTask(sessionId: string, status: BgStatus, deliveryRequired: bool)

  /** A message row: the n-th one appended, or the copy a fork made of a row. */
  datatype RowId = Row(n: nat) | Copy(n: nat, of: RowId)

  datatype Tables = Tables(
    sessions: set<string>,
    injections: map<string, Injection>,
    messages: map<RowId, Message>,
    nextRow: nat,
    bgTasks: map<string, BgTask>)

  datatype Refusal = ForeignKey | UniqueIndex | TriggerAbort | BadCall

  // ------------------------------------------------------------ statements

  predicate Matches(inj: Injection, m: Message) {
    m.sessionId == inj.sessionId && m.role == "user" && m.kind == "text" && m.content == Text(inj.prompt)
  }

  predicate Carried(t: Tables, id: string) {
    exists r | r in t.messages :: t.messages[r].injectionId == Some(id)
  }

  /** INSERT OR IGNORE: a taken id or source key is ignored, a missing session is not. */
  function InsertInjection(t: Tables, id: string, source: string, session: string, prompt: string)
    : Result<Tables, Refusal>
  {
    if id in t.injections || HasSource(t, source) then Ok(t)
    else if session !in t.sessions then Err(ForeignKey)
    else Ok(t.(injections := t.injections[id := Injection(source, session, prompt, Pending)]))
  }

  /** INSERT INTO messages with its BEFORE trigger, its indexes and its AFTER trigger. */
  function InsertMessage(t: Tables, m: Message): Result<Tables, Refusal> {
    if m.injectionId.None? then
      if m.sessionId !in t.sessions then Err(ForeignKey)
      else Ok(t.(messages := t.messages[Row(t.nextRow) := m], nextRow := t.nextRow + 1))
    else
      var id := m.injectionId.value;
      if id !in t.injections || !Matches(t.injections[id], m) || !t.injections[id].status.Pending? then
        Err(TriggerAbort)
      else if m.sessionId !in t.sessions then Err(ForeignKey)
      else if Carried(t, id) then Err(UniqueIndex)
      else Ok(t.(messages := t.messages[Row(t.nextRow) := m],
                 nextRow := t.nextRow + 1,
                 injections := t.injections[id := t.injections[id].(status := Delivered)]))
  }

  /** A pending row whose transcript message already exists. */
  predicate HalfState(t: Tables, id: string) {
    && id in t.injections
    && t.injections[id].status.Pending?
    && exists r | r in t.messages ::
         t.messages[r].injectionId == Some(id) && t.messages[r].sessionId == t.injections[id].sessionId
  }

  function ReconcileInjection(t: Tables, id: string): Tables {
    if HalfState(t, id) then t.(injections := t.injections[id := t.injections[id].(status := Delivered)]) else t
  }

  function FailInjection(t: Tables, id: string): Tables {
    if id in t.injections && t.injections[id].status.Pending?
    then t.(injections := t.injections[id := t.injections[id].(status := Failed)])
    else t
  }

  function InsertSession(t: Tables, session: string): Result<Tables, Refusal> {
    if session in t.sessions then Err(UniqueIndex) else Ok(t.(sessions := t.sessions + {session}))
  }

  /** INSERT ... SELECT of the parent's messages up to `afterSeq`; the column list leaves injection_id out. */
  function CopyMessages(t: Tables, fork: string, parent: string, afterSeq: int): Result<Tables, Refusal> {
    var copied := set r | r in t.messages && t.messages[r].sessionId == parent && t.messages[r].seqNo <= afterSeq;
    if copied != {} && fork !in t.sessions then Err(ForeignKey)
    else Ok(t.(messages := t.messages + Copies(t.messages, copied, t.nextRow, fork), nextRow := t.nextRow + 1))
  }

  function Copies(messages: map<RowId, Message>, rows: set<RowId>, n: nat, fork: string): (copies: map<RowId, Message>)
    requires rows <= messages.Keys
    ensures forall k :: k in copies <==> k.Copy? && k.n == n && k.of in rows
    ensures forall k | k in copies :: copies[k] == messages[k.of].(sessionId := fork, injectionId := None)
  {
    map k | k in (set r | r in rows :: Copy(n, r)) :: messages[k.of].(sessionId := fork, injectionId := None)
  }

  /** DELETE FROM sessions with its ON DELETE CASCADE children. */
  function DeleteSessionRows(t: Tables, session: string): Tables {
    t.(sessions := t.sessions - {session},
       injections := map i | i in t.injections && t.injections[i].sessionId != session :: t.injections[i],
       messages := map r | r in t.messages && t.messages[r].sessionId != session :: t.messages[r],
       bgTasks := map b | b in t.bgTasks && t.bgTasks[b].sessionId != session :: t.bgTasks[b])
  }

  function InsertBgTask(t: Tables, task: string, session: string): Result<Tables, Refusal> {
    if task in t.bgTasks then Err(UniqueIndex)
    else if session !in t.sessions then Err(ForeignKey)
    else Ok(t.(bgTasks := t.bgTasks[task := BgTask(session, BgRunning, true)]))
  }

  function UpdateBgTask(t: Tables, task: string, status: BgStatus): Tables {
    if task in t.bgTasks then t.(bgTasks := t.bgTasks[task := t.bgTasks[task].(status := status)]) else t
  }

  function InterruptBgTasks(t: Tables): Tables {
    t.(bgTasks := map b | b in t.bgTasks ::
         if t.bgTasks[b].status.InFlight() then t.bgTasks[b].(status := BgInterrupted) else t.bgTasks[b])
  }

  datatype Statement =
    | CreateInjection(id: string, source: string, session: string, prompt: string)
    | AppendMessage(message: Message)
    | Reconcile(id: string)
    | Fail(id: string)
    | SaveSession(session: string)
    | ForkCopy(fork: string, parent: string, afterSeq: int)
    | DropSession(session: string)
    | CreateBg(task: string, session: string)
    | FinishBg(task: string, status: BgStatus)
    | InterruptBg

  function Exec(t: Tables, s: Statement): Tables {
    var outcome :=
      match s
      case CreateInjection(id, source, session, prompt) => InsertInjection(t, id, source, session, prompt)
      case AppendMessage(m) => InsertMessage(t, m)
      case Reconcile(id) => Ok(ReconcileInjection(t, id))
      case Fail(id) => Ok(FailInjection(t, id))
      case SaveSession(session) => InsertSession(t, session)
      case ForkCopy(fork, parent, afterSeq) => CopyMessages(t, fork, parent, afterSeq)
      case DropSession(session) => Ok(DeleteSessionRows(t, session))
      case CreateBg(task, session) => InsertBgTask(t, task, session)
      case FinishBg(task, status) => Ok(UpdateBgTask(t, task, status))
      case InterruptBg => Ok(InterruptBgTasks(t));
    if outcome.Ok? then outcome.value else t
  }

  // ------------------------------------------------------------ invariant

  predicate Carries(t: Tables, r: RowId, id: string) {
    r in t.messages && t.messages[r].injectionId == Some(id)
  }

  predicate Carrier(t: Tables, r: RowId) {
    r in t.messages && t.messages[r].injectionId.Some?
  }

  ghost predicate UniqueSources(t: Tables) {
    forall i, j | i in t.injections && j in t.injections && i != j ::
      t.injections[i].sourceKey != t.injections[j].sourceKey
  }

  ghost predicate UniqueCarriers(t: Tables) {
    forall r, s | Carrier(t, r) && Carrier(t, s) && r != s :: t.messages[r].injectionId != t.messages[s].injectionId
  }

  ghost predicate References(t: Tables) {
    && (forall i | i in t.injections :: t.injections[i].sessionId in t.sessions)
    && (forall r | r in t.messages :: r.n < t.nextRow && t.messages[r].sessionId in t.sessions)
    && (forall b | b in t.bgTasks :: t.bgTasks[b].sessionId in t.sessions)
  }

  /** What the schema itself keeps: unique keys, the partial unique index, foreign keys. */
  ghost predicate Schema(t: Tables) {
    UniqueSources(t) && UniqueCarriers(t) && References(t)
  }

  /** A message that carries an id is that injection's prompt, in its session. */
  predicate Faithful(t: Tables, r: RowId)
    requires Carrier(t, r)
  {
    var id := t.messages[r].injectionId.value;
    id in t.injections && Matches(t.injections[id], t.messages[r])
  }

  predicate StatusOf(t: Tables, r: RowId, status: Status)
    requires Carrier(t, r)
  {
    var id := t.messages[r].injectionId.value;
    id in t.injections && t.injections[id].status == status
  }

  ghost predicate DeliveredAreCarried(t: Tables) {
    forall i | i in t.injections && t.injections[i].status.Delivered? :: Carried(t, i)
  }

  /** Tables as an old server may have left them: a carried row can still be pending. */
  ghost predicate Legacy(t: Tables) {
    && Schema(t)
    && (forall r | Carrier(t, r) :: Faithful(t, r) && !StatusOf(t, r, Failed))
    && DeliveredAreCarried(t)
  }

  /** What the triggers keep: every message that carries an id is its delivery. */
  ghost predicate Sound(t: Tables) {
    && Schema(t)
    && (forall r | Carrier(t, r) :: Faithful(t, r) && StatusOf(t, r, Delivered))
    && DeliveredAreCarried(t)
  }

  lemma SoundIsLegacyWithoutHalfStates(t: Tables)
    ensures Sound(t) <==> Legacy(t) && forall i :: !HalfState(t, i)
  {
    if Sound(t) {
      forall i | i in t.injections && t.injections[i].status.Pending? ensures !HalfState(t, i) {
        forall r | r in t.messages ensures t.messages[r].injectionId != Some(i) {
          assert Carrier(t, r) ==> StatusOf(t, r, Delivered);
        }
      }
    }
    if Legacy(t) && forall i :: !HalfState(t, i) {
      forall r | Carrier(t, r) ensures StatusOf(t, r, Delivered) {
        var i := t.messages[r].injectionId.value;
        assert Faithful(t, r) && !HalfState(t, i);
      }
    }
  }

  /** The receipt law: delivered exactly when one and only one message carries the id, and that message is right. */
  ghost predicate ExactlyOnce(t: Tables, id: string)
    requires id in t.injections
  {
    && (t.injections[id].status.Delivered? <==> Carried(t, id))
    && (forall r, s | Carries(t, r, id) && Carries(t, s, id) :: r == s)
    && (forall r | Carries(t, r, id) :: Matches(t.injections[id], t.messages[r]))
  }

  lemma SoundMeansExactlyOnce(t: Tables)
    requires Schema(t)
    ensures Sound(t) <==>
            (forall i | i in t.injections :: ExactlyOnce(t, i)) &&
            (forall r | Carrier(t, r) :: t.messages[r].injectionId.value in t.injections)
  {
    if Sound(t) {
      forall i | i in t.injections ensures ExactlyOnce(t, i) {
        forall r | Carries(t, r, i)
          ensures t.injections[i].status.Delivered? && Matches(t.injections[i], t.messages[r])
        {
          assert Carrier(t, r);
        }
        forall r | r in t.messages && t.messages[r].injectionId == Some(i) ensures t.injections[i].status.Delivered? {
          assert Carries(t, r, i);
        }
        forall r, s | Carries(t, r, i) && Carries(t, s, i) ensures r == s {
          assert Carrier(t, r) && Carrier(t, s);
        }
      }
    }
    if (forall i | i in t.injections :: ExactlyOnce(t, i)) &&
       (forall r | Carrier(t, r) :: t.messages[r].injectionId.value in t.injections)
    {
      forall r | Carrier(t, r) ensures Faithful(t, r) && StatusOf(t, r, Delivered) {
        var i := t.messages[r].injectionId.value;
        assert ExactlyOnce(t, i) && Carries(t, r, i);
      }
      forall i | i in t.injections && t.injections[i].status.Delivered? ensures Carried(t, i) {
        assert ExactlyOnce(t, i);
      }
    }
  }

  // ------------------------------------------------------------ preservation

  /** A statement that adds no carrier and touches no delivered row keeps the law. */
  lemma CarrierFrame(t: Tables, u: Tables)
    requires Sound(t) && Schema(u)
    requires forall r | Carrier(u, r) :: Carrier(t, r) && u.messages[r] == t.messages[r]
    requires forall r | Carrier(t, r) && Carries(t, r, t.messages[r].injectionId.value) &&
                        t.messages[r].injectionId.value in u.injections :: Carrier(u, r)
    requires forall r | Carrier(u, r) :: t.messages[r].injectionId.value in u.injections
    requires forall i | i in u.injections && u.injections[i].status.Delivered? ::
               i in t.injections && t.injections[i].status.Delivered?
    requires forall i | i in u.injections && i in t.injections && t.injections[i].status.Delivered? ::
               u.injections[i] == t.injections[i]
    ensures Sound(u)
  {
  }

  lemma DeliveryKeeps(t: Tables, m: Message)
    requires Sound(t) && m.injectionId.Some?
    ensures Sound(Exec(t, AppendMessage(m)))
  {
    var u, id, row := Exec(t, AppendMessage(m)), m.injectionId.value, Row(t.nextRow);
    if u != t {
      assert Schema(u) by {
        forall r | Carrier(u, r) && r != row ensures Carrier(t, r) && u.messages[r].injectionId != Some(id) {
        }
      }
      forall r | Carrier(u, r) ensures Faithful(u, r) && StatusOf(u, r, Delivered) {
        assert r != row ==> Carrier(t, r);
      }
      forall i | i in u.injections && u.injections[i].status.Delivered? ensures Carried(u, i) {
        if i == id {
          assert u.messages[row].injectionId == Some(i);
        } else {
          assert Carried(t, i);
          var r :| r in t.messages && t.messages[r].injectionId == Some(i);
          assert u.messages[r].injectionId == Some(i);
        }
      }
    }
  }

  lemma PlainMessageKeeps(t: Tables, m: Message)
    requires Sound(t) && m.injectionId.None?
    ensures Sound(Exec(t, AppendMessage(m)))
  {
    CarrierFrame(t, Exec(t, AppendMessage(m)));
  }

  lemma CopyMessagesKeeps(t: Tables, fork: string, parent: string, afterSeq: int)
    requires Sound(t)
    ensures Sound(Exec(t, ForkCopy(fork, parent, afterSeq)))
  {
    CopiesCarryNothing(t, fork, parent, afterSeq);
    hide Exec, Schema;
    CarrierFrame(t, Exec(t, ForkCopy(fork, parent, afterSeq)));
  }

  lemma CopiesCarryNothing(t: Tables, fork: string, parent: string, afterSeq: int)
    requires Schema(t)
    ensures var u := Exec(t, ForkCopy(fork, parent, afterSeq));
            && Schema(u) && u.injections == t.injections
            && (forall r | Carrier(u, r) :: Carrier(t, r) && u.messages[r] == t.messages[r])
            && (forall r | Carrier(t, r) :: Carrier(u, r))
  {
    CopiesAddRows(t, fork, parent, afterSeq);
    var u := Exec(t, ForkCopy(fork, parent, afterSeq));
    hide Exec;
    assert forall r | Carrier(u, r) :: r in t.messages;
    assert UniqueCarriers(u) by { hide References, UniqueSources; }
    assert References(u) by { hide UniqueCarriers, UniqueSources, Carrier; }
  }

  /** A copy adds rows of the fork that carry nothing. */
  lemma CopiesAddRows(t: Tables, fork: string, parent: string, afterSeq: int)
    requires References(t)
    ensures var u := Exec(t, ForkCopy(fork, parent, afterSeq));
            && u == t.(messages := u.messages, nextRow := u.nextRow) && t.nextRow <= u.nextRow
            && (forall r | r in t.messages :: r in u.messages && u.messages[r] == t.messages[r])
            && (forall r | r in u.messages && r !in t.messages ::
                  r.n < u.nextRow && fork in t.sessions
                  && u.messages[r].injectionId.None? && u.messages[r].sessionId == fork)
  {
  }

  lemma DropSessionKeeps(t: Tables, session: string)
    requires Sound(t)
    ensures Sound(Exec(t, DropSession(session)))
  {
    CarrierFrame(t, Exec(t, DropSession(session)));
  }

  lemma InjectionRowsKeep(t: Tables, s: Statement)
    requires Sound(t)
    requires s.CreateInjection? || s.Reconcile? || s.Fail?
    ensures Sound(Exec(t, s))
  {
    match s
    case CreateInjection(id, source, session, prompt) => CreatingKeeps(t, id, source, session, prompt);
    case Reconcile(_) => SettlingKeeps(t, s);
    case Fail(_) => SettlingKeeps(t, s);
  }

  lemma CreatingKeeps(t: Tables, id: string, source: string, session: string, prompt: string)
    requires Sound(t)
    ensures Sound(Exec(t, CreateInjection(id, source, session, prompt)))
  {
    CarrierFrame(t, Exec(t, CreateInjection(id, source, session, prompt)));
  }

  lemma SettlingKeeps(t: Tables, s: Statement)
    requires Sound(t) && (s.Reconcile? || s.Fail?)
    ensures Sound(Exec(t, s))
  {
    SoundIsLegacyWithoutHalfStates(t);
    CarrierFrame(t, Exec(t, s));
  }

  lemma OtherRowsKeep(t: Tables, s: Statement)
    requires Sound(t)
    requires s.SaveSession? || s.CreateBg? || s.FinishBg? || s.InterruptBg?
    ensures Sound(Exec(t, s))
  {
    CarrierFrame(t, Exec(t, s));
  }

  lemma StatementKeepsSound(t: Tables, s: Statement)
    requires Sound(t)
    ensures Sound(Exec(t, s))
  {
    match s
    case AppendMessage(m) =>
      if m.injectionId.Some? { DeliveryKeeps(t, m); } else { PlainMessageKeeps(t, m); }
    case ForkCopy(fork, parent, afterSeq) => CopyMessagesKeeps(t, fork, parent, afterSeq);
    case DropSession(session) => DropSessionKeeps(t, session);
    case CreateInjection(_, _, _, _) => InjectionRowsKeep(t, s);
    case Reconcile(_) => InjectionRowsKeep(t, s);
    case Fail(_) => InjectionRowsKeep(t, s);
    case SaveSession(_) => OtherRowsKeep(t, s);
    case CreateBg(_, _) => OtherRowsKeep(t, s);
    case FinishBg(_, _) => OtherRowsKeep(t, s);
    case InterruptBg => OtherRowsKeep(t, s);
  }

  /** A row's identity never changes, and delivered and failed are final as long as its session lives. */
  lemma TerminalIsFinal(t: Tables, s: Statement, id: string)
    requires id in t.injections && id in Exec(t, s).injections
    ensures var before, after := t.injections[id], Exec(t, s).injections[id];
            && after.(status := Pending) == before.(status := Pending)
            && (after.status != before.status ==> before.status.Pending?)
  {
  }

  // ------------------------------------------------ crashes on one shared connection

  /** The one connection every coroutine shares: what it sees and what a crash would leave. */
  datatype Store = Store(working: Tables, durable: Tables)

  /** `Rollback` is a crash, or create_fork_session undoing whatever any coroutine has not committed yet. */
  datatype Event = Run(statement: Statement) | Commit | Rollback

  function Step(s: Store, e: Event): Store {
    match e
    case Run(statement) => s.(working := Exec(s.working, statement))
    case Commit => s.(durable := s.working)
    case Rollback => s.(working := s.durable)
  }

  function After(s: Store, events: seq<Event>): Store {
    if events == [] then s else Step(After(s, events[..|events| - 1]), events[|events| - 1])
  }

  /** Every interleaving of statements, commits, rollbacks and crashes leaves a sound store. */
  lemma {:induction false} EveryRunIsExactlyOnce(s: Store, events: seq<Event>)
    requires Sound(s.working) && Sound(s.durable)
    ensures var r := After(s, events);
            && Sound(r.working) && Sound(r.durable)
            && (forall i | i in r.working.injections :: ExactlyOnce(r.working, i))
            && (forall i | i in r.durable.injections :: ExactlyOnce(r.durable, i))
  {
    if events != [] {
      var before := After(s, events[..|events| - 1]);
      EveryRunIsExactlyOnce(s, events[..|events| - 1]);
      match events[|events| - 1]
      case Run(statement) => StatementKeepsSound(before.working, statement);
      case Commit =>
      case Rollback =>
    }
    SoundMeansExactlyOnce(After(s, events).working);
    SoundMeansExactlyOnce(After(s, events).durable);
  }

  // ------------------------------------------------------------ whether a returned append is durable

  predicate Stored(t: Tables, m: Message) {
    exists r | r in t.messages :: t.messages[r] == m
  }

  /** The event neither writes `m` nor deletes its session. */
  predicate Apart(e: Event, m: Message) {
    e.Run? ==>
      && e.statement != AppendMessage(m)
      && (e.statement.ForkCopy? ==> e.statement.fork != m.sessionId)
      && e.statement != DropSession(m.sessionId)
  }

  lemma ApartKeepsStored(t: Tables, s: Statement, m: Message)
    requires Sound(t) && Apart(Run(s), m)
    ensures Stored(Exec(t, s), m) <==> Stored(t, m)
  {
    var u := Exec(t, s);
    if Stored(t, m) {
      var r :| r in t.messages && t.messages[r] == m;
      assert r.n < t.nextRow;
      assert r in u.messages && u.messages[r] == m;
    }
    if Stored(u, m) {
      var r :| r in u.messages && u.messages[r] == m;
      assert r in t.messages && t.messages[r] == m;
    }
  }

  lemma AppendStores(t: Tables, m: Message)
    requires InsertMessage(t, m).Ok?
    ensures Stored(Exec(t, AppendMessage(m)), m)
  {
    assert Row(t.nextRow) in Exec(t, AppendMessage(m)).messages;
  }

  /** What has become of an insert since: nothing yet, or the first end of a transaction kept it or undid it. */
  datatype Fate = Open | Kept | Undone

  function Ended(fate: Fate, e: Event): Fate {
    if !fate.Open? then fate
    else
      match e
      case Run(_) => Open
      case Commit => Kept
      case Rollback => Undone
  }

  function FateOf(events: seq<Event>): Fate {
    if events == [] then Open else Ended(FateOf(events[..|events| - 1]), events[|events| - 1])
  }

  /** A rollback comes before any commit. */
  predicate RolledBackFirst(events: seq<Event>) {
    exists k | 0 <= k < |events| :: events[k].Rollback? && forall j | 0 <= j < k :: events[j].Run?
  }

  lemma {:induction false} UndoneExactly(events: seq<Event>)
    ensures FateOf(events).Undone? <==> RolledBackFirst(events)
    ensures FateOf(events).Open? <==> forall j | 0 <= j < |events| :: events[j].Run?
  {
    if events != [] {
      var n := |events| - 1;
      UndoneExactly(events[..n]);
      if RolledBackFirst(events[..n]) {
        var k :| 0 <= k < n && events[..n][k].Rollback? && forall j | 0 <= j < k :: events[..n][j].Run?;
        assert events[k].Rollback? && forall j | 0 <= j < k :: events[j] == events[..n][j];
      }
      if RolledBackFirst(events) {
        var k :| 0 <= k < |events| && events[k].Rollback? && forall j | 0 <= j < k :: events[j].Run?;
        if k < n {
          assert events[..n][k].Rollback? && forall j | 0 <= j < k :: events[..n][j] == events[j];
        } else {
          assert forall j | 0 <= j < n :: events[..n][j] == events[j];
        }
      }
      if FateOf(events[..n]).Open? && events[n].Rollback? {
        assert forall j | 0 <= j < n :: events[j] == events[..n][j];
      }
    }
  }

  /** The two views of the connection agree with the fate of the insert. */
  ghost predicate Tells(s: Store, m: Message, fate: Fate) {
    && (Stored(s.working, m) <==> !fate.Undone?)
    && (Stored(s.durable, m) <==> fate.Kept?)
  }

  lemma EventTells(s: Store, e: Event, m: Message, fate: Fate)
    requires Sound(s.working) && Apart(e, m) && Tells(s, m, fate)
    ensures Tells(Step(s, e), m, Ended(fate, e))
  {
    if e.Run? {
      ApartKeepsStored(s.working, e.statement, m);
    }
  }

  lemma {:induction false} RunTells(s: Store, m: Message, during: seq<Event>)
    requires Sound(s.working) && Sound(s.durable) && Tells(s, m, Open)
    requires forall e | e in during :: Apart(e, m)
    ensures Tells(After(s, during), m, FateOf(during))
  {
    if during != [] {
      var init, last := during[..|during| - 1], during[|during| - 1];
      RunTells(s, m, init);
      EveryRunIsExactlyOnce(s, init);
      hide Sound, Tells, ExactlyOnce;
      EventTells(After(s, init), last, m, FateOf(init));
    }
  }

  /**
    An append inserts its message and later commits; in between others use the same connection. Once it has returned its
    message is durable if and only if nobody rolled back before anybody committed.
   */
  lemma ReturnedAppendIsDurable(s: Store, m: Message, during: seq<Event>)
    requires Sound(s.working) && Sound(s.durable) && InsertMessage(s.working, m).Ok?
    requires !Stored(s.durable, m) && forall e | e in during :: Apart(e, m)
    ensures var inserted := Step(s, Run(AppendMessage(m)));
            Stored(After(inserted, during + [Commit]).durable, m) <==> !RolledBackFirst(during)
  {
    var inserted := Step(s, Run(AppendMessage(m)));
    AppendStores(s.working, m);
    StatementKeepsSound(s.working, AppendMessage(m));
    RunTells(inserted, m, during);
    UndoneExactly(during);
    assert (during + [Commit])[..|during|] == during;
    hide Sound, Exec;
  }

  // ------------------------------------------------------------ legacy half-states

  /** One reconcile repairs the row it names, leaves every other row alone, and is the identity without a half-state. */
  lemma ReconcileRepairs(t: Tables, id: string)
    requires Legacy(t)
    ensures var u := ReconcileInjection(t, id);
            && Legacy(u)
            && (forall i :: HalfState(u, i) <==> HalfState(t, i) && i != id)
            && (u != t <==> HalfState(t, id))
            && u == t.(injections := u.injections)
            && u.injections.Keys == t.injections.Keys
            && (forall i | i in t.injections && i != id :: u.injections[i] == t.injections[i])
  {
    var u := ReconcileInjection(t, id);
    if HalfState(t, id) {
      assert u.injections[id] != t.injections[id];
      forall r | Carrier(u, r) ensures Faithful(u, r) && !StatusOf(u, r, Failed) {
        assert Carrier(t, r);
      }
      forall i | i in u.injections && u.injections[i].status.Delivered? ensures Carried(u, i) {
        if i != id {
          assert Carried(t, i);
        }
      }
    }
  }

  /** Failing a pending row keeps the receipt law exactly when no message carries it already. */
  lemma FailNeedsReconcileFirst(t: Tables, id: string)
    requires Legacy(t) && id in t.injections && t.injections[id].status.Pending?
    ensures Legacy(FailInjection(t, id)) <==> !HalfState(t, id)
  {
    var u := FailInjection(t, id);
    if HalfState(t, id) {
      var r :| r in t.messages && t.messages[r].injectionId == Some(id);
      assert Carrier(u, r) && StatusOf(u, r, Failed);
    } else {
      forall r | Carrier(u, r) ensures Faithful(u, r) && !StatusOf(u, r, Failed) {
        assert Carrier(t, r) && Faithful(t, r);
        assert t.messages[r].injectionId != Some(id);
      }
      forall i | i in u.injections && u.injections[i].status.Delivered? ensures Carried(u, i) {
        assert Carried(t, i);
      }
    }
  }

  // ------------------------------------------------------------ the database object

  /** The part of server.database.Database that touches the outbox. */
  class Database {
    var sessions: set<string>
    var injections: map<string, Injection>
    var messages: map<RowId, Message>
    var nextRow: nat
    var bgTasks: map<string, BgTask>

    ghost function Contents(): Tables reads this {
      Tables(sessions, injections, messages, nextRow, bgTasks)
    }

    method CreateSessionInjection(id: string, source: string, session: string, prompt: string)
      returns (row: Result<string, Refusal>)
      modifies this
      ensures Contents() == Exec(old(Contents()), CreateInjection(id, source, session, prompt))
      ensures row.Ok? ==> row.value in injections && injections[row.value].sourceKey == source
      ensures row.Err? ==> Contents() == old(Contents()) &&
                           (forall j | j in injections :: injections[j].sourceKey != source)
      // In plain fields: one row is added exactly when key and id are new and the session is there.
      ensures sessions == old(sessions) && messages == old(messages) && bgTasks == old(bgTasks)
      ensures nextRow == old(nextRow)
      ensures if id !in old(injections) && session in sessions
                 && (forall j | j in old(injections) :: old(injections)[j].sourceKey != source)
              then row == Ok(id) && injections == old(injections)[id := Injection(source, session, prompt, Pending)]
              else injections == old(injections)
    {
      var taken := set j | j in injections && injections[j].sourceKey == source;
      assert forall j | j in injections && injections[j].sourceKey == source :: j in taken;
      if id !in injections && taken == {} {
        if session !in sessions {
          return Err(ForeignKey);
        }
        injections := injections[id := Injection(source, session, prompt, Pending)];
        taken := {id};
      }
      if taken == {} {
        return Err(BadCall);
      }
      var found :| found in taken;
      row := Ok(found);
    }

    /** The friendly preflight, then the INSERT whose triggers decide. */
    method AppendMessage(m: Message) returns (stored: Option<Refusal>)
      modifies this
      ensures Contents() == Exec(old(Contents()), Statement.AppendMessage(m))
      ensures stored.None? <==> Contents() != old(Contents())
      ensures stored.None? ==> Row(old(nextRow)) in messages && messages[Row(old(nextRow))] == m
      ensures stored.None? && m.injectionId.Some? ==> injections[m.injectionId.value].status == Delivered
      // In plain fields: what is stored, when, and what the receipt changes.
      ensures stored.None? <==>
                && m.sessionId in old(sessions)
                && (m.injectionId.Some? ==>
                      var id := m.injectionId.value;
                      && id in old(injections) && old(injections)[id].status.Pending?
                      && old(injections)[id].sessionId == m.sessionId
                      && m.role == "user" && m.kind == "text" && m.content == Text(old(injections)[id].prompt)
                      && forall r | r in old(messages) :: old(messages)[r].injectionId != Some(id))
      ensures sessions == old(sessions) && bgTasks == old(bgTasks)
      ensures stored.None? ==> messages == old(messages)[Row(old(nextRow)) := m] && nextRow == old(nextRow) + 1
      ensures stored.None? && m.injectionId.None? ==> injections == old(injections)
      ensures stored.None? && m.injectionId.Some? ==>
                var id := m.injectionId.value;
                id in old(injections) && injections == old(injections)[id := old(injections)[id].(status := Delivered)]
      ensures stored.Some? ==> messages == old(messages) && nextRow == old(nextRow) && injections == old(injections)
    {
      if m.injectionId.Some? {
        var id := m.injectionId.value;
        if id !in injections || injections[id].sessionId != m.sessionId || injections[id].status != Pending
           || m.role != "user" || m.kind != "text" || m.content != Text(injections[id].prompt) {
          return Some(BadCall);
        }
      }
      if m.sessionId !in sessions {
        return Some(ForeignKey);
      }
      if m.injectionId.Some? {
        if exists r | r in messages :: messages[r].injectionId == m.injectionId {
          return Some(UniqueIndex);
        }
      }
      ghost var before := nextRow;
      messages := messages[Row(nextRow) := m];
      nextRow := nextRow + 1;
      assert nextRow != before;
      if m.injectionId.Some? {
        injections := injections[m.injectionId.value := injections[m.injectionId.value].(status := Delivered)];
      }
      stored := None;
    }

    method ReconcileSessionInjection(id: string) returns (changed: bool)
      modifies this`injections
      ensures Contents() == Exec(old(Contents()), Reconcile(id))
      ensures changed <==> HalfState(old(Contents()), id)
      ensures changed <==>
                && id in old(injections) && old(injections)[id].status.Pending?
                && exists r | r in messages ::
                     messages[r].injectionId == Some(id) && messages[r].sessionId == old(injections)[id].sessionId
      ensures injections ==
              if changed then old(injections)[id := old(injections)[id].(status := Delivered)] else old(injections)
    {
      changed := id in injections && injections[id].status == Pending &&
                 exists r | r in messages :: messages[r].injectionId == Some(id) &&
                   messages[r].sessionId == injections[id].sessionId;
      if changed {
        injections := injections[id := injections[id].(status := Delivered)];
      }
    }

    method FailSessionInjection(id: string) returns (changed: bool)
      modifies this`injections
      ensures Contents() == Exec(old(Contents()), Fail(id))
      ensures changed <==> id in old(injections) && old(injections)[id].status.Pending?
      ensures injections ==
              if changed then old(injections)[id := old(injections)[id].(status := Failed)] else old(injections)
    {
      changed := id in injections && injections[id].status == Pending;
      if changed {
        injections := injections[id := injections[id].(status := Failed)];
      }
    }

    /** A clean rollback unit: either both writes or neither. */
    method CreateForkSession(fork: string, parent: string, afterSeq: int) returns (created: bool)
      modifies this
      ensures created <==> fork !in old(sessions)
      ensures created ==>
                Contents() == Exec(Exec(old(Contents()), SaveSession(fork)), ForkCopy(fork, parent, afterSeq))
      ensures !created ==> Contents() == old(Contents())
      ensures created && References(old(Contents())) ==> PlainFork(old(Contents()), Contents(), fork, parent, afterSeq)
    {
      if fork in sessions {
        return false;
      }
      sessions := sessions + {fork};
      var copied := set r | r in messages && messages[r].sessionId == parent && messages[r].seqNo <= afterSeq;
      messages := messages + Copies(messages, copied, nextRow, fork);
      nextRow := nextRow + 1;
      created := true;
      if References(old(Contents())) {
        ForkIsPlain(old(Contents()), Contents(), fork, parent, afterSeq);
      }
    }

    /** recover_pending_session_injections up to dispatch: after it no legacy half-state is left. */
    method RecoverPending()
      requires Legacy(Contents())
      modifies this`injections
      ensures Sound(Contents())
      ensures Contents() == old(Contents()).(injections := injections)
      ensures injections.Keys == old(injections).Keys
      ensures forall i | i in injections ::
                injections[i] == if HalfState(old(Contents()), i)
                                 then old(injections)[i].(status := Delivered) else old(injections)[i]
      ensures forall i | i in injections && injections[i] != old(injections)[i] ::
                && old(injections)[i].status.Pending? && injections[i] == old(injections)[i].(status := Delivered)
                && exists r | r in messages ::
                     messages[r].injectionId == Some(i) && messages[r].sessionId == injections[i].sessionId
    {
      ghost var start := Contents();
      var pending := Enumerate(set i | i in injections && injections[i].status == Pending);
      var k := 0;
      while k < |pending|
        invariant 0 <= k <= |pending|
        invariant Contents() == ReconcileAll(start, pending[..k])
      {
        var _ := ReconcileSessionInjection(pending[k]);
        assert pending[..k + 1][..k] == pending[..k];
        k := k + 1;
      }
      assert pending[..k] == pending;
      ReconcileAllRepairs(start, pending);
      SoundIsLegacyWithoutHalfStates(Contents());
    }

    /** deliver_bg_result for a task, after those of `done`, up to its answer. */
    method Deliver(ghost t: Tables, ghost done: seq<string>, task: string, fault: CallbackFault,
                   newIds: string -> string, render: string -> string)
      returns (answer: Answer)
      requires task in bgTasks && bgTasks == t.bgTasks
      requires Contents() == DeliverAll(t, done, newIds, render)
      modifies this
      ensures bgTasks == t.bgTasks && answer == AnswerOf(fault)
      ensures answer == match fault
                        case Enqueue(f) => if f.NoFault? then Yes else No
                        case BeforeEnqueue => Raises
                        case AfterEnqueue => Raises
      ensures Contents() == DeliverAll(t, if Inserts(fault) then done + [task] else done, newIds, render)
    {
      DeliverOneMore(t, done, task, newIds, render);
      hide DeliverAll, Exec;
      answer := AnswerOf(fault);
      if Inserts(fault) {
        var _ := CreateSessionInjection(newIds(task), BgSource(task), bgTasks[task].sessionId, render(task));
        DeliverAllKeepsTasks(t, done + [task], newIds, render);
      }
    }

    /** The delivery callback, once per listed task; its answer is ignored and what it raises is logged. */
    method DeliverMissing(
      missing: seq<string>, faults: string -> CallbackFault, newIds: string -> string, render: string -> string)
      requires forall b | b in missing :: b in bgTasks
      modifies this
      ensures Contents() == DeliverAll(old(Contents()), Inserted(missing, faults), newIds, render)
    {
      ghost var t, done := Contents(), Inserted([], faults);
      assert Contents() == DeliverAll(t, done, newIds, render);
      assert bgTasks == t.bgTasks;
      hide *;
      var k := 0;
      while k < |missing|
        invariant 0 <= k <= |missing| && done == Inserted(missing[..k], faults)
        invariant bgTasks == t.bgTasks && Contents() == DeliverAll(t, done, newIds, render)
      {
        var task := missing[k];
        InsertedNext(missing, k, faults);
        var _ := Deliver(t, done, task, faults(task), newIds, render);
        done := if Inserts(faults(task)) then done + [task] else done;
        k := k + 1;
      }
      assert missing[..k] == missing;
    }

    /**
      BgTaskManager.start: rows left in flight become interrupted, then every
      terminal row that owes a delivery gets its source, but those whose insert is
      not committed. `newIds` are the fresh uuids.
     */
    method StartBgTasks(faults: string -> CallbackFault, newIds: string -> string, render: string -> string)
      requires Sound(Contents())
      requires Fresh(Contents(), newIds)
      modifies this
      ensures BgRecovered(old(Contents()), Contents(), faults, render)
      ensures PlainStart(old(Contents()), Contents(), faults, render)
    {
      ghost var start := InterruptBgTasks(Contents());
      bgTasks := map b | b in bgTasks ::
        if bgTasks[b].status.InFlight() then bgTasks[b].(status := BgInterrupted) else bgTasks[b];
      var missing := Enumerate(
        set b | b in bgTasks && Owed(Tables(sessions, injections, messages, nextRow, bgTasks), b));
      DeliverMissing(missing, faults, newIds, render);
      BgRecoveryIsComplete(old(Contents()), missing, faults, newIds, render);
      StartIsPlain(old(Contents()), Contents(), faults, render);
    }
  }

  // ------------------------------------------------------------ in plain fields

  /** The same message in another session, without its delivery id. */
  predicate SameSaid(copy: Message, original: Message, fork: string) {
    && copy.sessionId == fork && copy.injectionId.None?
    && copy.seqNo == original.seqNo && copy.role == original.role && copy.kind == original.kind
    && copy.content == original.content
  }

  /** A message the fork is made with: one of the parent's, up to the fork point. */
  predicate UpTo(t: Tables, r: RowId, parent: string, afterSeq: int) {
    r in t.messages && t.messages[r].sessionId == parent && t.messages[r].seqNo <= afterSeq
  }

  predicate IsNew(t: Tables, u: Tables, r: RowId) {
    r in u.messages && r !in t.messages
  }

  /** Every new row is the one copy of a message up to the fork point. */
  ghost predicate NewAreCopies(t: Tables, u: Tables, fork: string, parent: string, afterSeq: int) {
    && (forall c | IsNew(t, u, c) ::
          c.Copy? && UpTo(t, c.of, parent, afterSeq) && SameSaid(u.messages[c], t.messages[c.of], fork))
    && (forall c, d | IsNew(t, u, c) && IsNew(t, u, d) && c != d :: c.Copy? && d.Copy? ==> c.of != d.of)
  }

  /** No message up to the fork point is left out. */
  ghost predicate AllCopied(t: Tables, u: Tables, parent: string, afterSeq: int) {
    forall r | UpTo(t, r, parent, afterSeq) :: exists c :: IsNew(t, u, c) && c.Copy? && c.of == r
  }

  /** The fork holds one copy of each message up to the fork point and nothing else, and no old row changes. */
  ghost predicate PlainFork(t: Tables, u: Tables, fork: string, parent: string, afterSeq: int) {
    && u.sessions == t.sessions + {fork} && u.injections == t.injections && u.bgTasks == t.bgTasks
    && (forall r | r in t.messages :: r in u.messages && u.messages[r] == t.messages[r])
    && NewAreCopies(t, u, fork, parent, afterSeq)
    && AllCopied(t, u, parent, afterSeq)
    && (forall c | c in u.messages && u.messages[c].sessionId == fork :: c !in t.messages)
    && (afterSeq == -1 && (forall r | r in t.messages :: t.messages[r].seqNo >= 0) ==> u.messages == t.messages)
  }

  lemma CopiesAreNew(t: Tables, u: Tables, copied: set<RowId>, fork: string, parent: string, afterSeq: int)
    requires forall r | r in t.messages :: r.n < t.nextRow
    requires copied <= t.messages.Keys && forall r :: r in copied <==> UpTo(t, r, parent, afterSeq)
    requires u.messages == t.messages + Copies(t.messages, copied, t.nextRow, fork)
    ensures NewAreCopies(t, u, fork, parent, afterSeq)
    ensures AllCopied(t, u, parent, afterSeq)
  {
    var copies := Copies(t.messages, copied, t.nextRow, fork);
    forall c ensures IsNew(t, u, c) <==> c.Copy? && c.n == t.nextRow && c.of in copied {
      assert c in copies ==> c.n == t.nextRow;
    }
    forall r | UpTo(t, r, parent, afterSeq) ensures exists c :: IsNew(t, u, c) && c.Copy? && c.of == r {
      assert IsNew(t, u, Copy(t.nextRow, r));
    }
  }

  lemma ForkWrites(t: Tables, copied: set<RowId>, fork: string, parent: string, afterSeq: int)
    requires fork !in t.sessions
    requires copied == set r | r in t.messages && t.messages[r].sessionId == parent && t.messages[r].seqNo <= afterSeq
    ensures Exec(Exec(t, SaveSession(fork)), ForkCopy(fork, parent, afterSeq)) ==
            t.(sessions := t.sessions + {fork},
               messages := t.messages + Copies(t.messages, copied, t.nextRow, fork), nextRow := t.nextRow + 1)
  {
  }

  lemma CopiesKeepOld(messages: map<RowId, Message>, n: nat, copied: set<RowId>, fork: string)
    requires copied <= messages.Keys && forall r | r in messages :: r.n < n && messages[r].sessionId != fork
    ensures var after := messages + Copies(messages, copied, n, fork);
            && (forall r | r in messages :: r in after && after[r] == messages[r])
            && (forall c | c in after && after[c].sessionId == fork :: c !in messages)
            && (copied == {} ==> after == messages)
  {
    var copies := Copies(messages, copied, n, fork);
    assert forall c | c in copies :: c.n == n;
  }

  lemma ForkIsPlain(t: Tables, u: Tables, fork: string, parent: string, afterSeq: int)
    requires References(t) && fork !in t.sessions
    requires u == Exec(Exec(t, SaveSession(fork)), ForkCopy(fork, parent, afterSeq))
    ensures PlainFork(t, u, fork, parent, afterSeq)
  {
    var copied := set r | r in t.messages && t.messages[r].sessionId == parent && t.messages[r].seqNo <= afterSeq;
    ForkWrites(t, copied, fork, parent, afterSeq);
    hide Exec;
    CopiesAreNew(t, u, copied, fork, parent, afterSeq);
    CopiesKeepOld(t.messages, t.nextRow, copied, fork);
    hide NewAreCopies, AllCopied, Copies;
  }

  predicate HasKey(injections: map<string, Injection>, key: string) {
    exists i | i in injections :: injections[i].sourceKey == key
  }

  /** No task stays in flight and no other field of one changes. */
  ghost predicate TasksSettled(before: map<string, BgTask>, after: map<string, BgTask>) {
    && after.Keys == before.Keys
    && (forall b | b in before ::
          && after[b].sessionId == before[b].sessionId && after[b].deliveryRequired == before[b].deliveryRequired
          && after[b].status ==
               if before[b].status.BgPending? || before[b].status.BgRunning? then BgInterrupted else before[b].status)
  }

  /** The row is the delivery of a task that owes one and had none. */
  predicate PlainDelivery(before: Tables, after: Tables, row: Injection, render: string -> string) {
    exists b | b in after.bgTasks ::
      && after.bgTasks[b].deliveryRequired && !HasKey(before.injections, "bg:" + b)
      && row == Injection("bg:" + b, after.bgTasks[b].sessionId, render(b), Pending)
  }

  /** What startup does, told without the functions it is made of. */
  ghost predicate PlainStart(
    before: Tables, after: Tables, faults: string -> CallbackFault, render: string -> string) {
    && after.sessions == before.sessions && after.messages == before.messages && after.nextRow == before.nextRow
    && TasksSettled(before.bgTasks, after.bgTasks)
    && (forall i | i in before.injections :: i in after.injections && after.injections[i] == before.injections[i])
    && (forall i | i in after.injections && i !in before.injections ::
          PlainDelivery(before, after, after.injections[i], render))
    && (forall b | b in after.bgTasks && after.bgTasks[b].deliveryRequired ::
          HasKey(after.injections, "bg:" + b) <==>
          || HasKey(before.injections, "bg:" + b)
          || faults(b) == AfterEnqueue || faults(b) == Enqueue(NoFault) || faults(b) == Enqueue(AfterCommit))
  }

  lemma KeyIsSource(t: Tables, b: string)
    ensures HasSource(t, BgSource(b)) <==> HasKey(t.injections, "bg:" + b)
  {
  }

  lemma NewIsPlainDelivery(before: Tables, after: Tables, i: string, render: string -> string)
    requires UniqueSources(after) && i in after.injections && i !in before.injections
    requires NewDelivery(after, after.injections[i], render)
    requires forall j | j in before.injections :: j in after.injections && after.injections[j] == before.injections[j]
    ensures PlainDelivery(before, after, after.injections[i], render)
  {
  }

  lemma StartIsPlain(before: Tables, after: Tables, faults: string -> CallbackFault, render: string -> string)
    requires BgRecovered(before, after, faults, render)
    ensures PlainStart(before, after, faults, render)
  {
    assert UniqueSources(after) by { hide HasSource, InterruptBgTasks; }
    hide Sound;
    InterruptSettles(before);
    KeysAreSources(before);
    KeysAreSources(after);
    hide TasksSettled, InterruptBgTasks, HasSource, HasKey;
    forall i | i in after.injections && i !in before.injections
      ensures PlainDelivery(before, after, after.injections[i], render)
    {
      NewIsPlainDelivery(before, after, i, render);
    }
    hide PlainDelivery, UniqueSources, NewDelivery;
  }

  lemma InterruptSettles(t: Tables)
    ensures TasksSettled(t.bgTasks, InterruptBgTasks(t).bgTasks)
    ensures InterruptBgTasks(t) == t.(bgTasks := InterruptBgTasks(t).bgTasks)
  {
  }

  lemma KeysAreSources(t: Tables)
    ensures forall b :: HasSource(t, BgSource(b)) <==> HasKey(t.injections, "bg:" + b)
  {
    forall b: string {
      KeyIsSource(t, b);
    }
  }

  // ------------------------------------------------------------ recovery loops

  function ReconcileAll(t: Tables, ids: seq<string>): Tables {
    if ids == [] then t else ReconcileInjection(ReconcileAll(t, ids[..|ids| - 1]), ids[|ids| - 1])
  }

  lemma {:induction false} ReconcileAllRepairs(t: Tables, ids: seq<string>)
    requires Legacy(t)
    ensures var u := ReconcileAll(t, ids);
            && Legacy(u)
            && u == t.(injections := u.injections)
            && u.injections.Keys == t.injections.Keys
            && (forall i :: HalfState(u, i) <==> HalfState(t, i) && i !in ids)
            && (forall i | i in u.injections ::
                  u.injections[i] == if HalfState(t, i) && i in ids
                                     then t.injections[i].(status := Delivered) else t.injections[i])
  {
    if ids != [] {
      var init, last := ids[..|ids| - 1], ids[|ids| - 1];
      ReconcileAllRepairs(t, init);
      ReconcileRepairs(ReconcileAll(t, init), last);
      assert ids == init + [last];
    }
  }

  function BgSource(task: string): string { "bg:" + task }

  /** How the callback can end: its enqueue does, or it raises in what it reads before or after. */
  datatype CallbackFault = Enqueue(fault: Fault) | BeforeEnqueue | AfterEnqueue

  predicate Inserts(f: CallbackFault) { f.AfterEnqueue? || (f.Enqueue? && Committed(f.fault)) }

  /** What its caller sees: True, False, or an exception. A failed enqueue is caught and answered with False. */
  datatype Answer = Yes | No | Raises

  function AnswerOf(f: CallbackFault): Answer {
    if !f.Enqueue? then Raises else if f.fault.NoFault? then Yes else No
  }

  /** Only a True tells: the source is then there. After a False or an exception it may be there or not. */
  lemma OnlyYesTells(answer: Answer)
    ensures (forall f | AnswerOf(f) == answer :: Inserts(f)) <==> answer == Yes
    ensures exists f :: AnswerOf(f) == answer && Inserts(f)
  {
    assert AnswerOf(Enqueue(NoFault)) == Yes && AnswerOf(Enqueue(BeforeCommit)) == AnswerOf(Enqueue(AfterCommit)) == No;
    assert AnswerOf(BeforeEnqueue) == AnswerOf(AfterEnqueue) == Raises;
    assert Inserts(Enqueue(NoFault)) && Inserts(Enqueue(AfterCommit)) && Inserts(AfterEnqueue);
    assert !Inserts(Enqueue(BeforeCommit)) && !Inserts(BeforeEnqueue);
  }

  /** The tasks whose insert is committed. */
  function Inserted(tasks: seq<string>, faults: string -> CallbackFault): (rest: seq<string>)
    ensures forall b :: b in rest <==> b in tasks && Inserts(faults(b))
    ensures NoDuplicates(tasks) ==> NoDuplicates(rest)
  {
    if tasks == [] then []
    else
      var init, last := tasks[..|tasks| - 1], tasks[|tasks| - 1];
      assert tasks == init + [last];
      Inserted(init, faults) + if Inserts(faults(last)) then [last] else []
  }

  predicate HasSource(t: Tables, source: string) {
    exists i | i in t.injections :: t.injections[i].sourceKey == source
  }

  /** uuid4: no two tasks get the same id and none is in use. */
  ghost predicate Fresh(t: Tables, newIds: string -> string) {
    && (forall a, b | a != b :: newIds(a) != newIds(b))
    && (forall a :: newIds(a) !in t.injections)
  }

  function DeliverAll(t: Tables, tasks: seq<string>, newIds: string -> string, render: string -> string): Tables {
    if tasks == [] then t
    else
      var before, b := DeliverAll(t, tasks[..|tasks| - 1], newIds, render), tasks[|tasks| - 1];
      if b in t.bgTasks
      then Exec(before, CreateInjection(newIds(b), BgSource(b), t.bgTasks[b].sessionId, render(b)))
      else before
  }

  lemma InsertedNext(tasks: seq<string>, k: nat, faults: string -> CallbackFault)
    requires k < |tasks|
    ensures Inserted(tasks[..k + 1], faults) ==
            Inserted(tasks[..k], faults) + if Inserts(faults(tasks[k])) then [tasks[k]] else []
  {
    assert tasks[..k + 1][..k] == tasks[..k];
  }

  lemma DeliverOneMore(t: Tables, done: seq<string>, b: string, newIds: string -> string, render: string -> string)
    requires b in t.bgTasks
    ensures DeliverAll(t, done + [b], newIds, render) ==
            Exec(DeliverAll(t, done, newIds, render),
              CreateInjection(newIds(b), BgSource(b), t.bgTasks[b].sessionId, render(b)))
  {
    assert (done + [b])[..|done|] == done;
  }

  lemma {:induction false} DeliverAllKeepsTasks(
    t: Tables, tasks: seq<string>, newIds: string -> string, render: string -> string)
    ensures DeliverAll(t, tasks, newIds, render).bgTasks == t.bgTasks
  {
    if tasks != [] {
      DeliverAllKeepsTasks(t, tasks[..|tasks| - 1], newIds, render);
    }
  }

  lemma NewSource(t: Tables, id: string, source: string, session: string, prompt: string)
    requires Sound(t) && id !in t.injections && !HasSource(t, source) && session in t.sessions
    ensures Exec(t, CreateInjection(id, source, session, prompt)) ==
            t.(injections := t.injections[id := Injection(source, session, prompt, Pending)])
    ensures Sound(Exec(t, CreateInjection(id, source, session, prompt)))
  {
    InjectionRowsKeep(t, CreateInjection(id, source, session, prompt));
  }

  ghost predicate IsNewId(tasks: seq<string>, newIds: string -> string, i: string) {
    exists b | b in tasks :: i == newIds(b)
  }

  /** Each of the tasks has exactly the row that names it, and nothing else changed. */
  ghost predicate SourcesAdded(
    t: Tables, u: Tables, tasks: seq<string>, newIds: string -> string, render: string -> string) {
    && u == t.(injections := u.injections)
    && (forall i :: i in u.injections <==> i in t.injections || IsNewId(tasks, newIds, i))
    && (forall i | i in t.injections :: u.injections[i] == t.injections[i])
    && (forall b | b in tasks :: b in t.bgTasks && newIds(b) in u.injections &&
          u.injections[newIds(b)] == Injection(BgSource(b), t.bgTasks[b].sessionId, render(b), Pending))
  }

  lemma OneMoreSource(
    t: Tables, u: Tables, tasks: seq<string>, b: string, newIds: string -> string, render: string -> string)
    requires Fresh(t, newIds) && SourcesAdded(t, u, tasks, newIds, render) && b !in tasks && b in t.bgTasks
    requires !HasSource(t, BgSource(b))
    ensures newIds(b) !in u.injections && !HasSource(u, BgSource(b))
    ensures var row := Injection(BgSource(b), t.bgTasks[b].sessionId, render(b), Pending);
            SourcesAdded(t, u.(injections := u.injections[newIds(b) := row]), tasks + [b], newIds, render)
  {
    forall c | c in tasks ensures BgSource(c) != BgSource(b) && newIds(c) != newIds(b) {
      assert BgSource(c)[3..] == c && BgSource(b)[3..] == b;
    }
    assert !IsNewId(tasks, newIds, newIds(b));
    forall i ensures IsNewId(tasks + [b], newIds, i) <==> IsNewId(tasks, newIds, i) || i == newIds(b) {
      if IsNewId(tasks, newIds, i) {
        var c :| c in tasks && i == newIds(c);
        assert c in tasks + [b];
      }
      assert b in tasks + [b];
    }
    forall i | i in u.injections ensures u.injections[i].sourceKey != BgSource(b) {
      if i !in t.injections {
        var c :| c in tasks && i == newIds(c);
      }
    }
  }

  /** Among tasks without a source, each gets exactly the row that names it and nothing else changes. */
  lemma {:induction false} DeliverAllIsComplete(
    t: Tables, tasks: seq<string>, newIds: string -> string, render: string -> string)
    requires Sound(t) && Fresh(t, newIds) && NoDuplicates(tasks)
    requires forall b | b in tasks :: b in t.bgTasks && !HasSource(t, BgSource(b))
    ensures Sound(DeliverAll(t, tasks, newIds, render))
    ensures SourcesAdded(t, DeliverAll(t, tasks, newIds, render), tasks, newIds, render)
  {
    assert forall b | b in tasks :: t.bgTasks[b].sessionId in t.sessions;
    if tasks == [] {
      assert t == t.(injections := t.injections);
      assert forall i :: !IsNewId([], newIds, i);
    } else {
      hide Sound, SourcesAdded, Fresh, HasSource;
      var init, b := tasks[..|tasks| - 1], tasks[|tasks| - 1];
      var before := DeliverAll(t, init, newIds, render);
      DeliverAllIsComplete(t, init, newIds, render);
      assert tasks == init + [b] && b !in init;
      OneMoreSource(t, before, init, b, newIds, render);
      SourcesKeepTables(t, before, init, newIds, render);
      NewSource(before, newIds(b), BgSource(b), t.bgTasks[b].sessionId, render(b));
    }
  }

  lemma SourcesKeepTables(t: Tables, u: Tables, tasks: seq<string>, newIds: string -> string, render: string -> string)
    requires SourcesAdded(t, u, tasks, newIds, render)
    ensures u.sessions == t.sessions && u.bgTasks == t.bgTasks
  {
  }

  /**
    The state startup leaves: nothing in flight, a source for each owed delivery that was committed, nothing else
    touched.
   */
  ghost predicate BgRecovered(
    before: Tables, after: Tables, faults: string -> CallbackFault, render: string -> string) {
    && Sound(after)
    && after == InterruptBgTasks(before).(injections := after.injections)
    && (forall b | b in after.bgTasks :: !after.bgTasks[b].status.InFlight())
    && (forall b | b in after.bgTasks && after.bgTasks[b].deliveryRequired ::
          HasSource(after, BgSource(b)) <==> HasSource(before, BgSource(b)) || Inserts(faults(b)))
    && (forall i | i in before.injections :: i in after.injections && after.injections[i] == before.injections[i])
    && (forall i | i in after.injections && i !in before.injections :: NewDelivery(after, after.injections[i], render))
  }

  predicate NewDelivery(t: Tables, row: Injection, render: string -> string) {
    exists b | b in t.bgTasks ::
      t.bgTasks[b].deliveryRequired && row == Injection(BgSource(b), t.bgTasks[b].sessionId, render(b), Pending)
  }

  predicate Owed(t: Tables, b: string) {
    b in t.bgTasks && t.bgTasks[b].deliveryRequired && !HasSource(t, BgSource(b))
  }

  lemma OwedGetSources(t: Tables, u: Tables, missing: seq<string>, faults: string -> CallbackFault, b: string,
                       newIds: string -> string, render: string -> string)
    requires SourcesAdded(t, u, Inserted(missing, faults), newIds, render)
    requires b in t.bgTasks && t.bgTasks[b].deliveryRequired && (b in missing <==> Owed(t, b))
    ensures HasSource(u, BgSource(b)) <==> HasSource(t, BgSource(b)) || Inserts(faults(b))
  {
    SourceOf(t, u, Inserted(missing, faults), b, newIds, render);
    hide HasSource, SourcesAdded;
  }

  lemma NewRowsAreDeliveries(
    t: Tables, u: Tables, tasks: seq<string>, i: string, newIds: string -> string, render: string -> string)
    requires SourcesAdded(t, u, tasks, newIds, render) && i in u.injections && i !in t.injections
    requires forall b | b in tasks :: Owed(t, b)
    ensures NewDelivery(u, u.injections[i], render)
  {
    var b :| b in tasks && i == newIds(b);
    assert Owed(t, b);
  }

  lemma BgRecoveryIsComplete(
    t: Tables, missing: seq<string>, faults: string -> CallbackFault, newIds: string -> string,
    render: string -> string)
    requires Sound(t) && Fresh(t, newIds) && NoDuplicates(missing)
    requires forall b :: b in missing <==> Owed(InterruptBgTasks(t), b)
    ensures BgRecovered(t, DeliverAll(InterruptBgTasks(t), Inserted(missing, faults), newIds, render), faults, render)
  {
    var start := InterruptBgTasks(t);
    var tried := Inserted(missing, faults);
    OtherRowsKeep(t, InterruptBg);
    assert Sound(start);
    DeliverAllIsComplete(start, tried, newIds, render);
    var u := DeliverAll(start, tried, newIds, render);
    hide Sound, DeliverAll, Inserted, NewDelivery, Owed;
    forall b | b in start.bgTasks && start.bgTasks[b].deliveryRequired
      ensures HasSource(u, BgSource(b)) <==> HasSource(start, BgSource(b)) || Inserts(faults(b))
    {
      OwedGetSources(start, u, missing, faults, b, newIds, render);
    }
    forall i | i in u.injections && i !in start.injections
      ensures NewDelivery(u, u.injections[i], render)
    {
      NewRowsAreDeliveries(start, u, tried, i, newIds, render);
    }
    RecoveredFrom(t, u, faults, render);
  }

  lemma RecoveredFrom(t: Tables, u: Tables, faults: string -> CallbackFault, render: string -> string)
    requires Sound(u) && u == InterruptBgTasks(t).(injections := u.injections)
    requires forall b | b in InterruptBgTasks(t).bgTasks && InterruptBgTasks(t).bgTasks[b].deliveryRequired ::
               HasSource(u, BgSource(b)) <==> HasSource(InterruptBgTasks(t), BgSource(b)) || Inserts(faults(b))
    requires forall i | i in t.injections :: i in u.injections && u.injections[i] == t.injections[i]
    requires forall i | i in u.injections && i !in t.injections :: NewDelivery(u, u.injections[i], render)
    ensures BgRecovered(t, u, faults, render)
  {
    hide Sound, NewDelivery;
    forall b | b in u.bgTasks
      ensures HasSource(InterruptBgTasks(t), BgSource(b)) <==> HasSource(t, BgSource(b))
    {
    }
  }

  lemma SourceOf(
    t: Tables, u: Tables, tasks: seq<string>, b: string, newIds: string -> string, render: string -> string)
    requires SourcesAdded(t, u, tasks, newIds, render) && b in t.bgTasks
    ensures HasSource(u, BgSource(b)) <==> HasSource(t, BgSource(b)) || b in tasks
  {
    forall i | i in u.injections && i !in t.injections && u.injections[i].sourceKey == BgSource(b) ensures b in tasks {
      var c :| c in tasks && i == newIds(c);
      assert BgSource(c)[3..] == c && BgSource(b)[3..] == b;
    }
    if HasSource(t, BgSource(b)) {
      var i :| i in t.injections && t.injections[i].sourceKey == BgSource(b);
      assert u.injections[i].sourceKey == BgSource(b);
    }
    if b in tasks {
      assert u.injections[newIds(b)].sourceKey == BgSource(b);
    }
  }
}
