/** Usage-limit parks and their wake-ups (server/parked_turns.py); times are microseconds. */
module Parked {
  import opened Base

  type Session = string

  const SECOND := 1_000_000
  const RESET_GRACE := 30 * SECOND
  const STAGGER := 60 * SECOND
  const PROBE_INTERVAL := 1800 * SECOND

  /** A stored park: its wake_at as parsed back, and whether no reset was reported. */
  datatype Row = Row(wakeAt: Option<int>, probe: bool)

  type Rows = map<Session, Row>

  // ------------------------------------------------------------ the stagger

  predicate Near(a: int, b: int) {
    -STAGGER < a - b < STAGGER
  }

  predicate Clear(wake: int, taken: set<int>) {
    forall t | t in taken :: !Near(wake, t)
  }

  /** The first free slot: `k` steps past the target. */
  predicate IsLeast(target: int, taken: set<int>, k: nat) {
    && Clear(target + k * STAGGER, taken)
    && forall j: nat | j < k :: !Clear(target + j * STAGGER, taken)
  }

  /** Every wake-up already claimed; what does not parse claims nothing. */
  function Taken(rows: Rows): set<int> {
    set s | s in rows && rows[s].wakeAt.Some? :: rows[s].wakeAt.value
  }

  lemma NeighboursAreTwo(ks: set<nat>)
    requires forall x, y | x in ks && y in ks :: x <= y + 1
    ensures |ks| <= 2
  {
    if x :| x in ks {
      var pair := if x + 1 in ks then {x, x + 1} else if x > 0 then {x - 1, x} else {x};
      assert ks <= pair && |pair| <= 2;
      SubsetSize(ks, pair);
    } else {
      assert ks == {};
    }
  }

  /** One claimed wake-up rules out at most two slots. */
  lemma OneBlocksTwo(target: int, t: int, ks: set<nat>)
    requires forall k | k in ks :: Near(target + k * STAGGER, t)
    ensures |ks| <= 2
  {
    forall x, y | x in ks && y in ks
      ensures x <= y + 1
    {
      assert Near(target + x * STAGGER, t) && Near(target + y * STAGGER, t);
    }
    NeighboursAreTwo(ks);
  }

  /** So n claimed wake-ups rule out at most 2n of them. */
  lemma {:induction false} BlockedSlots(target: int, taken: set<int>, ks: set<nat>)
    requires forall k | k in ks :: !Clear(target + k * STAGGER, taken)
    ensures |ks| <= 2 * |taken|
    decreases |taken|
  {
    if t :| t in taken {
      var mine := set k | k in ks && Near(target + k * STAGGER, t);
      OneBlocksTwo(target, t, mine);
      BlockedSlots(target, taken - {t}, ks - mine);
      assert ks == mine + (ks - mine);
    } else {
      assert forall k | k in ks :: Clear(target + k * STAGGER, taken);
      assert ks == {};
    }
  }

  lemma FirstSlotsAreFew(target: int, taken: set<int>, k: nat)
    requires forall j: nat | j < k :: !Clear(target + j * STAGGER, taken)
    ensures k <= 2 * |taken|
  {
    BlockedSlots(target, taken, Below(k));
  }

  ghost function Below(k: nat): (ks: set<nat>)
    ensures |ks| == k && forall j: nat :: j in ks <==> j < k
  {
    if k == 0 then {} else Below(k - 1) + {k - 1}
  }

  /** _staggered: the least free slot, reached within twice as many steps as there are parked rows. */
  method Staggered(rows: Rows, target: int) returns (wake: int, k: nat)
    ensures wake == target + k * STAGGER && IsLeast(target, Taken(rows), k)
    ensures k <= 2 * |Taken(rows)| <= 2 * |rows|
  {
    var taken := Taken(rows);
    TakenIsSmall(rows);
    wake, k := target, 0;
    while exists t | t in taken :: Near(wake, t)
      invariant wake == target + k * STAGGER && k <= 2 * |taken|
      invariant forall j: nat | j < k :: !Clear(target + j * STAGGER, taken)
      decreases 2 * |taken| - k
    {
      FirstSlotsAreFew(target, taken, k + 1);
      wake, k := wake + STAGGER, k + 1;
    }
  }

  lemma {:induction false} TakenIsSmall(rows: Rows)
    ensures |Taken(rows)| <= |rows|
    decreases |rows|
  {
    if rows == map[] {
      assert Taken(rows) == {};
    } else {
      var s :| s in rows;
      var rest := rows - {s};
      TakenIsSmall(rest);
      assert |rest| == |rows| - 1 by {
        assert rest.Keys == rows.Keys - {s};
      }
      assert forall u | u in rows :: u == s || (u in rest && rest[u] == rows[u]);
      var own := if rows[s].wakeAt.Some? then {rows[s].wakeAt.value} else {};
      assert Taken(rows) <= Taken(rest) + own;
      SubsetSize(Taken(rows), Taken(rest) + own);
    }
  }

  // ------------------------------------------------------------ the runner

  /** Where a park wakes: clear of the claimed moments after a reset, or at the next probe. */
  ghost predicate Chosen(rows: Rows, reset: Option<int>, now: int, wake: int) {
    match reset
    case None => wake == now + PROBE_INTERVAL
    case Some(at) => exists k: nat | IsLeast(at + RESET_GRACE, Taken(rows), k) :: wake == at + RESET_GRACE + k * STAGGER
  }

  /** A wake-up already due runs a second from now, and so does one that does not parse. */
  function RunDate(row: Row, now: int): int {
    if row.wakeAt.Some? && row.wakeAt.value >= now + SECOND then row.wakeAt.value else now + SECOND
  }

  /** No job is early: it fires at its row's wake-up or, when that is due or does not parse, in a second. */
  predicate OnTime(row: Row, date: int, now: int) {
    match row.wakeAt
    case None => date == now + SECOND
    case Some(wake) => date >= wake && date == if wake >= now + SECOND then wake else now + SECOND
  }

  class ParkedTurnRunner {
    var rows: Rows
    var jobs: map<Session, int>

    /** park, with nothing in between. */
    method Park(session: Session, reset: Option<int>, now: int) returns (wake: int)
      modifies this
      ensures Chosen(old(rows), reset, now, wake)
      ensures rows == old(rows)[session := Row(Some(wake), reset.None?)]
      ensures jobs == old(jobs)[session := RunDate(rows[session], now)]
      // In plain fields: the slot, and the one job that changes.
      ensures reset.None? ==> wake == now + PROBE_INTERVAL
      ensures reset.Some? ==>
                && (forall s | s in old(rows) && old(rows)[s].wakeAt.Some? ::
                      wake >= old(rows)[s].wakeAt.value + STAGGER || wake <= old(rows)[s].wakeAt.value - STAGGER)
                && exists k: nat :: wake == reset.value + RESET_GRACE + k * STAGGER
      ensures jobs.Keys == old(jobs).Keys + {session}
      ensures forall s | s in old(jobs) && s != session :: jobs[s] == old(jobs)[s]
      ensures jobs[session] == if wake >= now + SECOND then wake else now + SECOND
    {
      if reset.Some? {
        var k;
        wake, k := Staggered(rows, reset.value + RESET_GRACE);
        assert forall s | s in rows && rows[s].wakeAt.Some? :: rows[s].wakeAt.value in Taken(rows);
      } else {
        wake := now + PROBE_INTERVAL;
      }
      rows := rows[session := Row(Some(wake), reset.None?)];
      AddJob(session, rows[session], now);
    }

    method AddJob(session: Session, row: Row, now: int)
      modifies this`jobs
      ensures jobs == old(jobs)[session := RunDate(row, now)]
      ensures session in jobs && OnTime(row, jobs[session], now)
    {
      var wake := if row.wakeAt.Some? then row.wakeAt.value else now;
      var date := if wake >= now + SECOND then wake else now + SECOND;
      jobs := jobs[session := date];
    }

    method Cancel(session: Session) returns (existed: bool)
      modifies this
      ensures rows == old(rows) - {session} && jobs == old(jobs) - {session}
      ensures existed <==> session in old(rows)
    {
      jobs := jobs - {session};
      existed := session in rows;
      rows := rows - {session};
    }

    /** A job that fired: the row is consumed before its turn runs, and a missing row wakes nothing. */
    method Wake(session: Session) returns (resumed: Option<Row>)
      modifies this
      ensures resumed == if session in old(rows) then Some(old(rows)[session]) else None
      ensures rows == old(rows) - {session} && jobs == old(jobs) - {session}
    {
      jobs := jobs - {session};
      if session !in rows {
        return None;
      }
      resumed := Some(rows[session]);
      rows := rows - {session};
    }

    /** After a restart every stored park has its job again, none of them in the past. */
    method Initialize(now: int)
      requires jobs == map[]
      modifies this`jobs
      ensures jobs == map s | s in rows :: RunDate(rows[s], now)
      // In plain fields: a job for every row and for nothing else, at its wake-up or, when that is due, in a second.
      ensures jobs.Keys == rows.Keys
      ensures forall s | s in jobs && rows[s].wakeAt.Some? ::
                && jobs[s] >= rows[s].wakeAt.value
                && jobs[s] == if rows[s].wakeAt.value >= now + SECOND then rows[s].wakeAt.value else now + SECOND
      ensures forall s | s in jobs && rows[s].wakeAt.None? :: jobs[s] == now + SECOND
    {
      var sessions := Enumerate(rows.Keys);
      for i := 0 to |sessions|
        invariant forall s :: s in jobs <==> s in sessions[..i]
        invariant forall s | s in jobs :: s in rows && jobs[s] == RunDate(rows[s], now)
      {
        AddJob(sessions[i], rows[sessions[i]], now);
        assert sessions[..i + 1] == sessions[..i] + [sessions[i]];
      }
      assert sessions[..|sessions|] == sessions;
    }
  }

  // ------------------------------------------------------------ every run of concurrent parks

  /**
    `holder` has the park lock and has chosen its slot but not yet written its row. `waking` are jobs that have read
    their row and not yet deleted it. As history, `written` numbers each row by the writes before it, and the last five
    say what became of the others.
   */
  datatype State = State(
    rows: Rows, holder: Option<Claim>, waking: map<nat, Seen>, written: map<Session, nat>, writes: nat,
    replaced: set<nat>, cancelled: set<nat>, dropped: set<nat>, taken: set<nat>, lost: set<nat>)

  datatype Claim = Claim(session: Session, wake: int, probe: bool)

  /** The row a job has read, and whether its session was parked again since. */
  datatype Seen = Seen(session: Session, number: nat, overtaken: bool)

  const START := State(map[], None, map[], map[], 0, {}, {}, {}, {}, {})

  datatype Event =
    | Choose(session: Session, reset: Option<int>, now: int, wake: int)
    | Store
    | Cancel(session: Session)
    | Delete(session: Session)           // the session goes, and its row with it
    | Fire(job: nat, session: Session)   // _wake reads the row
    | Consume(job: nat)                  // and deletes whatever row its session has by then
    | Restart                            // or the parking task is cancelled: the lock is free again

  ghost predicate Enabled(s: State, e: Event) {
    match e
    case Choose(_, reset, now, wake) => s.holder.None? && Chosen(s.rows, reset, now, wake)
    case Store => s.holder.Some?
    case Cancel(_) => true
    case Delete(_) => true
    case Fire(job, session) => job !in s.waking && session in s.rows && session in s.written
    case Consume(job) => job in s.waking
    case Restart => true
  }

  function Number(s: State, session: Session): set<nat> {
    if session in s.rows && session in s.written then {s.written[session]} else {}
  }

  function Without(s: State, session: Session): State {
    s.(rows := s.rows - {session}, written := s.written - {session})
  }

  function Apply(s: State, e: Event): State
    requires e.Store? ==> s.holder.Some?
    requires e.Fire? ==> e.session in s.written
    requires e.Consume? ==> e.job in s.waking
  {
    match e
    case Choose(session, reset, _, wake) => s.(holder := Some(Claim(session, wake, reset.None?)))
    case Store =>
      var c := s.holder.value;
      s.(rows := s.rows[c.session := Row(Some(c.wake), c.probe)], holder := None,
         waking := map j | j in s.waking ::
           if s.waking[j].session == c.session then s.waking[j].(overtaken := true) else s.waking[j],
         written := s.written[c.session := s.writes], writes := s.writes + 1,
         replaced := s.replaced + Number(s, c.session))
    case Cancel(session) => Without(s, session).(cancelled := s.cancelled + Number(s, session))
    case Delete(session) => Without(s, session).(dropped := s.dropped + Number(s, session))
    case Fire(job, session) => s.(waking := s.waking[job := Seen(session, s.written[session], false)])
    case Consume(job) =>
      var seen := s.waking[job];
      Without(s, seen.session).(
        waking := s.waking - {job},
        taken := if seen.overtaken then s.taken else s.taken + Number(s, seen.session),
        lost := if seen.overtaken then s.lost + Number(s, seen.session) else s.lost)
    case Restart => s.(holder := None)
  }

  ghost predicate Runs(s: State, events: seq<Event>)
    decreases |events|
  {
    events == [] || (Enabled(s, events[0]) && Runs(Apply(s, events[0]), events[1..]))
  }

  ghost function After(s: State, events: seq<Event>): State
    requires Runs(s, events)
    decreases |events|
  {
    if events == [] then s else After(Apply(s, events[0]), events[1..])
  }

  predicate Close(a: Row, b: Row) {
    a.wakeAt.Some? && b.wakeAt.Some? && Near(a.wakeAt.value, b.wakeAt.value)
  }

  /** Two rows closer than the stagger: the later one written is a probe. */
  ghost predicate Inv(s: State) {
    && s.written.Keys == s.rows.Keys
    && (forall a | a in s.rows :: s.written[a] < s.writes)
    && (forall a, b | a in s.rows && b in s.rows && a != b && s.written[a] <= s.written[b] ::
          Close(s.rows[a], s.rows[b]) ==> s.rows[b].probe)
    && (s.holder.Some? && !s.holder.value.probe ==> Clear(s.holder.value.wake, Taken(s.rows)))
  }

  lemma ChosenIsClear(rows: Rows, reset: Option<int>, now: int, wake: int)
    requires Chosen(rows, reset, now, wake) && reset.Some?
    ensures Clear(wake, Taken(rows))
  {
  }

  lemma ClearOfRows(rows: Rows, wake: int, a: Session)
    requires a in rows && Clear(wake, Taken(rows))
    ensures !Close(rows[a], Row(Some(wake), false))
  {
    if rows[a].wakeAt.Some? {
      assert rows[a].wakeAt.value in Taken(rows);
    }
  }

  lemma StepKeepsInv(s: State, e: Event)
    requires Inv(s) && Enabled(s, e)
    ensures Inv(Apply(s, e))
  {
    var t := Apply(s, e);
    match e
    case Choose(_, reset, now, wake) =>
      if reset.Some? {
        ChosenIsClear(s.rows, reset, now, wake);
      }
    case Store =>
      var c := s.holder.value;
      forall a | a in s.rows && !c.probe
        ensures !Close(s.rows[a], Row(Some(c.wake), false))
      {
        ClearOfRows(s.rows, c.wake, a);
      }
    case Cancel(session) =>
      assert Taken(t.rows) <= Taken(s.rows);
    case Delete(session) =>
      assert Taken(t.rows) <= Taken(s.rows);
    case Fire(_, _) =>
    case Consume(job) =>
      assert Taken(t.rows) <= Taken(s.rows);
    case Restart =>
  }

  lemma {:induction false} RunKeepsInv(s: State, events: seq<Event>)
    requires Inv(s) && Runs(s, events)
    ensures Inv(After(s, events))
    decreases |events|
  {
    if events != [] {
      StepKeepsInv(s, events[0]);
      RunKeepsInv(Apply(s, events[0]), events[1..]);
    }
  }

  /**
    Over every run of parks, re-parks, cancels, deletes, wakes and restarts, reset-scheduled wake-ups stay a stagger
    apart.
   */
  lemma ResetsNeverStampede(events: seq<Event>, a: Session, b: Session)
    requires Runs(START, events)
    ensures var rows := After(START, events).rows;
            a in rows && b in rows && a != b && !rows[a].probe && !rows[b].probe ==> !Close(rows[a], rows[b])
  {
    assert Taken(map[]) == {};
    RunKeepsInv(START, events);
  }

  // ------------------------------------------------------------ the jobs of every run

  /**
    The scheduler beside the rows. A park has written its row before it makes the job: `making` is the claim whose job
    is still to come, under the same lock. As history, `late` are the jobs whose row was due within a second when they
    were made, and `stale` the sessions that wrote a row since.
   */
  datatype Timed = Timed(
    state: State, making: Option<Claim>, jobs: map<Session, int>, late: set<Session>, stale: set<Session>)

  datatype TimedEvent =
    | At(event: Event)
    | Make(now: int)          // _add_job of the park that has written its row
    | Boot(now: int)          // the process starts again: initialize
    | Idle(session: Session)  // a job fires and finds no row

  ghost predicate TimedEnabled(t: Timed, e: TimedEvent) {
    match e
    case At(event) =>
      && Enabled(t.state, event)
      && (event.Choose? ==> t.making.None?)
      && (event.Fire? ==> event.session in t.jobs)
    case Make(_) => t.making.Some?
    case Boot(_) => true
    case Idle(session) => session in t.jobs && session !in t.state.rows
  }

  function JobGone(t: Timed, session: Session): Timed {
    t.(jobs := t.jobs - {session}, late := t.late - {session})
  }

  ghost function TimedApply(t: Timed, e: TimedEvent): Timed
    requires TimedEnabled(t, e)
  {
    match e
    case At(event) =>
      var after := t.(state := Apply(t.state, event));
      (match event
       case Store => after.(making := t.state.holder, stale := t.stale + {t.state.holder.value.session})
       case Cancel(session) => JobGone(after, session)
       case Fire(_, session) => JobGone(after, session)
       case Restart => after.(making := None)
       case _ => after)
    case Make(now) =>
      var c := t.making.value;
      t.(making := None, jobs := t.jobs[c.session := RunDate(Row(Some(c.wake), c.probe), now)],
         late := if c.wake < now + SECOND then t.late + {c.session} else t.late - {c.session},
         stale := t.stale - {c.session})
    case Boot(now) =>
      var rows := t.state.rows;
      Timed(Apply(t.state, Restart), None, map s | s in rows :: RunDate(rows[s], now),
            set s | s in rows && (rows[s].wakeAt.Some? ==> rows[s].wakeAt.value < now + SECOND), {})
    case Idle(session) => JobGone(t, session)
  }

  /** With nothing in between, a park, a wake-up, a cancel and a boot do what the runner's methods do. */
  lemma RunnerAlone(t: Timed, session: Session, reset: Option<int>, now: int, wake: int, job: nat)
    requires t.making.None? && t.state.holder.None? && job !in t.state.waking
    ensures Chosen(t.state.rows, reset, now, wake) ==>
              var stored := TimedApply(TimedApply(t, At(Choose(session, reset, now, wake))), At(Store));
              var parked := TimedApply(stored, Make(now));
              && parked.state.rows == t.state.rows[session := Row(Some(wake), reset.None?)]
              && parked.jobs == t.jobs[session := if wake >= now + SECOND then wake else now + SECOND]
    ensures session in t.state.rows && session in t.state.written && session in t.jobs ==>
              var woken := TimedApply(TimedApply(t, At(Fire(job, session))), At(Consume(job)));
              woken.state.rows == t.state.rows - {session} && woken.jobs == t.jobs - {session}
    ensures var cancelled := TimedApply(t, At(Cancel(session)));
            cancelled.state.rows == t.state.rows - {session} && cancelled.jobs == t.jobs - {session}
    ensures var booted := TimedApply(t, Boot(now));
            && booted.state.rows == t.state.rows && booted.jobs.Keys == t.state.rows.Keys
            && forall a | a in booted.jobs :: OnTime(t.state.rows[a], booted.jobs[a], now)
  {
  }

  ghost predicate TimedRuns(t: Timed, events: seq<TimedEvent>)
    decreases |events|
  {
    events == [] || (TimedEnabled(t, events[0]) && TimedRuns(TimedApply(t, events[0]), events[1..]))
  }

  ghost function TimedAfter(t: Timed, events: seq<TimedEvent>): Timed
    requires TimedRuns(t, events)
    decreases |events|
  {
    if events == [] then t else TimedAfter(TimedApply(t, events[0]), events[1..])
  }

  const TIMED_START := Timed(START, None, map[], {}, {})

  /** The session has a row, and a job that was made for this row. */
  predicate Scheduled(t: Timed, a: Session) {
    a in t.state.rows && a in t.jobs && a !in t.stale
  }

  /** A job is never early, and late only where its row was due when it was made. */
  ghost predicate JobsFit(t: Timed) {
    && (forall a | Scheduled(t, a) && t.state.rows[a].wakeAt.Some? :: t.jobs[a] >= t.state.rows[a].wakeAt.value)
    && (forall a | Scheduled(t, a) && a !in t.late :: t.state.rows[a].wakeAt == Some(t.jobs[a]))
    && (t.making.Some? ==>
          && t.state.holder.None? && t.making.value.session in t.stale
          && (t.making.value.session in t.state.rows ==>
                t.state.rows[t.making.value.session].wakeAt == Some(t.making.value.wake)))
  }

  lemma StepKeepsJobsFit(t: Timed, e: TimedEvent)
    requires JobsFit(t) && TimedEnabled(t, e)
    ensures JobsFit(TimedApply(t, e))
  {
    var u := TimedApply(t, e);
    forall a | Scheduled(u, a)
      ensures u.state.rows[a].wakeAt.Some? ==> u.jobs[a] >= u.state.rows[a].wakeAt.value
      ensures a !in u.late ==> u.state.rows[a].wakeAt == Some(u.jobs[a])
    {
      if e.At? {
        assert Scheduled(t, a) && u.jobs[a] == t.jobs[a] && u.state.rows[a] == t.state.rows[a];
      } else if e.Idle? || (e.Make? && a != t.making.value.session) {
        assert Scheduled(t, a);
      }
    }
  }

  lemma TimedKeepsInv(t: Timed, e: TimedEvent)
    requires Inv(t.state) && TimedEnabled(t, e)
    ensures Inv(TimedApply(t, e).state)
  {
    if e.At? {
      StepKeepsInv(t.state, e.event);
    } else if e.Boot? {
      StepKeepsInv(t.state, Restart);
    }
  }

  lemma {:induction false} TimedRunKeeps(t: Timed, events: seq<TimedEvent>)
    requires Inv(t.state) && JobsFit(t) && TimedRuns(t, events)
    ensures Inv(TimedAfter(t, events).state) && JobsFit(TimedAfter(t, events))
    decreases |events|
  {
    if events != [] {
      hide Inv, JobsFit, TimedEnabled, TimedApply;
      TimedKeepsInv(t, events[0]);
      StepKeepsJobsFit(t, events[0]);
      TimedRunKeeps(TimedApply(t, events[0]), events[1..]);
    }
  }

  /**
    Over every run no job fires before the wake-up of its row, and jobs of reset-scheduled rows that were still to come
    when their jobs were made fire a stagger apart.
   */
  lemma JobsNeverStampede(events: seq<TimedEvent>, a: Session, b: Session)
    requires TimedRuns(TIMED_START, events)
    ensures var t := TimedAfter(TIMED_START, events);
            && (Scheduled(t, a) && t.state.rows[a].wakeAt.Some? ==> t.jobs[a] >= t.state.rows[a].wakeAt.value)
            && (Scheduled(t, a) && a !in t.late ==> t.state.rows[a].wakeAt == Some(t.jobs[a]))
            && (Scheduled(t, a) && Scheduled(t, b) && a != b && a !in t.late && b !in t.late
                && !t.state.rows[a].probe && !t.state.rows[b].probe ==>
                  t.jobs[a] >= t.jobs[b] + STAGGER || t.jobs[b] >= t.jobs[a] + STAGGER)
  {
    assert Taken(map[]) == {};
    TimedRunKeeps(TIMED_START, events);
    var t := TimedAfter(TIMED_START, events);
    if Scheduled(t, a) && Scheduled(t, b) && a != b && !t.state.rows[a].probe && !t.state.rows[b].probe {
      assert !Close(t.state.rows[a], t.state.rows[b]);
    }
  }

  /**
    A park cut off between its row and its job leaves the old job, which fires early exactly when it was the earlier.
   */
  lemma CutParkKeepsOldJob(t: Timed, a: Session, reset: Option<int>, now: int, wake: int)
    requires t.making.None? && t.state.holder.None? && a in t.jobs && Chosen(t.state.rows, reset, now, wake)
    ensures var events := [At(Choose(a, reset, now, wake)), At(Store), At(Restart)];
            && TimedRuns(t, events)
            && var u := TimedAfter(t, events);
               && a in u.state.rows && u.state.rows[a].wakeAt == Some(wake) && a in u.jobs && a in u.stale
               && (u.jobs[a] < wake <==> t.jobs[a] < wake)
  {
    var events := [At(Choose(a, reset, now, wake)), At(Store), At(Restart)];
    var t1 := TimedApply(t, events[0]);
    var t2 := TimedApply(t1, At(Store));
    var t3 := TimedApply(t2, At(Restart));
    assert events[2..] == [At(Restart)] && events[2..][1..] == [] && events[1..][1..] == events[2..];
    assert TimedRuns(t3, []) && TimedAfter(t3, []) == t3;
    assert TimedRuns(t2, events[2..]) && TimedAfter(t2, events[2..]) == t3;
    assert TimedRuns(t1, events[1..]) && TimedAfter(t1, events[1..]) == t3;
  }

  /** A boot past the resets undoes the stagger: of two spaced rows exactly those fire together that it finds due. */
  lemma BootStampedesExactly(rows: Rows, jobs: map<Session, int>, now: int, a: Session, b: Session)
    requires a in rows && b in rows && a in jobs && b in jobs
    requires OnTime(rows[a], jobs[a], now) && OnTime(rows[b], jobs[b], now)
    requires rows[a].wakeAt.Some? && rows[b].wakeAt.Some? && rows[a].wakeAt.value + STAGGER <= rows[b].wakeAt.value
    ensures jobs[b] < jobs[a] + STAGGER <==>
            rows[a].wakeAt.value < now + SECOND && rows[b].wakeAt.value < now + SECOND + STAGGER
    ensures jobs[a] == jobs[b] <==> rows[b].wakeAt.value <= now + SECOND
  {
  }

  // ------------------------------------------------------------ what becomes of a stored park

  /** The parks whose row is gone. */
  function Settled(s: State): set<nat> {
    s.replaced + s.cancelled + s.dropped + s.taken + s.lost
  }

  /** A job that has read a row since overtaken knows it, and every number is accounted for. */
  ghost predicate Accounted(s: State) {
    && s.written.Keys == s.rows.Keys
    && (forall a | a in s.rows :: s.written[a] < s.writes)
    && (forall j | j in s.waking :: s.waking[j].number < s.writes)
    && (forall j | j in s.waking && s.waking[j].session in s.rows ::
          s.waking[j].overtaken <==> s.written[s.waking[j].session] != s.waking[j].number)
    && (forall n: nat | n < s.writes ::
          n in Settled(s) || exists a | a in s.rows :: s.written[a] == n)
  }

  /** The session whose row this step replaces or deletes. */
  function Dropped(s: State, e: Event): set<Session>
    requires e.Store? ==> s.holder.Some?
    requires e.Consume? ==> e.job in s.waking
  {
    match e
    case Store => {s.holder.value.session}
    case Cancel(session) => {session}
    case Delete(session) => {session}
    case Consume(job) => {s.waking[job].session}
    case _ => {}
  }

  lemma NumbersOnlyGrow(s: State, e: Event, n: nat)
    requires Enabled(s, e)
    ensures var t := Apply(s, e);
            n in Settled(s) ==> n in Settled(t)
  {
  }

  lemma DroppedIsAccounted(s: State, e: Event, a: Session)
    requires Accounted(s) && Enabled(s, e) && a in s.rows && a in Dropped(s, e)
    ensures var t := Apply(s, e); s.written[a] in Settled(t)
  {
    assert s.written[a] in Number(s, a);
  }

  lemma StepKeepsAccounted(s: State, e: Event)
    requires Accounted(s) && Enabled(s, e)
    ensures Accounted(Apply(s, e))
  {
    var t := Apply(s, e);
    forall n: nat | n < t.writes && n !in Settled(t)
      ensures exists a | a in t.rows :: t.written[a] == n
    {
      if e.Store? && n == s.writes {
        assert t.written[s.holder.value.session] == n;
      } else {
        NumbersOnlyGrow(s, e, n);
        var a :| a in s.rows && s.written[a] == n;
        if a in Dropped(s, e) {
          DroppedIsAccounted(s, e, a);
        }
        assert a in t.rows && t.written[a] == n;
      }
    }
  }

  /** This step deletes park `n` with its row unread: its session was parked again after the job had read. */
  predicate Loses(s: State, e: Event, n: nat) {
    && e.Consume? && e.job in s.waking && s.waking[e.job].overtaken
    && s.waking[e.job].session in s.rows && s.waking[e.job].session in s.written &&
      s.written[s.waking[e.job].session] == n
  }

  ghost predicate LostIn(s: State, events: seq<Event>, n: nat)
    requires Runs(s, events)
    decreases |events|
  {
    events != [] && (Loses(s, events[0], n) || LostIn(Apply(s, events[0]), events[1..], n))
  }

  lemma {:induction false} RunKeepsAccounted(s: State, events: seq<Event>, n: nat)
    requires Accounted(s) && Runs(s, events)
    ensures Accounted(After(s, events))
    ensures n in After(s, events).lost <==> n in s.lost || LostIn(s, events, n)
    decreases |events|
  {
    if events != [] {
      StepKeepsAccounted(s, events[0]);
      RunKeepsAccounted(Apply(s, events[0]), events[1..], n);
    }
  }

  /**
    Over every run a stored park still waits, was replaced by a later one of its session, was cancelled, went with its
    session, or was deleted by a job: by the one that had read it, or unread. It is lost unread if and only if its
    session was parked again between the two halves of a wake-up.
   */
  lemma FateOfEveryPark(events: seq<Event>, n: nat)
    requires Runs(START, events) && n < After(START, events).writes
    ensures var s := After(START, events);
            && (n in Settled(s) || exists a | a in s.rows && a in s.written :: s.written[a] == n)
            && (n in s.lost <==> LostIn(START, events, n))
  {
    RunKeepsAccounted(START, events, n);
  }

  /** The case is real: a re-park between the two halves of a wake-up is deleted by it. */
  lemma ReparkDuringWakeIsLost(s: State, job: nat, a: Session, now: int)
    requires Accounted(s) && a in s.rows && job !in s.waking && s.holder.None?
    ensures var fired := Apply(s, Fire(job, a));
            var parked := Apply(Apply(fired, Choose(a, None, now, now + PROBE_INTERVAL)), Store);
            && a in parked.rows && Loses(parked, Consume(job), s.writes)
            && a !in Apply(parked, Consume(job)).rows && s.writes in Apply(parked, Consume(job)).lost
  {
  }

  // ------------------------------------------------------------ exactly when a park keeps everything spaced

  ghost predicate AllSpaced(rows: Rows) {
    forall a, b | a in rows && b in rows && a != b :: !Close(rows[a], rows[b])
  }

  /**
    A park after a reported reset always keeps all wake-ups apart; a probe does if and only if its half hour is free.
   */
  lemma ParkKeepsSpacing(rows: Rows, session: Session, reset: Option<int>, now: int, wake: int)
    requires AllSpaced(rows) && Chosen(rows, reset, now, wake)
    ensures AllSpaced(rows[session := Row(Some(wake), reset.None?)]) <==>
            reset.Some? || Clear(now + PROBE_INTERVAL, Taken(rows - {session}))
  {
    var after := rows[session := Row(Some(wake), reset.None?)];
    var others := rows - {session};
    if reset.Some? {
      ChosenIsClear(rows, reset, now, wake);
      assert Taken(others) <= Taken(rows);
    }
    if Clear(wake, Taken(others)) {
      forall a | a in others
        ensures !Close(rows[a], after[session])
      {
        ClearOfRows(others, wake, a);
      }
    } else {
      var t :| t in Taken(others) && Near(wake, t);
      var a :| a in others && others[a].wakeAt == Some(t);
      assert Close(after[session], after[a]);
    }
  }

  /** Probes are not staggered: two sessions parked at one instant without a reset wake together. */
  lemma ProbesStampede(now: int, a: Session, b: Session)
    requires a != b
    ensures var probe := now + PROBE_INTERVAL;
            var events := [Choose(a, None, now, probe), Store, Choose(b, None, now, probe), Store];
            && Runs(START, events)
            && var rows := After(START, events).rows;
               a in rows && b in rows && rows[a].wakeAt == rows[b].wakeAt == Some(now + PROBE_INTERVAL)
  {
    var probe := now + PROBE_INTERVAL;
    var events := [Choose(a, None, now, probe), Store, Choose(b, None, now, probe), Store];
    var s1 := Apply(START, events[0]);
    var s2 := Apply(s1, Store);
    var s3 := Apply(s2, events[2]);
    var s4 := Apply(s3, Store);
    assert Runs(s4, []) && After(s4, []) == s4;
    assert events[3..] == [Store] && [Store][1..] == [];
    assert Runs(s3, events[3..]) && After(s3, events[3..]) == s4;
    assert events[2..][1..] == events[3..];
    assert Runs(s2, events[2..]) && After(s2, events[2..]) == s4;
    assert events[1..][1..] == events[2..];
    assert Runs(s1, events[1..]) && After(s1, events[1..]) == s4;
    assert Runs(START, events) && After(START, events) == s4;
  }

  // ------------------------------------------------------------ first parked, first served

  /** The wake-ups of n parks on one reset. */
  function Queue(target: int, n: nat): set<int> {
    if n == 0 then {} else Queue(target, n - 1) + {target + (n - 1) * STAGGER}
  }

  lemma {:induction false} QueueHasSlot(target: int, n: nat, j: nat)
    requires j < n
    ensures !Clear(target + j * STAGGER, Queue(target, n))
  {
    var slot := target + j * STAGGER;
    if j < n - 1 {
      QueueHasSlot(target, n - 1, j);
      var t :| t in Queue(target, n - 1) && Near(slot, t);
      assert t in Queue(target, n);
    } else {
      assert slot in Queue(target, n) && Near(slot, slot);
    }
  }

  lemma {:induction false} QueueLeavesRest(target: int, n: nat, k: nat)
    requires n <= k
    ensures Clear(target + k * STAGGER, Queue(target, n))
  {
    if n > 0 {
      QueueLeavesRest(target, n - 1, k);
    }
  }

  /** Sessions parked on the same reset with nothing else claimed wake one stagger apart, in the order they parked. */
  lemma FirstParkedFirstServed(target: int, n: nat, k: nat)
    ensures IsLeast(target, Queue(target, n), k) <==> k == n
  {
    hide Clear, Queue;
    forall j: nat | j < n
      ensures !Clear(target + j * STAGGER, Queue(target, n))
    {
      QueueHasSlot(target, n, j);
    }
    QueueLeavesRest(target, n, n);
  }
}
