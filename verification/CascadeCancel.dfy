/**
  cancel_delegation and _cascade_cancel_descendants of server/delegations.py,
  which call each other: what one cancel does to the hot cache, to the newest
  durable round of every child session and to the outbox.
 */
module CascadeCancel {
  import opened Base
  import opened RoundStates

  /** The cached latest round of one delegation; `injected` is _terminal_injected. */
  datatype Record = Record(runId: string, parent: Option<string>, state: RoundState, injected: bool)

  /** The newest delegation_runs row of one child session. */
  datatype Round = Round(runId: string, parent: Option<string>, state: RoundState)

  function FromRow(row: Round): Record { Record(row.runId, row.parent, row.state, false) }

  /** `sessions` are the rows an outbox source may point at, `outbox` the terminal sources in insertion order. */
  datatype State = State(
    records: map<string, Record>, ledger: map<string, Round>, sessions: set<string>, outbox: seq<string>)

  /** The cache holds newest rounds, and a terminal source exists only for a terminal round. */
  ghost predicate Valid(s: State) {
    && (forall d | d in s.records && d in s.ledger :: s.records[d].runId == s.ledger[d].runId)
    && (forall d | d in s.records && s.records[d].state.Running? :: !s.records[d].injected)
    && (forall d | d in s.ledger && s.ledger[d].state.Running? :: s.ledger[d].runId !in s.outbox)
    && (forall d, e | d in s.ledger && e in s.ledger && d != e :: s.ledger[d].runId != s.ledger[e].runId)
  }

  function RunningRows(ledger: map<string, Round>): set<string> {
    set d | d in ledger && ledger[d].state.Running?
  }

  // ------------------------------------------------------------ who is below whom

  /** Running records other than `root`, each with the session that asked for it. */
  function RunMap(records: map<string, Record>, root: string): map<string, string> {
    map d | d in records && records[d].state.Running? && d != root && records[d].parent.Some? :: records[d].parent.value
  }

  ghost predicate UnderN(run: map<string, string>, top: string, d: string, n: nat)
    decreases n
  {
    d in run && (run[d] == top || (n > 0 && UnderN(run, top, run[d], n - 1)))
  }

  /** `d` reaches `top` by following parent pointers through running records. */
  ghost predicate Under(run: map<string, string>, top: string, d: string) {
    exists n: nat :: UnderN(run, top, d, n)
  }

  ghost function Below(run: map<string, string>, top: string): set<string> {
    set d | d in run && Under(run, top, d)
  }

  /** Every parent of a member is a member or the root. */
  ghost predicate UpClosed(run: map<string, string>, root: string, done: set<string>) {
    forall p | p in done :: p in run && (run[p] == root || run[p] in done)
  }

  lemma UnderStep(run: map<string, string>, top: string, d: string)
    requires d in run && (run[d] == top || Under(run, top, run[d]))
    ensures Under(run, top, d)
  {
    if run[d] == top {
      assert UnderN(run, top, d, 0);
    } else {
      var n: nat :| UnderN(run, top, run[d], n);
      assert UnderN(run, top, d, n + 1);
    }
  }

  lemma UnderCases(run: map<string, string>, top: string, d: string)
    ensures Under(run, top, d) <==> d in run && (run[d] == top || Under(run, top, run[d]))
  {
    if Under(run, top, d) {
      var n: nat :| UnderN(run, top, d, n);
      if run[d] != top {
        assert UnderN(run, top, run[d], n - 1);
      }
    } else if d in run && (run[d] == top || Under(run, top, run[d])) {
      UnderStep(run, top, d);
    }
  }

  lemma {:induction false} UnderTransitive(run: map<string, string>, top: string, mid: string, d: string, n: nat)
    requires UnderN(run, mid, d, n) && Under(run, top, mid)
    ensures Under(run, top, d)
    decreases n
  {
    if run[d] != mid {
      UnderTransitive(run, top, mid, run[d], n - 1);
    }
    UnderStep(run, top, d);
  }

  /** Climbing from a finished record never leaves the finished ones, so it passes no other record. */
  lemma {:induction false} FinishedIsNotUnder(
    run: map<string, string>, root: string, done: set<string>, c: string, top: string, d: string, n: nat)
    requires root !in run && UpClosed(run, root, done)
    requires c in run && (run[c] == root || run[c] in done)
    requires top !in done && top != root && (d in done || d == c)
    ensures !UnderN(run, top, d, n)
    decreases n
  {
    if n > 0 && run[d] in done {
      FinishedIsNotUnder(run, root, done, c, top, run[d], n - 1);
    }
  }

  /** Taking finished records out changes nothing below an unfinished one. */
  lemma {:induction false} UnderWithoutFinished(
    run: map<string, string>, root: string, done: set<string>, c: string, top: string, d: string, n: nat)
    requires root !in run && UpClosed(run, root, done)
    requires c in run && (run[c] == root || run[c] in done)
    requires top !in done && top != root
    ensures UnderN(run, top, d, n) <==> UnderN(run - (done + {c}), top, d, n)
    decreases n
  {
    if d in done || d == c {
      FinishedIsNotUnder(run, root, done, c, top, d, n);
    } else if n > 0 && d in run {
      UnderWithoutFinished(run, root, done, c, top, run[d], n - 1);
    }
  }

  lemma SameBelow(run: map<string, string>, root: string, done: set<string>, c: string, top: string)
    requires root !in run && UpClosed(run, root, done)
    requires c in run && (run[c] == root || run[c] in done)
    requires top !in done && top != root
    ensures forall d :: Under(run, top, d) <==> Under(run - (done + {c}), top, d)
    ensures Below(run, top) == Below(run - (done + {c}), top)
    ensures Below(run, top) !! done + {c}
  {
    forall d, n: nat ensures UnderN(run, top, d, n) <==> UnderN(run - (done + {c}), top, d, n) {
      UnderWithoutFinished(run, root, done, c, top, d, n);
    }
  }

  // ------------------------------------------------------------ what settling records means

  /** The compare-and-set on the durable row would succeed. */
  predicate Winnable(s: State, d: string) {
    d in s.records && d in s.ledger && s.ledger[d].state.Running?
  }

  predicate Deliverable(s: State, d: string) {
    d in s.records && s.records[d].parent.Some? && s.records[d].parent.value in s.sessions
  }

  /** A won cancel, or the durable truth when another transition won. */
  function Settled(s: State, d: string): Record
    requires d in s.records
  {
    if Winnable(s, d) then
      s.records[d].(
        state := Cancelled, injected := s.records[d].parent.None? || s.records[d].parent.value in s.sessions)
    else if d in s.ledger then FromRow(s.ledger[d])
    else s.records[d].(state := Cancelled)
  }

  function SettleRecords(s: State, done: set<string>): map<string, Record> {
    map d | d in s.records :: if d in done then Settled(s, d) else s.records[d]
  }

  function SettleLedger(s: State, done: set<string>): map<string, Round> {
    map d | d in s.ledger :: if d in done && Winnable(s, d) then s.ledger[d].(state := Cancelled) else s.ledger[d]
  }

  function Runs(s: State, order: seq<string>): seq<string>
    requires forall d | d in order :: d in s.records
  {
    seq(|order|, i requires 0 <= i < |order| => s.records[order[i]].runId)
  }

  /** One source for every settled record that was cancelled here and has a parent, no descendant after its ancestor. */
  ghost predicate Emitted(s: State, run: map<string, string>, done: set<string>, order: seq<string>) {
    && NoDuplicates(order)
    && (forall d :: d in order <==> d in done && Winnable(s, d) && Deliverable(s, d))
    && (forall i, j | 0 <= i < j < |order| :: !Under(run, order[i], order[j]))
  }

  /** Exactly the records of `done` are settled; `order` lists the new sources. */
  ghost predicate SettledExactly(s: State, t: State, run: map<string, string>, done: set<string>, order: seq<string>) {
    && Emitted(s, run, done, order)
    && t.records == SettleRecords(s, done)
    && t.ledger == SettleLedger(s, done)
    && t.sessions == s.sessions
    && t.outbox == s.outbox + Runs(s, order)
  }

  /** The whole effect of one cancel. */
  ghost predicate CancelEffect(s0: State, d: string, t: State, order: seq<string>) {
    if d !in s0.records && d !in s0.ledger then t == s0 && order == []
    else
      var s := Loaded(s0, d);
      if !s.records[d].state.Running? then t == s && order == []
      else
        var run := RunMap(s.records, d);
        SettledExactly(s, t, run, if Winnable(s, d) then {d} + Below(run, d) else {d}, order)
  }

  /** _load_latest_record: a miss in the cache is filled from the newest row. */
  function Loaded(s: State, d: string): (t: State)
    requires d in s.records || d in s.ledger
    ensures d in t.records
  {
    if d in s.records then s else s.(records := s.records[d := FromRow(s.ledger[d])])
  }

  // ------------------------------------------------------------ a cancel in plain fields

  /** The cached record says what the newest row says. */
  predicate SaysWhat(rec: Record, row: Round) {
    rec.runId == row.runId && rec.parent == row.parent && rec.state == row.state && !rec.injected
  }

  /**
    Every record that is new or other than before agrees with the newest row of its session, and says all that row says
    when the row had left `running` before: a cancel that lost reports what won.
   */
  ghost predicate TellsTheTruth(s: State, t: State) {
    && t.ledger.Keys == s.ledger.Keys
    && (forall e | e in t.records && e in t.ledger && (e !in s.records || t.records[e] != s.records[e]) ::
          && t.records[e].runId == t.ledger[e].runId && t.records[e].state == t.ledger[e].state
          && (!s.ledger[e].state.Running? ==> t.ledger[e] == s.ledger[e] && SaysWhat(t.records[e], s.ledger[e])))
  }

  /** The record was running and is not any more. */
  predicate Stopped(s: State, t: State, e: string) {
    e in s.records && s.records[e].state.Running? && e in t.records && !t.records[e].state.Running?
  }

  /**
    Whatever stopped besides `d` was asked for by `d` or by something stopped; only such rows changed, to cancelled.
   */
  ghost predicate StopsOnlyBelow(s: State, t: State, d: string) {
    && (forall e | Stopped(s, t, e) && e != d ::
          s.records[e].parent.Some? && (s.records[e].parent.value == d || Stopped(s, t, s.records[e].parent.value)))
    && (forall e | e in t.ledger && (e !in s.ledger || t.ledger[e] != s.ledger[e]) ::
          e in s.ledger && s.ledger[e].state.Running? && t.ledger[e] == s.ledger[e].(state := Cancelled)
          && (e == d || Stopped(s, t, e)))
  }

  /** And nothing asked for by `d`, or by something stopped, is left running. */
  ghost predicate StopsAllBelow(s: State, t: State, d: string) {
    forall e | e in t.records && t.records[e].state.Running? && t.records[e].parent.Some? ::
      t.records[e].parent.value != d && !Stopped(s, t, t.records[e].parent.value)
  }

  predicate MarkedIfTold(t: State, e: string) {
    e in t.records && (t.records[e].injected <==> t.records[e].parent.None? || t.records[e].parent.value in t.sessions)
  }

  /**
    The outbox only grew, by one source for each row cancelled here whose caller is there to hear it; their records are
    marked unless a caller is named and gone.
   */
  ghost predicate ToldOnce(s: State, t: State) {
    && t.sessions == s.sessions && s.outbox <= t.outbox
    && (forall e | e in s.ledger && e in t.ledger && t.ledger[e] != s.ledger[e] :: MarkedIfTold(t, e))
    && NoDuplicates(t.outbox[|s.outbox|..])
    && (forall r :: r in t.outbox[|s.outbox|..] <==> IsTold(s, t, r))
  }

  /** The run of a row that changed and whose caller is there. */
  predicate IsTold(s: State, t: State, r: string) {
    exists e | e in s.ledger && e in t.ledger && t.ledger[e] != s.ledger[e] ::
      s.ledger[e].runId == r && e in t.records
      && t.records[e].parent.Some? && t.records[e].parent.value in s.sessions
  }

  lemma SettledSaysTheRow(s: State, t: State, done: set<string>)
    requires Valid(s) && t.records == SettleRecords(s, done) && t.ledger == SettleLedger(s, done)
    requires forall e | e in done && e in s.records :: s.records[e].state.Running?
    ensures TellsTheTruth(s, t)
  {
  }

  // ------------------------------------------------------------ one cascade in progress

  /** The descendants of `root` finished so far. */
  ghost predicate InProgress(s: State, root: string, t: State, done: set<string>, order: seq<string>) {
    var run := RunMap(s.records, root);
    && SettledExactly(s, t, run, done, order)
    && UpClosed(run, root, done)
    && done <= Below(run, root)
    && (forall p, d | p in done && Winnable(s, p) && Under(run, p, d) :: d in done)
  }

  lemma SettlingKeepsValid(s: State, t: State, run: map<string, string>, done: set<string>, order: seq<string>)
    requires Valid(s) && SettledExactly(s, t, run, done, order) && done <= s.records.Keys
    ensures Valid(t)
  {
  }

  lemma RunMapAfter(s: State, root: string, t: State, done: set<string>, order: seq<string>, c: string)
    requires Valid(s) && root in s.records && !s.records[root].state.Running?
    requires InProgress(s, root, t, done, order)
    requires c in RunMap(s.records, root) && c !in done
    ensures RunMap(t.records, c) == RunMap(s.records, root) - (done + {c})
  {
  }

  /** Settling in two disjoint portions is settling once. */
  lemma SettleTwice(s: State, t: State, u: State, a: set<string>, b: set<string>)
    requires a !! b && b <= s.records.Keys
    requires t.records == SettleRecords(s, a) && t.ledger == SettleLedger(s, a) && t.sessions == s.sessions
    requires u.records == SettleRecords(t, b) && u.ledger == SettleLedger(t, b)
    ensures u.records == SettleRecords(s, a + b)
    ensures u.ledger == SettleLedger(s, a + b)
    ensures forall d | d in b :: (Winnable(t, d) <==> Winnable(s, d)) && (Deliverable(t, d) <==> Deliverable(s, d))
    ensures forall d | d in b :: d in t.records && t.records[d] == s.records[d]
  {
  }

  /** The records one nested cancel finishes. */
  ghost function Portion(s: State, root: string, c: string): set<string> {
    var run := RunMap(s.records, root);
    if Winnable(s, c) then {c} + Below(run, c) else {c}
  }

  lemma PortionIsClosed(s: State, root: string, done: set<string>, c: string)
    requires s.records.Keys >= {root} && !s.records[root].state.Running?
    requires UpClosed(RunMap(s.records, root), root, done) && done <= Below(RunMap(s.records, root), root)
    requires forall p, d | p in done && Winnable(s, p) && Under(RunMap(s.records, root), p, d) :: d in done
    requires c in RunMap(s.records, root) && c !in done
    requires RunMap(s.records, root)[c] == root || RunMap(s.records, root)[c] in done
    ensures var run, more := RunMap(s.records, root), done + Portion(s, root, c);
            && done !! Portion(s, root, c)
            && UpClosed(run, root, more)
            && more <= Below(run, root)
            && (forall p, d | p in more && Winnable(s, p) && Under(run, p, d) :: d in more)
  {
    var run := RunMap(s.records, root);
    var more := done + Portion(s, root, c);
    SameBelow(run, root, done, c, c);
    forall d | d in Below(run, c) ensures run[d] == c || run[d] in Below(run, c) {
      UnderCases(run, c, d);
      if run[d] != c {
        UnderCases(run, c, run[d]);
      }
    }
    UnderCases(run, root, c);
    forall d | d in Below(run, c) ensures Under(run, root, d) {
      var n: nat :| UnderN(run, c, d, n);
      UnderTransitive(run, root, c, d, n);
    }
    forall p, d | p in Portion(s, root, c) && Winnable(s, p) && Under(run, p, d) ensures d in more {
      UnderCases(run, p, d);
      if p != c {
        var n: nat :| UnderN(run, p, d, n);
        UnderTransitive(run, c, p, d, n);
      }
    }
  }

  lemma OrderExtends(
    s: State, root: string, t: State, u: State, done: set<string>, c: string, order: seq<string>, more: seq<string>)
    requires Valid(s) && root in s.records && !s.records[root].state.Running?
    requires InProgress(s, root, t, done, order)
    requires c in RunMap(s.records, root) && c !in done
    requires RunMap(s.records, root)[c] == root || RunMap(s.records, root)[c] in done
    requires SettledExactly(t, u, RunMap(t.records, c), Portion(s, root, c), more)
    ensures Emitted(s, RunMap(s.records, root), done + Portion(s, root, c), order + more)
  {
    var run := RunMap(s.records, root);
    var portion := Portion(s, root, c);
    PortionIsClosed(s, root, done, c);
    RunMapAfter(s, root, t, done, order, c);
    SettleTwice(s, t, u, done, portion);
    var whole := order + more;
    forall d ensures d in whole <==> d in done + portion && Winnable(s, d) && Deliverable(s, d) {
      assert d in whole <==> d in order || d in more;
    }
    forall i, j | 0 <= i < j < |whole| ensures whole[i] != whole[j] && !Under(run, whole[i], whole[j]) {
      if j < |order| {
      } else if i < |order| {
        assert whole[i] in order && whole[j] in more;
      } else {
        assert whole[i] == more[i - |order|] && whole[j] == more[j - |order|];
        assert whole[i] in more;
        SameBelow(run, root, done, c, whole[i]);
      }
    }
  }

  lemma NestedCancel(
    s: State, root: string, t: State, u: State, done: set<string>, c: string, order: seq<string>, more: seq<string>)
    requires Valid(s) && root in s.records && !s.records[root].state.Running?
    requires InProgress(s, root, t, done, order)
    requires c in RunMap(s.records, root) && c !in done
    requires RunMap(s.records, root)[c] == root || RunMap(s.records, root)[c] in done
    requires CancelEffect(t, c, u, more)
    ensures InProgress(s, root, u, done + Portion(s, root, c), order + more)
    ensures c in Portion(s, root, c)
  {
    var run := RunMap(s.records, root);
    RunMapAfter(s, root, t, done, order, c);
    SameBelow(run, root, done, c, c);
    assert SettledExactly(t, u, RunMap(t.records, c), Portion(s, root, c), more);
    PortionIsClosed(s, root, done, c);
    NestedSettles(s, root, t, u, done, c, order, more);
  }

  lemma NestedSettles(
    s: State, root: string, t: State, u: State, done: set<string>, c: string, order: seq<string>, more: seq<string>)
    requires Valid(s) && root in s.records && !s.records[root].state.Running?
    requires InProgress(s, root, t, done, order)
    requires c in RunMap(s.records, root) && c !in done
    requires RunMap(s.records, root)[c] == root || RunMap(s.records, root)[c] in done
    requires SettledExactly(t, u, RunMap(t.records, c), Portion(s, root, c), more)
    ensures SettledExactly(s, u, RunMap(s.records, root), done + Portion(s, root, c), order + more)
  {
    hide UpClosed, Valid, SettleRecords, SettleLedger;
    var portion := Portion(s, root, c);
    assert Emitted(s, RunMap(s.records, root), done + portion, order + more) by {
      OrderExtends(s, root, t, u, done, c, order, more);
    }
    assert done !! portion by {
      PortionIsClosed(s, root, done, c);
    }
    SettleTwice(s, t, u, done, portion);
    assert forall d | d in more :: d in portion && t.records[d] == s.records[d];
    RunsSplit(s, t, order, more);
  }

  lemma RunsSplit(s: State, t: State, order: seq<string>, more: seq<string>)
    requires forall d | d in order :: d in s.records
    requires forall d | d in more :: d in s.records && d in t.records && t.records[d] == s.records[d]
    ensures Runs(s, order + more) == Runs(s, order) + Runs(t, more)
  {
  }

  lemma NothingSettledYet(s: State, root: string)
    ensures InProgress(s, root, s, {}, [])
  {
  }

  /** No frontier left: every child of a finished record is finished, so everything below the root is. */
  lemma {:induction false} EverythingReached(
    run: map<string, string>, root: string, done: set<string>, d: string, n: nat)
    requires forall e | e in run && (run[e] == root || run[e] in done) :: e in done
    requires UnderN(run, root, d, n)
    ensures d in done
    decreases n
  {
    if run[d] != root {
      EverythingReached(run, root, done, run[d], n - 1);
    }
  }

  lemma AllOfItIsDone(run: map<string, string>, root: string, done: set<string>)
    requires forall e | e in run && (run[e] == root || run[e] in done) :: e in done
    requires done <= Below(run, root)
    ensures done == Below(run, root)
  {
    forall d | d in Below(run, root) ensures d in done {
      var n: nat :| UnderN(run, root, d, n);
      EverythingReached(run, root, done, d, n);
    }
  }

  // ------------------------------------------------------------ the manager

  class DelegationManager {
    var records: map<string, Record>
    var ledger: map<string, Round>
    var sessions: set<string>
    var outbox: seq<string>

    ghost function Now(): State reads this { State(records, ledger, sessions, outbox) }

    /**
      Flip the cached state, compare-and-set the durable row, interrupt, cascade,
      inject. The interrupt's own error event finds the record no longer running.
     */
    method CancelDelegation(d: string) returns (result: Option<Record>, ghost order: seq<string>)
      requires Valid(Now())
      modifies this
      ensures Valid(Now())
      ensures CancelEffect(old(Now()), d, Now(), order)
      ensures result == if d in records then Some(records[d]) else None
      ensures FoundRunning(old(Now()), d) ==> PlainCancel(old(Now()), Now(), d)
      ensures !FoundRunning(old(Now()), d) ==>
                && ledger == old(ledger) && outbox == old(outbox) && sessions == old(sessions)
                && (d in records <==> d in old(records) || d in ledger)
                && (d !in old(records) && d in ledger ==> SaysWhat(records[d], ledger[d]))
                && (forall e | e in old(records) :: e in records && records[e] == old(records)[e])
                && records.Keys <= old(records).Keys + {d}
      ensures RunningRows(ledger) <= RunningRows(old(ledger))
      decreases |RunningRows(ledger)|, 0
    {
      hide Valid, CancelEffect, SettledExactly, Emitted, Below, RunningRows;
      order := [];
      ghost var before := Now();
      if d !in records {
        if d !in ledger {
          NoEffect(before, d);
          NoCancelIsPlain(before, d, before, []);
          return None, [];
        }
        records := records[d := FromRow(ledger[d])];
      }
      NoEffect(before, d);
      var rec := records[d];
      if rec.state != Running {
        NoCancelIsPlain(before, d, Now(), []);
        return Some(rec), [];
      }
      ghost var start := Now();
      records := records[d := rec.(state := Cancelled)];
      var changed := d in ledger && ledger[d].runId == rec.runId && ledger[d].state == Running;
      if !changed {
        if d in ledger {
          records := records[d := FromRow(ledger[d])];
        }
        result := Some(records[d]);
        LostCancel(before, start, Now(), d);
        EffectIsPlain(before, d, Now(), []);
        return;
      }
      ledger := ledger[d := ledger[d].(state := Cancelled)];
      ghost var flipped := Now();
      FlipShrinks(start, flipped, d);
      ghost var inner := CascadeCancelDescendants(d);
      ghost var cascaded := Now();
      RootSurvives(start, flipped, cascaded, d, inner);
      InjectTerminal(d);
      result := Some(records[d]);
      order := if Deliverable(start, d) then inner + [d] else inner;
      WonCancel(before, start, flipped, cascaded, Now(), d, inner);
      EffectIsPlain(before, d, Now(), order);
    }

    /** Breadth first from the cancelled session; a finished frontier entry appends its children at the end. */
    method CascadeCancelDescendants(root: string) returns (ghost order: seq<string>)
      requires Valid(Now()) && root in records && !records[root].state.Running?
      modifies this
      ensures Valid(Now())
      ensures SettledExactly(old(Now()), Now(), RunMap(old(records), root), Below(RunMap(old(records), root), root),
              order)
      ensures RunningRows(ledger) <= RunningRows(old(ledger))
      decreases |RunningRows(ledger)|, 2
    {
      hide SettledExactly, Emitted, UpClosed, Valid, Settled, UnderN, Under, RunMap;
      ghost var start := Now();
      ghost var run := RunMap(records, root);
      var running := map r | r in records && records[r].state == Running && r != root :: records[r];
      var frontier := [root];
      ghost var done: set<string> := {};
      order := [];
      NothingSettledYet(start, root);
      while frontier != []
        invariant Valid(Now()) && InProgress(start, root, Now(), done, order)
        invariant RunningRows(ledger) <= RunningRows(start.ledger)
        invariant forall f | f in frontier :: f == root || f in done
        invariant forall e | e in run && (run[e] == root || run[e] in done) :: e in done || run[e] in frontier
        decreases |run.Keys - done|, |frontier|
      {
        var sid := frontier[0];
        ghost var before := frontier;
        SubsetSize(RunningRows(ledger), RunningRows(start.ledger));
        var next;
        ghost var doneBefore := done;
        next, done, order := CancelChildren(start, root, running, sid, done, order);
        frontier := frontier[1..] + next;
        assert before == [sid] + before[1..];
        if next == [] {
        } else {
          assert next[0] in next && next[0] in done - doneBefore;
          assert run.Keys - done < run.Keys - doneBefore;
        }
        SubsetSize(run.Keys - done, run.Keys - doneBefore);
      }
      AllOfItIsDone(run, root, done);
    }

    /** The children of one frontier session that were running when the cascade began and still are. */
    method CancelChildren(
      ghost start: State, root: string, running: map<string, Record>, sid: string, ghost done0: set<string>,
      ghost order0: seq<string>)
      returns (next: seq<string>, ghost done: set<string>, ghost order: seq<string>)
      requires Valid(start) && root in start.records && !start.records[root].state.Running?
      requires running ==
               map r | r in start.records && start.records[r].state == Running && r != root :: start.records[r]
      requires Valid(Now()) && InProgress(start, root, Now(), done0, order0)
      requires sid == root || sid in done0
      modifies this
      ensures Valid(Now()) && InProgress(start, root, Now(), done, order)
      ensures RunningRows(ledger) <= RunningRows(old(ledger))
      ensures done0 <= done
      ensures forall c | c in next :: c in done && c !in done0
      ensures forall e | e in RunMap(start.records, root) && RunMap(start.records, root)[e] == sid :: e in done
      ensures forall e | e in RunMap(start.records, root) && RunMap(start.records, root)[e] in done - done0 ::
                e in done || RunMap(start.records, root)[e] in next
      decreases |RunningRows(ledger)|, 1
    {
      hide SettledExactly, Emitted, UpClosed, Valid, CancelEffect, InProgress;
      ghost var run := RunMap(start.records, root);
      next, done, order := [], done0, order0;
      var children := Enumerate(set r | r in running && running[r].parent == Some(sid));
      var k := 0;
      while k < |children|
        invariant 0 <= k <= |children|
        invariant Valid(Now()) && InProgress(start, root, Now(), done, order)
        invariant RunningRows(ledger) <= RunningRows(old(ledger))
        invariant done0 <= done
        invariant forall c | c in next :: c in done && c !in done0
        invariant forall i | 0 <= i < k :: children[i] in done
        invariant forall e | e in run && run[e] in done - done0 :: e in done || run[e] in next
        decreases |children| - k
      {
        var c := children[k];
        assert c in children;
        // The listed record object is still running: not replaced by a refresh and not flipped.
        if c in records && records[c].runId == running[c].runId && records[c].state == Running {
          ghost var before, doneBefore, orderBefore := Now(), done, order;
          ghost var more;
          var ignored;
          StillRunning(start, root, Now(), done, order, c);
          SubsetSize(RunningRows(ledger), RunningRows(old(ledger)));
          ignored, more := CancelDelegation(c);
          NestedCancel(start, root, before, Now(), doneBefore, c, orderBefore, more);
          done, order := doneBefore + Portion(start, root, c), orderBefore + more;
          ChildrenOfPortion(start, root, doneBefore, c);
          next := next + [c];
        } else {
          StillRunning(start, root, Now(), done, order, c);
        }
        k := k + 1;
      }
      forall e | e in run && run[e] == sid ensures e in done {
        assert e in children;
      }
    }

    /** The terminal source of a cancelled round; an enqueue that the database refuses is only logged. */
    method InjectTerminal(d: string)
      requires d in records
      modifies this`records, this`outbox
      ensures records == old(records)[d := old(records)[d].(injected :=
                old(records)[d].injected || old(records)[d].parent.None? || old(records)[d].parent.value in sessions)]
      ensures outbox == old(outbox) +
                if !old(records)[d].injected && old(records)[d].parent.Some? && old(records)[d].parent.value in sessions
                   && old(records)[d].runId !in old(outbox)
                then [old(records)[d].runId] else []
    {
      var rec := records[d];
      if rec.injected {
        return;
      }
      if rec.parent == None {
        records := records[d := rec.(injected := true)];
      } else if rec.parent.value in sessions {
        if rec.runId !in outbox {
          outbox := outbox + [rec.runId];
        }
        records := records[d := rec.(injected := true)];
      }
    }
  }

  // ------------------------------------------------------------ glue for the manager

  /** A finished or unknown delegation: at most the cache is filled. */
  lemma NoEffect(s0: State, d: string)
    requires Valid(s0)
    ensures d !in s0.records && d !in s0.ledger ==> CancelEffect(s0, d, s0, [])
    ensures d in s0.records || d in s0.ledger ==>
              var s := Loaded(s0, d);
              Valid(s) && (!s.records[d].state.Running? ==> CancelEffect(s0, d, s, []))
  {
  }

  /** What a cancel that found `d` running does, in plain fields. */
  ghost predicate PlainCancel(s0: State, t: State, d: string) {
    && TellsTheTruth(s0, t) && StopsOnlyBelow(s0, t, d) && ToldOnce(s0, t)
    && d in t.records && !t.records[d].state.Running?
    && (d in s0.ledger ==>
          && d in t.ledger
          && t.records[d].runId == t.ledger[d].runId && t.records[d].state == t.ledger[d].state
          && (s0.ledger[d].state.Running? ==>
                t.ledger[d] == s0.ledger[d].(state := Cancelled) && StopsAllBelow(s0, t, d))
          && (!s0.ledger[d].state.Running? ==>
                SaysWhat(t.records[d], t.ledger[d]) && t.outbox == s0.outbox && t.ledger == s0.ledger)
          && (d !in s0.records ==> t.records[d].parent == s0.ledger[d].parent))
  }

  predicate FoundRunning(s0: State, d: string) {
    if d in s0.records then s0.records[d].state.Running? else d in s0.ledger && s0.ledger[d].state.Running?
  }

  lemma DoneAreStopped(s: State, t: State, d: string, done: set<string>)
    requires t.records == SettleRecords(s, done)
    requires forall e | e in done :: e in s.records && s.records[e].state.Running?
    ensures forall e :: Stopped(s, t, e) <==> e in done
  {
  }

  lemma DoneIsBelow(s: State, t: State, d: string, done: set<string>)
    requires d in s.records && s.records[d].state.Running?
    requires done == {d} || done == {d} + Below(RunMap(s.records, d), d)
    requires forall e :: Stopped(s, t, e) <==> e in done
    requires t.ledger == SettleLedger(s, done) && t.records == SettleRecords(s, done)
    ensures StopsOnlyBelow(s, t, d)
    ensures done == {d} + Below(RunMap(s.records, d), d) ==> StopsAllBelow(s, t, d)
  {
    var run := RunMap(s.records, d);
    forall e
      ensures Under(run, d, e) <==> e in run && (run[e] == d || Under(run, d, run[e]))
    {
      UnderCases(run, d, e);
    }
    hide Under;
    if done == {d} + Below(run, d) {
      forall e | e in t.records && t.records[e].state.Running? && t.records[e].parent.Some?
        ensures t.records[e].parent.value != d && !Stopped(s, t, t.records[e].parent.value)
      {
        assert !Stopped(s, t, e);
        assert e !in done && e in run;
      }
    }
  }

  lemma SettledAreMarked(s: State, t: State, done: set<string>)
    requires t.records == SettleRecords(s, done) && t.ledger == SettleLedger(s, done) && t.sessions == s.sessions
    ensures forall e | e in s.ledger && e in t.ledger && t.ledger[e] != s.ledger[e] :: MarkedIfTold(t, e)
  {
  }

  lemma SourcesAreTold(s: State, t: State, run: map<string, string>, done: set<string>, order: seq<string>)
    requires Valid(s) && SettledExactly(s, t, run, done, order)
    ensures ToldOnce(s, t)
  {
    SettledAreMarked(s, t, done);
    hide Under, MarkedIfTold;
    var told := Runs(s, order);
    assert t.outbox[|s.outbox|..] == told;
    forall i, j | 0 <= i < j < |told|
      ensures told[i] != told[j]
    {
      assert order[i] in order && order[j] in order;
    }
    forall r ensures r in told <==> IsTold(s, t, r) {
      SourceIsTold(s, t, run, done, order, r);
    }
    hide IsTold;
  }

  lemma SourceIsTold(
    s: State, t: State, run: map<string, string>, done: set<string>, order: seq<string>, r: string)
    requires Valid(s) && SettledExactly(s, t, run, done, order)
    ensures r in Runs(s, order) <==> IsTold(s, t, r)
  {
    hide Under;
    var told := Runs(s, order);
    if r in told {
      var i :| 0 <= i < |told| && told[i] == r;
      assert order[i] in order;
    }
    if e :| e in s.ledger && e in t.ledger && t.ledger[e] != s.ledger[e] && s.ledger[e].runId == r && e in t.records
            && t.records[e].parent.Some? && t.records[e].parent.value in s.sessions {
      assert e in order;
      var i :| 0 <= i < |order| && order[i] == e;
      assert told[i] == r;
    }
  }

  /** The loaded record is all that separates the two states. */
  lemma PlainFromLoaded(s0: State, s: State, t: State, d: string)
    requires (d in s0.records || d in s0.ledger) && s == Loaded(s0, d) && s.records[d].state.Running?
    requires TellsTheTruth(s, t) && StopsOnlyBelow(s, t, d) && ToldOnce(s, t)
    requires d in t.records && Stopped(s, t, d)
    ensures TellsTheTruth(s0, t) && StopsOnlyBelow(s0, t, d) && ToldOnce(s0, t)
    ensures StopsAllBelow(s, t, d) ==> StopsAllBelow(s0, t, d)
  {
    assert forall e :: Stopped(s0, t, e) ==> Stopped(s, t, e);
    assert forall e :: Stopped(s, t, e) && e != d ==> Stopped(s0, t, e);
    hide Stopped;
  }

  lemma EffectIsPlain(s0: State, d: string, t: State, order: seq<string>)
    requires Valid(s0) && CancelEffect(s0, d, t, order) && FoundRunning(s0, d)
    ensures PlainCancel(s0, t, d)
  {
    var s := Loaded(s0, d);
    var run := RunMap(s.records, d);
    var done := if Winnable(s, d) then {d} + Below(run, d) else {d};
    assert Valid(s);
    assert forall e | e in done :: e in s.records && s.records[e].state.Running?;
    assert SettledExactly(s, t, run, done, order);
    SettledSaysTheRow(s, t, done);
    DoneAreStopped(s, t, d, done);
    DoneIsBelow(s, t, d, done);
    SourcesAreTold(s, t, run, done, order);
    hide Valid, Below, RunMap, TellsTheTruth, StopsOnlyBelow, StopsAllBelow, ToldOnce;
    PlainFromLoaded(s0, s, t, d);
    assert Stopped(s, t, d);
    RootIsPlain(s0, s, t, d, run, done, order);
  }

  lemma FirstIsIn<T>(s: seq<T>)
    requires s != []
    ensures exists x :: x in s
  {
    assert s[0] in s;
  }

  lemma RootIsPlain(
    s0: State, s: State, t: State, d: string, run: map<string, string>, done: set<string>, order: seq<string>)
    requires (d in s0.records || d in s0.ledger) && s == Loaded(s0, d) && s.records[d].state.Running?
    requires Valid(s) && SettledExactly(s, t, run, done, order) && d in done && (Winnable(s, d) || done == {d})
    ensures d in t.records && d in s0.ledger ==>
              && d in t.ledger
              && t.records[d].runId == t.ledger[d].runId && t.records[d].state == t.ledger[d].state
              && (s0.ledger[d].state.Running? ==> t.ledger[d] == s0.ledger[d].(state := Cancelled))
              && (!s0.ledger[d].state.Running? ==>
                    SaysWhat(t.records[d], t.ledger[d]) && t.outbox == s0.outbox && t.ledger == s0.ledger)
              && (d !in s0.records ==> t.records[d].parent == s0.ledger[d].parent)
  {
    hide Under;
    if !Winnable(s, d) {
      if order != [] {
        FirstIsIn(order);
        assert false;
      }
    }
  }

  /** A delegation that is not running: the cache is filled from the row, and nothing else happens. */
  lemma NoCancelIsPlain(s0: State, d: string, t: State, order: seq<string>)
    requires CancelEffect(s0, d, t, order) && !FoundRunning(s0, d)
    ensures t == s0.(records := t.records) && s0.records.Keys <= t.records.Keys <= s0.records.Keys + {d}
    ensures forall e | e in s0.records :: t.records[e] == s0.records[e]
    ensures d in t.records <==> d in s0.records || d in s0.ledger
    ensures d !in s0.records && d in s0.ledger ==> SaysWhat(t.records[d], s0.ledger[d])
  {
  }

  /** A cancelled root is settled by the cascade's caller, never by the cascade. */
  lemma RootSurvives(s: State, flipped: State, cascaded: State, d: string, order: seq<string>)
    requires Valid(s) && Winnable(s, d) && s.records[d].state.Running?
    requires flipped == s.(records := s.records[d := s.records[d].(state := Cancelled)],
                           ledger := s.ledger[d := s.ledger[d].(state := Cancelled)])
    requires SettledExactly(flipped, cascaded, RunMap(flipped.records, d), Below(RunMap(flipped.records, d), d), order)
    ensures d in cascaded.records && cascaded.records[d] == s.records[d].(state := Cancelled)
    ensures cascaded.sessions == s.sessions && !s.records[d].injected
    ensures s.records[d].runId !in cascaded.outbox
  {
    forall i | 0 <= i < |order| ensures Runs(flipped, order)[i] != s.records[d].runId {
      assert order[i] in order;
    }
  }

  lemma LostCancel(s0: State, s: State, t: State, d: string)
    requires (d in s0.records || d in s0.ledger) && s == Loaded(s0, d)
    requires Valid(s) && s.records[d].state.Running? && !Winnable(s, d)
    requires t == s.(records := s.records[
               d := if d in s.ledger then FromRow(s.ledger[d]) else s.records[d].(state := Cancelled)])
    ensures Valid(t) && CancelEffect(s0, d, t, [])
    ensures t.ledger == s0.ledger
  {
  }

  lemma FlipShrinks(s: State, t: State, d: string)
    requires Valid(s) && Winnable(s, d) && s.records[d].state.Running?
    requires t == s.(records := s.records[d := s.records[d].(state := Cancelled)],
                     ledger := s.ledger[d := s.ledger[d].(state := Cancelled)])
    ensures Valid(t)
    ensures |RunningRows(t.ledger)| < |RunningRows(s.ledger)|
    ensures RunMap(t.records, d) == RunMap(s.records, d)
  {
    assert Valid(t) by { hide RunMap, RunningRows; }
    hide Valid;
    assert RunningRows(t.ledger) == RunningRows(s.ledger) - {d};
  }

  lemma RowsShrink(s: State, t: State, run: map<string, string>, done: set<string>, order: seq<string>)
    requires SettledExactly(s, t, run, done, order)
    ensures RunningRows(t.ledger) <= RunningRows(s.ledger)
  {
  }

  lemma StillRunning(s: State, root: string, t: State, done: set<string>, order: seq<string>, c: string)
    requires Valid(s) && root in s.records && !s.records[root].state.Running?
    requires InProgress(s, root, t, done, order) && c in RunMap(s.records, root)
    ensures c in t.records && c in s.records
    ensures c !in done <==> t.records[c].runId == s.records[c].runId && t.records[c].state == Running
  {
  }

  lemma ChildrenOfPortion(s: State, root: string, done: set<string>, c: string)
    ensures forall e | e in RunMap(s.records, root) && RunMap(s.records, root)[e] in Portion(s, root, c) ::
              e in Portion(s, root, c) || RunMap(s.records, root)[e] == c
  {
    var run := RunMap(s.records, root);
    forall e | e in run && run[e] in Portion(s, root, c) && run[e] != c ensures e in Portion(s, root, c) {
      UnderStep(run, c, e);
    }
  }

  /** Flip, cascade and injection together settle the root and everything below it. */
  lemma WonSettles(s: State, flipped: State, cascaded: State, t: State, d: string, order: seq<string>)
    requires Valid(s) && Winnable(s, d) && s.records[d].state.Running?
    requires flipped == s.(records := s.records[d := s.records[d].(state := Cancelled)],
                           ledger := s.ledger[d := s.ledger[d].(state := Cancelled)])
    requires SettledExactly(flipped, cascaded, RunMap(s.records, d), Below(RunMap(s.records, d), d), order)
    requires t == cascaded.(
               records := cascaded.records[d := cascaded.records[d].(
                 injected := s.records[d].parent.None? || s.records[d].parent.value in s.sessions)],
               outbox := cascaded.outbox + if Deliverable(s, d) then [s.records[d].runId] else [])
    ensures SettledExactly(s, t, RunMap(s.records, d), {d} + Below(RunMap(s.records, d), d),
                           if Deliverable(s, d) then order + [d] else order)
  {
    assert d !in Below(RunMap(s.records, d), d);
    hide Valid, SettleRecords, SettleLedger, UnderN, RunMap, Below;
    WonOrder(s, flipped, d, order);
    FlipThenSettle(s, flipped, cascaded, t, d, Below(RunMap(s.records, d), d));
    hide Emitted;
    assert Runs(flipped, order) == Runs(s, order);
    if Deliverable(s, d) {
      assert Runs(s, order + [d]) == Runs(s, order) + [s.records[d].runId];
    }
  }

  lemma WonCancel(s0: State, s: State, flipped: State, cascaded: State, t: State, d: string, order: seq<string>)
    requires (d in s0.records || d in s0.ledger) && s == Loaded(s0, d)
    requires Valid(s) && Winnable(s, d) && s.records[d].state.Running?
    requires flipped == s.(records := s.records[d := s.records[d].(state := Cancelled)],
                           ledger := s.ledger[d := s.ledger[d].(state := Cancelled)])
    requires Valid(cascaded)
    requires SettledExactly(flipped, cascaded, RunMap(flipped.records, d), Below(RunMap(flipped.records, d), d), order)
    requires t == cascaded.(
               records := cascaded.records[d := cascaded.records[d].(
                 injected := s.records[d].parent.None? || s.records[d].parent.value in s.sessions)],
               outbox := cascaded.outbox + if Deliverable(s, d) then [s.records[d].runId] else [])
    ensures Valid(t)
    ensures CancelEffect(s0, d, t, if Deliverable(s, d) then order + [d] else order)
    ensures RunningRows(t.ledger) <= RunningRows(s0.ledger)
  {
    hide Valid, SettleRecords, UnderN;
    var run := RunMap(s.records, d);
    var below := Below(run, d);
    FlipShrinks(s, flipped, d);
    var whole := if Deliverable(s, d) then order + [d] else order;
    WonSettles(s, flipped, cascaded, t, d, order);
    assert {d} + below <= s.records.Keys;
    hide SettledExactly;
    SettlingKeepsValid(s, t, run, {d} + below, whole);
    RowsShrink(s, t, run, {d} + below, whole);
  }

  lemma WonOrder(s: State, flipped: State, d: string, order: seq<string>)
    requires Winnable(s, d) && s.records[d].state.Running?
    requires flipped == s.(records := s.records[d := s.records[d].(state := Cancelled)],
                           ledger := s.ledger[d := s.ledger[d].(state := Cancelled)])
    requires Emitted(flipped, RunMap(s.records, d), Below(RunMap(s.records, d), d), order)
    ensures Emitted(s, RunMap(s.records, d), {d} + Below(RunMap(s.records, d), d),
                    if Deliverable(s, d) then order + [d] else order)
  {
  }

  lemma FlipThenSettle(s: State, flipped: State, cascaded: State, t: State, d: string, below: set<string>)
    requires Winnable(s, d) && s.records[d].state.Running? && d !in below
    requires flipped == s.(records := s.records[d := s.records[d].(state := Cancelled)],
                           ledger := s.ledger[d := s.ledger[d].(state := Cancelled)])
    requires cascaded.records == SettleRecords(flipped, below) && cascaded.ledger == SettleLedger(flipped, below)
    requires t.ledger == cascaded.ledger
    requires t.records == cascaded.records[d := cascaded.records[d].(
               injected := s.records[d].parent.None? || s.records[d].parent.value in s.sessions)]
    ensures t.records == SettleRecords(s, {d} + below) && t.ledger == SettleLedger(s, {d} + below)
  {
  }
}
