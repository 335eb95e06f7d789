/**
  Access tokens of one connector installation (server/connector_manager.py): callers refresh
  one at a time under the installation's lock; times are seconds.
 */
module Tokens {
  import opened Base

  const REFRESH_SKEW_SECONDS := 300

  /** An OAuth token set; `expires` is 0 when it never does, and None is a refresh token the provider left out. */
  datatype Token = Token(access: string, refresh: Option<string>, expires: int)

  predicate NearExpiry(t: Token, now: int) {
    t.expires != 0 && t.expires - now < REFRESH_SKEW_SECONDS
  }

  predicate Due(t: Token, now: int) {
    NearExpiry(t, now) && t.refresh.Some? && t.refresh.value != ""
  }

  /** What is stored after a refresh: the old refresh token stands when the answer has none (section 6 of RFC 6749). */
  function Carried(held: Token, answer: Token): Token {
    if answer.refresh.None? then answer.(refresh := held.refresh) else answer
  }

  // ------------------------------------------------------------ one call

  datatype Secret = OAuth(token: Token) | ApiKey(raw: string)

  datatype Row = Row(secret: Option<Secret>, needsReconnect: bool, errorCode: Option<string>)

  /** How a refresh attempt turns out. */
  datatype Outcome = NotConfigured | Fails(code: string) | Answers(token: Token)

  datatype Error = NotFound | SecretMissing | Unconfigured | RefreshFailed(code: string)

  datatype Access = Access(token: string, expires: int)

  class ConnectorManager {
    var rows: map<string, Row>

    /** get_access_token, as the only one holding the installation's lock. */
    method GetAccessToken(id: string, now: int, outcome: Outcome) returns (r: Result<Access, Error>)
      modifies this
      ensures id !in old(rows) ==> r == Err(NotFound) && rows == old(rows)
      ensures id in old(rows) && old(rows)[id].secret.None? ==> r == Err(SecretMissing) && rows == old(rows)
      ensures id in old(rows) && old(rows)[id].secret.Some? ==>
                match old(rows)[id].secret.value
                case ApiKey(raw) => r == Ok(Access(raw, 0)) && rows == old(rows)
                case OAuth(held) =>
                  if !Due(held, now) then r == Ok(Access(held.access, held.expires)) && rows == old(rows)
                  else match outcome
                    case NotConfigured => r == Err(Unconfigured) && rows == old(rows)
                    case Fails(code) =>
                      && r == Err(RefreshFailed(code))
                      && rows == old(rows)[id := old(rows)[id].(needsReconnect := true, errorCode := Some(code))]
                    case Answers(token) =>
                      && r == Ok(Access(token.access, token.expires))
                      && rows == old(rows)[id := Row(Some(OAuth(Carried(held, token))), false, None)]
      // In plain times: a token with less than five minutes left is never handed out where a refresh is possible.
      ensures id in old(rows) && old(rows)[id].secret.Some? && old(rows)[id].secret.value.OAuth? ==>
                var held := old(rows)[id].secret.value.token;
                if held.expires == 0 || now + 300 <= held.expires || held.refresh in {None, Some("")}
                then r == Ok(Access(held.access, held.expires)) && rows == old(rows)
                else
                  r.Ok? ==>
                    && outcome.Answers? && r.value == Access(outcome.token.access, outcome.token.expires)
                    && id in rows && rows[id].secret.Some? && rows[id].secret.value.OAuth?
                    && rows[id].secret.value.token.access == outcome.token.access
                    && rows[id].secret.value.token.expires == outcome.token.expires
                    && rows[id].secret.value.token.refresh ==
                       if outcome.token.refresh.Some? then outcome.token.refresh else held.refresh
    {
      if id !in rows {
        return Err(NotFound);
      }
      var row := rows[id];
      if row.secret.None? {
        return Err(SecretMissing);
      }
      if row.secret.value.ApiKey? {
        return Ok(Access(row.secret.value.raw, 0));
      }
      var ts := row.secret.value.token;
      var nearExpiry := ts.expires != 0 && ts.expires - now < REFRESH_SKEW_SECONDS;
      if nearExpiry && ts.refresh.Some? && ts.refresh.value != "" {
        match outcome {
          case NotConfigured =>
            return Err(Unconfigured);
          case Fails(code) =>
            rows := rows[id := row.(needsReconnect := true, errorCode := Some(code))];
            return Err(RefreshFailed(code));
          case Answers(token) =>
            var newTs := token;
            if newTs.refresh.None? {
              newTs := newTs.(refresh := ts.refresh);
            }
            ts := newTs;
            rows := rows[id := Row(Some(OAuth(ts)), false, None)];
        }
      }
      r := Ok(Access(ts.access, ts.expires));
    }
  }

  // ------------------------------------------------------------ many callers at once

  type CallerId = nat

  /** Where a call stands; Refreshing and Granted hold the lock. */
  datatype Caller =
    | Away
    | Waiting
    | Refreshing(held: Token)
    | Granted(token: Token)
    | Returned(access: Access)
    | Failed

  /** What has happened since the lock was taken: new authorizations before and after the provider's answer. */
  datatype Window = Window(held: Option<string>, before: Option<Option<string>>, answer: Option<Token>,
    after: Option<Option<string>>)

  const CLOSED := Window(None, None, None, None)

  /**
    One OAuth installation. As history, `newest` is the refresh token of the latest grant, `grants` the refreshes the
    provider answered, `stores` how many were stored and `dropped` how many were given up on.
   */
  datatype State = State(
    secret: Option<Token>, needsReconnect: bool, errorCode: Option<string>,
    callers: map<CallerId, Caller>, holder: Option<CallerId>, now: int,
    newest: Option<string>, grants: seq<Token>, stores: nat, dropped: nat, window: Window)

  datatype Step =
    | Begin(c: CallerId)
    | Acquire(c: CallerId, configured: bool)
    | Grant(c: CallerId, answer: Token)
    | Refuse(c: CallerId, code: string)
    | Store(c: CallerId)
    | Cancel(c: CallerId)
    | Reinstall(token: Token)   // a new authorization of the same account takes no lock
    | Delete
    | Tick(now: int)

  function At(s: State, c: CallerId): Caller {
    if c in s.callers then s.callers[c] else Away
  }

  predicate Enabled(s: State, e: Step) {
    match e
    case Begin(c) => At(s, c).Away? || At(s, c).Returned? || At(s, c).Failed?
    case Acquire(c, _) => At(s, c).Waiting? && s.holder.None?
    case Grant(c, _) => At(s, c).Refreshing?
    case Refuse(c, _) => At(s, c).Refreshing?
    case Store(c) => At(s, c).Granted?
    case Cancel(c) => At(s, c).Waiting? || At(s, c).Refreshing? || At(s, c).Granted?
    case Reinstall(_) => s.secret.Some?
    case Delete => true
    case Tick(now) => now >= s.now
  }

  function Acquired(s: State, c: CallerId, configured: bool): State {
    if s.secret.None? then s.(callers := s.callers[c := Failed])
    else
      var held := s.secret.value;
      if !Due(held, s.now) then s.(callers := s.callers[c := Returned(Access(held.access, held.expires))])
      else if !configured then s.(callers := s.callers[c := Failed])
      else s.(callers := s.callers[c := Refreshing(held)], holder := Some(c), window := CLOSED.(held := held.refresh))
  }

  function Apply(s: State, e: Step): State
    requires Enabled(s, e)
  {
    match e
    case Begin(c) => s.(callers := s.callers[c := Waiting])
    case Acquire(c, configured) => Acquired(s, c, configured)
    case Grant(c, answer) =>
      s.(callers := s.callers[c := Granted(Carried(At(s, c).held, answer))], grants := s.grants + [answer],
         newest := if answer.refresh.Some? then answer.refresh else s.newest,
         window := s.window.(answer := Some(answer)))
    case Refuse(c, code) =>
      s.(callers := s.callers[c := Failed], holder := None, needsReconnect := true, errorCode := Some(code))
    case Store(c) =>
      var t := At(s, c).token;
      if s.secret.None? then   // the row was deleted meanwhile
        s.(callers := s.callers[c := Failed], holder := None, dropped := s.dropped + 1)
      else
        s.(callers := s.callers[c := Returned(Access(t.access, t.expires))], holder := None, needsReconnect := false,
           errorCode := None, secret := Some(t), stores := s.stores + 1)
    case Cancel(c) =>
      s.(callers := s.callers[c := Failed], holder := if s.holder == Some(c) then None else s.holder,
         dropped := if At(s, c).Granted? then s.dropped + 1 else s.dropped)
    case Reinstall(token) =>
      s.(secret := Some(token), needsReconnect := false, errorCode := None, newest := token.refresh,
         window := if s.window.answer.None? then s.window.(before := Some(token.refresh))
                   else s.window.(after := Some(token.refresh)))
    case Delete => s.(secret := None)
    case Tick(now) => s.(now := now)
  }

  /** A call with nothing in between ends as `get_access_token` alone does. */
  lemma CallAlone(s: State, c: CallerId, configured: bool, answer: Token, code: string)
    requires s.holder.None? && At(s, c).Away? && s.secret.Some?
    ensures var held, begun := s.secret.value, Apply(Apply(s, Begin(c)), Acquire(c, configured));
            if held.expires == 0 || s.now + 300 <= held.expires || held.refresh.None? || held.refresh.value == "" then
              && At(begun, c) == Returned(Access(held.access, held.expires))
              && begun.secret == s.secret && begun.holder.None?
            else if !configured then
              At(begun, c).Failed? && begun.secret == s.secret && begun.holder.None?
            else
              && At(begun, c) == Refreshing(held) && begun.holder == Some(c)
              && var refused := Apply(begun, Refuse(c, code));
              && var stored := Apply(Apply(begun, Grant(c, answer)), Store(c));
              && At(refused, c).Failed? && refused.needsReconnect && refused.errorCode == Some(code)
              && refused.secret == s.secret && refused.holder.None?
              && At(stored, c) == Returned(Access(answer.access, answer.expires))
              && stored.secret == Some(Token(answer.access,
                   if answer.refresh.Some? then answer.refresh else held.refresh, answer.expires))
              && !stored.needsReconnect && stored.errorCode.None? && stored.holder.None?
  {
  }

  /** The lock is held exactly by the caller that is refreshing. */
  ghost predicate Locked(s: State) {
    && (s.holder.Some? ==> At(s, s.holder.value).Refreshing? || At(s, s.holder.value).Granted?)
    && (forall c: CallerId :: At(s, c).Refreshing? || At(s, c).Granted? ==> s.holder == Some(c))
  }

  lemma StepKeepsLocked(s: State, e: Step)
    requires Locked(s) && Enabled(s, e)
    ensures Locked(Apply(s, e))
  {
  }

  // ------------------------------------------------------------ one refresh for everybody

  /** The provider answers with a token that is good for the whole run: that is the promise a refresh makes. */
  predicate Good(answer: Token, deadline: int) {
    answer.expires == 0 || answer.expires - deadline >= REFRESH_SKEW_SECONDS
  }

  /** Steps before `deadline`; a new authorization brings a token as good as a refresh does. */
  predicate Ordinary(e: Step, deadline: int) {
    match e
    case Reinstall(token) => Good(token, deadline)
    case Grant(_, answer) => Good(answer, deadline)
    case Tick(now) => now <= deadline
    case _ => true
  }

  function Last(grants: seq<Token>): Token
    requires grants != []
  {
    grants[|grants| - 1]
  }

  /** A token of one of the new authorizations, or of the one refresh that was stored. */
  predicate IsFresh(s: State, held: Token, authorized: set<Token>, token: Token) {
    token in authorized || (s.stores == 1 && s.grants != [] && token == Carried(held, Last(s.grants)))
  }

  ghost predicate FreshAccess(s: State, held: Token, authorized: set<Token>, access: Access) {
    exists token :: IsFresh(s, held, authorized, token) && access == Access(token.access, token.expires)
  }

  /**
    Only the token everybody found is ever refreshed, at most one refresh is stored, and nobody returns with that
    token.
   */
  ghost predicate SingleFlight(s: State, held: Token, authorized: set<Token>, deadline: int) {
    var onItsWay := if s.holder.Some? && At(s, s.holder.value).Granted? then 1 else 0;
    && Locked(s) && s.now <= deadline && Due(held, s.now)
    && |s.grants| == s.stores + s.dropped + onItsWay && s.stores <= 1
    && (s.grants != [] ==> Good(Last(s.grants), deadline))
    && (forall token | token in authorized :: Good(token, deadline))
    && (s.stores == 1 ==> s.holder.None? && s.grants != [])
    && (forall c: CallerId :: At(s, c).Refreshing? ==> At(s, c).held == held)
    && (onItsWay == 1 ==> At(s, s.holder.value).token == Carried(held, Last(s.grants)))
    && (s.secret.Some? ==> (s.secret.value == held && s.stores == 0) || IsFresh(s, held, authorized, s.secret.value))
    && (forall c: CallerId | At(s, c).Returned? :: FreshAccess(s, held, authorized, At(s, c).access))
  }

  predicate Runs(s: State, steps: seq<Step>, deadline: int)
    decreases |steps|
  {
    steps == [] ||
    (Enabled(s, steps[0]) && Ordinary(steps[0], deadline) && Runs(Apply(s, steps[0]), steps[1..], deadline))
  }

  function After(s: State, steps: seq<Step>, deadline: int): State
    requires Runs(s, steps, deadline)
    decreases |steps|
  {
    if steps == [] then s else After(Apply(s, steps[0]), steps[1..], deadline)
  }

  function Authorized(steps: seq<Step>): set<Token> {
    set e | e in steps && e.Reinstall? :: e.token
  }

  lemma FreshStays(
    s: State, e: Step, held: Token, authorized: set<Token>, more: set<Token>, deadline: int, token: Token)
    requires SingleFlight(s, held, authorized, deadline) && Enabled(s, e) && authorized <= more
    requires IsFresh(s, held, authorized, token)
    ensures IsFresh(Apply(s, e), held, more, token)
  {
    hide FreshAccess;
  }

  lemma AccessStays(
    s: State, e: Step, held: Token, authorized: set<Token>, more: set<Token>, deadline: int, c: CallerId)
    requires SingleFlight(s, held, authorized, deadline) && Enabled(s, e) && Ordinary(e, deadline)
    requires authorized <= more && (e.Reinstall? ==> e.token in more)
    requires At(Apply(s, e), c).Returned?
    ensures FreshAccess(Apply(s, e), held, more, At(Apply(s, e), c).access)
  {
    var t := Apply(s, e);
    if e.Acquire? && e.c == c {
      FreshStays(s, e, held, authorized, more, deadline, s.secret.value);
      assert IsFresh(t, held, more, s.secret.value);
    } else if e.Store? && e.c == c {
      assert s.holder == Some(c);
      assert IsFresh(t, held, more, At(s, c).token);
    } else {
      assert At(t, c) == At(s, c);
      var token :| IsFresh(s, held, authorized, token) && At(s, c).access == Access(token.access, token.expires);
      FreshStays(s, e, held, authorized, more, deadline, token);
    }
  }

  lemma StepKeepsSingleFlight(s: State, e: Step, held: Token, authorized: set<Token>, deadline: int)
    requires SingleFlight(s, held, authorized, deadline) && Enabled(s, e) && Ordinary(e, deadline)
    ensures SingleFlight(Apply(s, e), held, authorized + Authorized([e]), deadline)
  {
    StepKeepsLocked(s, e);
    var t, more := Apply(s, e), authorized + Authorized([e]);
    assert e.Reinstall? ==> e in [e] && e.token in Authorized([e]);
    forall c: CallerId | At(t, c).Returned?
      ensures FreshAccess(t, held, more, At(t, c).access)
    {
      AccessStays(s, e, held, authorized, more, deadline, c);
    }
    hide FreshAccess;
    if s.secret.Some? && IsFresh(s, held, authorized, s.secret.value) {
      FreshStays(s, e, held, authorized, more, deadline, s.secret.value);
    }
  }

  lemma {:induction false} RunKeepsSingleFlight(
    s: State, steps: seq<Step>, held: Token, authorized: set<Token>, deadline: int)
    requires SingleFlight(s, held, authorized, deadline) && Runs(s, steps, deadline)
    ensures SingleFlight(After(s, steps, deadline), held, authorized + Authorized(steps), deadline)
    decreases |steps|
  {
    if steps == [] {
      assert authorized + Authorized([]) == authorized;
    } else {
      StepKeepsSingleFlight(s, steps[0], held, authorized, deadline);
      assert steps == [steps[0]] + steps[1..];
      assert authorized + Authorized(steps) == authorized + Authorized([steps[0]]) + Authorized(steps[1..]);
      hide SingleFlight, Authorized, Apply;
      RunKeepsSingleFlight(Apply(s, steps[0]), steps[1..], held, authorized + Authorized([steps[0]]), deadline);
    }
  }

  /**
    However many callers meet a token that is due, whoever of them is cancelled, and whatever is authorized anew
    meanwhile: at most one refresh is stored, every other grant was dropped by a cancel or a delete, and whoever
    returns got the token of that one or of a new authorization.
   */
  lemma OneRefreshForAll(s: State, steps: seq<Step>, held: Token, deadline: int)
    requires s.secret == Some(held) && Due(held, s.now) && s.now <= deadline
    requires s.callers == map[] && s.holder.None? && s.grants == [] && s.stores == 0 && s.dropped == 0
    requires Runs(s, steps, deadline)
    ensures var end := After(s, steps, deadline);
            && end.stores <= 1
            && (end.holder.None? ==> |end.grants| == end.stores + end.dropped)
            && (forall c: CallerId | At(end, c).Returned? ::
              FreshAccess(end, held, Authorized(steps), At(end, c).access))
            && (end.secret.Some? ==>
                  (end.secret.value == held && end.stores == 0) ||
                    IsFresh(end, held, Authorized(steps), end.secret.value))
  {
    assert SingleFlight(s, held, {}, deadline);
    RunKeepsSingleFlight(s, steps, held, {}, deadline);
    assert {} + Authorized(steps) == Authorized(steps);
  }

  // ------------------------------------------------------------ the stored refresh token is the newest

  /** The refresh token the row had when the answer came. */
  function Standing(w: Window): Option<string> {
    if w.before.Some? then w.before.value else w.held
  }

  /**
    The end of a refresh that loses no token. A stored answer must be the newest grant: nothing newer came after it, and
    one without a refresh token must not carry over a token that was replaced. A dropped answer must have been replaced
    already, or have brought nothing new.
   */
  predicate Harmless(s: State, e: Step)
    requires Enabled(s, e)
  {
    var w := s.window;
    match e
    case Store(_) =>
      s.secret.Some? && w.answer.Some? ==>
        if w.after.Some? then (if w.answer.value.refresh.Some? then w.answer.value.refresh else w.held) == w.after.value
        else w.answer.value.refresh.Some? || w.before.None? || w.held == w.before.value
    case Cancel(c) =>
      At(s, c).Granted? && s.secret.Some? && w.answer.Some? ==>
        w.after.Some? || w.answer.value.refresh.None? || w.answer.value.refresh == Standing(w)
    case _ => true
  }

  /** What the row and the newest grant are, told from what happened since the lock was taken. */
  ghost predicate Tracked(s: State) {
    && Locked(s)
    && var w := s.window;
       if s.holder.None? then s.secret.Some? ==> s.secret.value.refresh == s.newest
       else
         match At(s, s.holder.value)
         case Refreshing(held) =>
           && w.held == held.refresh && w.answer.None? && w.after.None? && s.newest == Standing(w)
           && (s.secret.Some? ==> s.secret.value.refresh == Standing(w))
         case Granted(token) =>
           && w.answer.Some?
           && token.refresh == (if w.answer.value.refresh.Some? then w.answer.value.refresh else w.held)
           && s.newest == (if w.after.Some? then w.after.value
                           else if w.answer.value.refresh.Some? then w.answer.value.refresh else Standing(w))
           && (s.secret.Some? ==> s.secret.value.refresh == if w.after.Some? then w.after.value else Standing(w))
         case _ => true
  }

  /** Nobody refreshes, so the row must hold the newest refresh token. */
  predicate HoldsNewest(s: State) {
    s.holder.None? && s.secret.Some? ==> s.secret.value.refresh == s.newest
  }

  lemma StepIsExact(s: State, e: Step)
    requires Tracked(s) && Enabled(s, e)
    ensures Harmless(s, e) ==> Tracked(Apply(s, e))
    ensures HoldsNewest(Apply(s, e)) <==> Harmless(s, e)
  {
    StepKeepsLocked(s, e);
    if e.Grant? || e.Store? || e.Refuse? || (e.Cancel? && At(s, e.c).Granted?) {
      assert s.holder == Some(e.c);
    }
  }

  ghost predicate Run(s: State, steps: seq<Step>)
    decreases |steps|
  {
    steps == [] || (Enabled(s, steps[0]) && Run(Apply(s, steps[0]), steps[1..]))
  }

  ghost predicate AllHarmless(s: State, steps: seq<Step>)
    requires Run(s, steps)
    decreases |steps|
  {
    steps == [] || (Harmless(s, steps[0]) && AllHarmless(Apply(s, steps[0]), steps[1..]))
  }

  ghost predicate AlwaysNewest(s: State, steps: seq<Step>)
    requires Run(s, steps)
    decreases |steps|
  {
    HoldsNewest(s) && (steps == [] || AlwaysNewest(Apply(s, steps[0]), steps[1..]))
  }

  /**
    Over every run, with new authorizations, cancels and deletes at any point: whenever nobody refreshes the stored
    refresh token is the one granted last, if and only if every refresh ended harmlessly.
   */
  lemma {:induction false} StoredIsNewest(s: State, steps: seq<Step>)
    requires Tracked(s) && Run(s, steps)
    ensures AlwaysNewest(s, steps) <==> AllHarmless(s, steps)
    decreases |steps|
  {
    if steps != [] {
      var next := Apply(s, steps[0]);
      StepIsExact(s, steps[0]);
      if Harmless(s, steps[0]) {
        StoredIsNewest(next, steps[1..]);
      } else {
        assert !AlwaysNewest(next, steps[1..]);
      }
    }
  }

  /** One new authorization during a refresh: before the answer it is lost to an answer that carries the old token over,
      after the answer to any answer whose token differs. */
  lemma ReinstallDuringRefresh(s: State, c: CallerId, token: Token, answer: Token)
    requires Tracked(s) && At(s, c).Refreshing? && s.secret.Some?
    ensures var held := At(s, c).held;
            var early := Apply(Apply(Apply(s, Reinstall(token)), Grant(c, answer)), Store(c));
            var late := Apply(Apply(Apply(s, Grant(c, answer)), Reinstall(token)), Store(c));
            && (HoldsNewest(early) <==> answer.refresh.Some? || held.refresh == token.refresh)
            && (HoldsNewest(late) <==> Carried(held, answer).refresh == token.refresh)
  {
    assert s.holder == Some(c);
  }

  /** A caller cancelled after the grant drops a rotated token: the store keeps the old one. */
  lemma CancelAfterGrantIsLost(s: State, c: CallerId, answer: Token)
    requires Tracked(s) && At(s, c).Refreshing? && s.secret.Some?
    ensures var end := Apply(Apply(s, Grant(c, answer)), Cancel(c));
            && end.secret == s.secret
            && (HoldsNewest(end) <==> answer.refresh.None? || answer.refresh == s.secret.value.refresh)
  {
    assert s.holder == Some(c);
  }
}
