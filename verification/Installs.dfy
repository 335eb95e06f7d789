/**
  Installing a connector account (server/connector_manager.py): insert or update, deduplicated over concurrent
  installs.
 */
module Installs {
  import opened Base

  type Id = nat

  /** A row's account; None while the provider named no external account. */
  datatype Account = Account(kind: string, external: string)

  datatype Row = Row(account: Option<Account>, secret: string, needsReconnect: bool)

  type Rows = map<Id, Row>

  /** The partial unique index. */
  ghost predicate UniqueAccounts(rows: Rows) {
    forall i, j | i in rows && j in rows && i != j && rows[i].account.Some? :: rows[i].account != rows[j].account
  }

  function RowsOf(rows: Rows, a: Account): set<Id> {
    set i | i in rows && rows[i].account == Some(a)
  }

  lemma NobodyHas(rows: Rows, a: Account)
    requires RowsOf(rows, a) == {}
    ensures forall i | i in rows :: rows[i].account != Some(a)
  {
    forall i | i in rows
      ensures rows[i].account != Some(a)
    {
      assert i !in RowsOf(rows, a);
    }
  }

  datatype Request = Request(kind: string, external: string, secret: string)

  /** An empty external id is stored as NULL, which the index ignores. */
  function AccountOf(r: Request): Option<Account> {
    if r.external == "" then None else Some(Account(r.kind, r.external))
  }

  function Updated(rows: Rows, id: Id, secret: string): Rows {
    if id in rows then rows[id := rows[id].(secret := secret, needsReconnect := false)] else rows
  }

  predicate HasRow(rows: Rows, kind: string, external: string) {
    exists i | i in rows :: rows[i].account == Some(Account(kind, external))
  }

  // ------------------------------------------------------------ one install

  class Database {
    var rows: Rows

    method FindByAccount(a: Account) returns (id: Option<Id>)
      requires UniqueAccounts(rows)
      ensures id.Some? ==> RowsOf(rows, a) == {id.value}
      ensures id.None? ==> RowsOf(rows, a) == {}
    {
      var found := RowsOf(rows, a);
      if i :| i in found {
        id := Some(i);
      } else {
        id := None;
      }
    }

    /** _upsert_installation with nothing in between: the account's row is overwritten, or there is a new one. */
    method UpsertInstallation(r: Request, newId: Id) returns (id: Id)
      requires UniqueAccounts(rows) && newId !in rows
      modifies this
      ensures UniqueAccounts(rows)
      ensures if AccountOf(r).Some? && RowsOf(old(rows), AccountOf(r).value) != {}
              then RowsOf(old(rows), AccountOf(r).value) == {id} && rows == Updated(old(rows), id, r.secret)
              else id == newId && rows == old(rows)[newId := Row(AccountOf(r), r.secret, false)]
      // In plain fields: which row is written, what it holds then, and that no other changes.
      ensures if r.external != "" && HasRow(old(rows), r.kind, r.external)
              then id in old(rows) && old(rows)[id].account == Some(Account(r.kind, r.external))
              else id == newId
      ensures id in rows && rows[id].secret == r.secret && !rows[id].needsReconnect
      ensures rows[id].account == if r.external == "" then None else Some(Account(r.kind, r.external))
      ensures rows.Keys == old(rows).Keys + {id} && forall i | i in old(rows) && i != id :: rows[i] == old(rows)[i]
    {
      var existing: Option<Id> := None;
      if r.external != "" {
        existing := FindByAccount(Account(r.kind, r.external));
        assert forall i | i in rows && rows[i].account == Some(Account(r.kind, r.external)) ::
            i in RowsOf(rows, Account(r.kind, r.external));
      }
      if existing.Some? {
        id := existing.value;
        assert id in RowsOf(rows, AccountOf(r).value);
        rows := Updated(rows, id, r.secret);
        return;
      }
      if AccountOf(r).Some? {
        NobodyHas(rows, AccountOf(r).value);
      }
      id := newId;
      rows := rows[id := Row(AccountOf(r), r.secret, false)];
    }
  }

  // ------------------------------------------------------------ interleaved installs

  type Caller = nat

  /** Found holds the answer of the lookup; Conflict is an insert the index refused. */
  datatype Stage =
    | Idle
    | Begun(r: Request)
    | Found(r: Request, found: Option<Id>)
    | Conflict(r: Request)
    | Done(r: Request, id: Id)
    | Failed

  /**
    `latest` is the secret last written for an account, `used` all ids there were. `hit` are the callers whose row was
    deleted under them: the row they had found, or the one that had refused their insert.
   */
  datatype State = State(
    rows: Rows, callers: map<Caller, Stage>, latest: map<Account, string>, used: set<Id>, hit: set<Caller>)

  datatype Step =
    | Start(c: Caller, r: Request)
    | Look(c: Caller, found: Option<Id>)
    | Write(c: Caller, newId: Id)
    | LookAgain(c: Caller, found: Option<Id>)
    | Delete(id: Id)

  function At(s: State, c: Caller): Stage {
    if c in s.callers then s.callers[c] else Idle
  }

  /** What a lookup may answer. */
  predicate Answers(rows: Rows, r: Request, found: Option<Id>) {
    if found.Some? then found.value in rows && AccountOf(r).Some? && rows[found.value].account == AccountOf(r)
    else AccountOf(r).Some? ==> RowsOf(rows, AccountOf(r).value) == {}
  }

  predicate Enabled(s: State, e: Step) {
    match e
    case Start(c, _) => At(s, c).Idle?
    case Look(c, found) => At(s, c).Begun? && Answers(s.rows, At(s, c).r, found)
    case Write(c, newId) => At(s, c).Found? && newId !in s.used
    case LookAgain(c, found) => At(s, c).Conflict? && Answers(s.rows, At(s, c).r, found)
    case Delete(_) => true
  }

  function Put(s: State, c: Caller, stage: Stage): State { s.(callers := s.callers[c := stage]) }

  function Noted(s: State, r: Request): State {
    if AccountOf(r).Some? then s.(latest := s.latest[AccountOf(r).value := r.secret]) else s
  }

  /** The delete takes from this caller the row it goes by. */
  predicate Hits(s: State, e: Step, c: Caller) {
    e.Delete? && e.id in s.rows &&
    match At(s, c)
    case Found(_, found) => found == Some(e.id)
    case Conflict(r) => s.rows[e.id].account == AccountOf(r)
    case _ => false
  }

  /** An update of a row that is gone changes nothing and is not noticed. */
  function Apply(s: State, e: Step): State
    requires Enabled(s, e)
  {
    match e
    case Start(c, r) => Put(s, c, Begun(r))
    case Look(c, found) => Put(s, c, Found(At(s, c).r, found))
    case Write(c, newId) =>
      var r, id := At(s, c).r, At(s, c).found;
      if id.Some? then
        var t := Put(s, c, Done(r, id.value));
        if id.value in s.rows then Noted(t, r).(rows := Updated(s.rows, id.value, r.secret)) else t
      else if AccountOf(r).Some? && RowsOf(s.rows, AccountOf(r).value) != {} then Put(s, c, Conflict(r))
      else
        Noted(Put(s, c, Done(r, newId)), r).(
          rows := s.rows[newId := Row(AccountOf(r), r.secret, false)], used := s.used + {newId})
    case LookAgain(c, found) =>
      Put(s, c, if found.None? then Failed else Found(At(s, c).r, found))
    case Delete(id) =>
      s.(rows := s.rows - {id}, hit := s.hit + set c | c in s.callers && Hits(s, e, c))
  }

  /** An install with nothing in between does what `UpsertInstallation` does. */
  lemma InstallAlone(s: State, c: Caller, r: Request, found: Option<Id>, newId: Id)
    requires At(s, c).Idle? && Answers(s.rows, r, found) && newId !in s.used && s.rows.Keys <= s.used
    ensures var end := Apply(Apply(Apply(s, Start(c, r)), Look(c, found)), Write(c, newId));
            && At(end, c).Done?
            && var id := At(end, c).id;
               && (if r.external != "" && HasRow(s.rows, r.kind, r.external)
                   then id in s.rows && s.rows[id].account == Some(Account(r.kind, r.external)) else id == newId)
               && id in end.rows && end.rows[id].secret == r.secret && !end.rows[id].needsReconnect
               && end.rows[id].account == (if r.external == "" then None else Some(Account(r.kind, r.external)))
               && end.rows.Keys == s.rows.Keys + {id}
               && forall i | i in s.rows && i != id :: end.rows[i] == s.rows[i]
  {
    if r.external != "" && found.None? {
      NobodyHas(s.rows, Account(r.kind, r.external));
    }
  }

  /** Only a caller whose row was deleted under it can fail or go by a row that is gone. */
  ghost predicate Standing(s: State, c: Caller) {
    match At(s, c)
    case Found(r, found) => found.Some? ==>
      && AccountOf(r).Some? && found.value in s.used
      && if found.value in s.rows then s.rows[found.value].account == AccountOf(r) else c in s.hit
    case Conflict(r) => AccountOf(r).Some? && (RowsOf(s.rows, AccountOf(r).value) != {} || c in s.hit)
    case Done(r, id) => id in s.used && (id in s.rows ==>
      s.rows[id].account == AccountOf(r) && (AccountOf(r).Some? ==> AccountOf(r).value in s.latest))
    case Failed => c in s.hit
    case _ => true
  }

  /** The row of an account holds the secret written last. */
  predicate HoldsLatest(rows: Rows, latest: map<Account, string>) {
    forall i | i in rows && rows[i].account.Some? && rows[i].account.value in latest ::
      rows[i].secret == latest[rows[i].account.value]
  }

  ghost predicate RowsOk(s: State) {
    UniqueAccounts(s.rows) && HoldsLatest(s.rows, s.latest) && s.rows.Keys <= s.used
  }

  ghost predicate Inv(s: State) {
    RowsOk(s) && forall c: Caller :: Standing(s, c)
  }

  lemma StepKeepsRows(s: State, e: Step)
    requires RowsOk(s) && Enabled(s, e)
    requires e.Write? ==> Standing(s, e.c)
    ensures RowsOk(Apply(s, e))
  {
    if e.Write? {
      var r := At(s, e.c).r;
      if AccountOf(r).Some? && RowsOf(s.rows, AccountOf(r).value) == {} {
        NobodyHas(s.rows, AccountOf(r).value);
      }
    }
  }

  lemma OtherStands(s: State, e: Step, c: Caller)
    requires RowsOk(s) && Enabled(s, e) && Standing(s, c) && !e.Delete? && e.c != c
    ensures Standing(Apply(s, e), c)
  {
    assert At(Apply(s, e), c) == At(s, c);
    if At(s, c).Conflict? && RowsOf(s.rows, AccountOf(At(s, c).r).value) != {} {
      var i :| i in RowsOf(s.rows, AccountOf(At(s, c).r).value);
      assert i in RowsOf(Apply(s, e).rows, AccountOf(At(s, c).r).value);
    }
  }

  lemma OwnStands(s: State, e: Step)
    requires RowsOk(s) && Enabled(s, e) && !e.Delete? && Standing(s, e.c)
    ensures Standing(Apply(s, e), e.c)
  {
  }

  lemma DeletedStands(s: State, e: Step, c: Caller)
    requires RowsOk(s) && e.Delete? && Standing(s, c)
    ensures Standing(Apply(s, e), c)
  {
    var t := Apply(s, e);
    assert At(t, c) == At(s, c) && s.hit <= t.hit;
    if At(s, c).Conflict? && RowsOf(s.rows, AccountOf(At(s, c).r).value) != {} {
      var i :| i in RowsOf(s.rows, AccountOf(At(s, c).r).value);
      if i == e.id {
        assert Hits(s, e, c) && c in t.hit;
      } else {
        assert i in RowsOf(t.rows, AccountOf(At(s, c).r).value);
      }
    } else if At(s, c).Found? && At(s, c).found == Some(e.id) && e.id in s.rows {
      assert Hits(s, e, c) && c in t.hit;
    }
  }

  lemma StepKeepsInv(s: State, e: Step)
    requires Inv(s) && Enabled(s, e)
    ensures Inv(Apply(s, e))
  {
    assert e.Write? ==> Standing(s, e.c);
    StepKeepsRows(s, e);
    hide Standing, RowsOk;
    forall c: Caller
      ensures Standing(Apply(s, e), c)
    {
      assert Standing(s, c);
      if e.Delete? {
        DeletedStands(s, e, c);
      } else if c == e.c {
        OwnStands(s, e);
      } else {
        OtherStands(s, e, c);
      }
    }
  }

  predicate Runs(s: State, steps: seq<Step>)
    decreases |steps|
  {
    steps == [] || (Enabled(s, steps[0]) && Runs(Apply(s, steps[0]), steps[1..]))
  }

  function After(s: State, steps: seq<Step>): State
    requires Runs(s, steps)
    decreases |steps|
  {
    if steps == [] then s else After(Apply(s, steps[0]), steps[1..])
  }

  lemma {:induction false} RunKeepsInv(s: State, steps: seq<Step>)
    requires Inv(s) && Runs(s, steps)
    ensures Inv(After(s, steps))
    decreases |steps|
  {
    if steps != [] {
      StepKeepsInv(s, steps[0]);
      RunKeepsInv(Apply(s, steps[0]), steps[1..]);
    }
  }

  ghost predicate HitIn(s: State, steps: seq<Step>, c: Caller)
    requires Runs(s, steps)
    decreases |steps|
  {
    steps != [] && (Hits(s, steps[0], c) || HitIn(Apply(s, steps[0]), steps[1..], c))
  }

  lemma {:induction false} HitMeansDeleted(s: State, steps: seq<Step>, c: Caller)
    requires Runs(s, steps)
    ensures c in After(s, steps).hit <==> c in s.hit || HitIn(s, steps, c)
    decreases |steps|
  {
    if steps != [] {
      var next := Apply(s, steps[0]);
      assert c in next.hit <==> c in s.hit || Hits(s, steps[0], c);
      hide Hits, Apply;
      HitMeansDeleted(next, steps[1..], c);
    }
  }

  function Starting(rows: Rows): State {
    State(rows, map[], map[], rows.Keys, {})
  }

  /** Both installs are over, and they were of one account. */
  predicate EndedTogether(s: State, c: Caller, d: Caller) {
    && At(s, c).Done? && At(s, d).Done?
    && AccountOf(At(s, c).r).Some? && AccountOf(At(s, c).r) == AccountOf(At(s, d).r)
  }

  /**
    However installs and deletes interleave: an install fails only if a delete took the row that had refused its
    insert, and all that ended on rows still there, for one account, ended on its one row, which holds the secret
    written last.
   */
  lemma InstallsOfOneAccountMeet(rows: Rows, steps: seq<Step>, c: Caller, d: Caller)
    requires UniqueAccounts(rows) && Runs(Starting(rows), steps)
    ensures var s := After(Starting(rows), steps);
            && (At(s, c).Failed? ==> HitIn(Starting(rows), steps, c))
            && (EndedTogether(s, c, d) && At(s, c).id in s.rows && At(s, d).id in s.rows ==>
                  && At(s, c).id == At(s, d).id
                  && RowsOf(s.rows, AccountOf(At(s, c).r).value) == {At(s, c).id}
                  && AccountOf(At(s, c).r).value in s.latest
                  && s.rows[At(s, c).id].secret == s.latest[AccountOf(At(s, c).r).value])
  {
    var start := Starting(rows);
    assert Inv(start);
    RunKeepsInv(start, steps);
    HitMeansDeleted(start, steps, c);
    var s := After(start, steps);
    assert Standing(s, c) && Standing(s, d);
    if EndedTogether(s, c, d) && At(s, c).id in s.rows && At(s, d).id in s.rows {
      assert s.rows[At(s, c).id].account == AccountOf(At(s, c).r) &&
        s.rows[At(s, d).id].account == AccountOf(At(s, d).r);
      assert forall i | i in RowsOf(s.rows, AccountOf(At(s, c).r).value) :: i == At(s, c).id;
    }
  }

  /**
    A refused install fails exactly if its account has no row by the time it looks again; a found row that is gone by
    the time of its update makes the install answer with an id nobody has.
   */
  lemma DeleteDuringInstall(s: State, c: Caller, found: Option<Id>, newId: Id)
    requires Inv(s)
    ensures Enabled(s, LookAgain(c, found)) ==>
              && AccountOf(At(s, c).r).Some?
              && (At(Apply(s, LookAgain(c, found)), c).Failed? <==> RowsOf(s.rows, AccountOf(At(s, c).r).value) == {})
    ensures Enabled(s, Write(c, newId)) && At(s, c).found.Some? ==>
              var t := Apply(s, Write(c, newId));
              At(t, c).Done? && (At(t, c).id in t.rows <==> At(s, c).found.value in s.rows)
  {
    assert Standing(s, c);
    if Enabled(s, LookAgain(c, found)) && found.Some? {
      assert found.value in RowsOf(s.rows, AccountOf(At(s, c).r).value);
    }
  }

  lemma {:induction false} NothingDeleted(s: State, steps: seq<Step>, c: Caller)
    requires Runs(s, steps) && (forall e | e in steps :: !e.Delete?) && s.used == s.rows.Keys
    ensures !HitIn(s, steps, c) && After(s, steps).used == After(s, steps).rows.Keys
    decreases |steps|
  {
    if steps != [] {
      NothingDeleted(Apply(s, steps[0]), steps[1..], c);
    }
  }

  /** Without deletes no install fails, and all of one account end on its one row. */
  lemma WithoutDeletesAllMeet(rows: Rows, steps: seq<Step>, c: Caller, d: Caller)
    requires UniqueAccounts(rows) && Runs(Starting(rows), steps) && forall e | e in steps :: !e.Delete?
    ensures var s := After(Starting(rows), steps);
            && !At(s, c).Failed?
            && (EndedTogether(s, c, d) ==>
                  At(s, c).id == At(s, d).id && RowsOf(s.rows, AccountOf(At(s, c).r).value) == {At(s, c).id})
  {
    var start := Starting(rows);
    InstallsOfOneAccountMeet(rows, steps, c, d);
    NothingDeleted(start, steps, c);
    assert Inv(start);
    RunKeepsInv(start, steps);
    var s := After(start, steps);
    assert Standing(s, c) && Standing(s, d);
  }
}
