/**
  recover_interrupted of server/delegations.py: what a restart makes of rounds
  that lost their process, in which order callers hear about them, and when the
  recovered sessions may be archived.
 */
module Recovery {
  import opened Base
  import opened RoundStates

  /** A delegation_runs row. */
  datatype Row = Row(delegation: string, state: RoundState, finishedAt: int)

  /** session_injections.source_key: 'delegation:<run_id>:terminal', or any other producer's key. */
  datatype SourceKey = Terminal(runId: string) | Other(name: string)

  datatype Delivery = Pending | InTranscript | Unavailable

  datatype Injection = Injection(session: string, delivery: Delivery)

  type Injections = map<SourceKey, Injection>

  datatype Event = Source(runId: string) | Materialized(key: SourceKey) | Archived(session: string)

  // ------------------------------------------------------------ depth

  /** Live delegation sessions with their parent session. */
  type Parents = map<string, Option<string>>

  function Depth(live: Parents, parent: Option<string>, seen: set<string>): nat
    decreases live.Keys - seen
  {
    if parent.Some? && parent.value in live && parent.value !in seen
    then 1 + Depth(live, live[parent.value], seen + {parent.value})
    else 0
  }

  function SessionDepth(live: Parents, s: string): nat {
    Depth(live, if s in live then live[s] else None, {})
  }

  /** The live ancestors of `path[0]`, nearest first, up to one whose parent is not a live delegation. */
  ghost predicate LiveChain(live: Parents, path: seq<string>) {
    && path != []
    && NoDuplicates(path)
    && (forall k | 0 <= k < |path| :: path[k] in live)
    && (forall k | 0 < k < |path| :: live[path[k - 1]] == Some(path[k]))
    && (var top := live[path[|path| - 1]]; top.None? || top.value !in live)
  }

  lemma {:induction false} DepthAlong(live: Parents, path: seq<string>, k: nat, seen: set<string>)
    requires LiveChain(live, path) && k < |path|
    requires forall j | k < j < |path| :: path[j] !in seen
    ensures Depth(live, live[path[k]], seen) == |path| - 1 - k
    decreases |path| - k
  {
    if k + 1 < |path| {
      assert live[path[k + 1 - 1]] == Some(path[k + 1]);
      DepthAlong(live, path, k + 1, seen + {path[k + 1]});
    }
  }

  /** Off a pointer cycle, the walk counts the live ancestors, so an ancestor is strictly shallower. */
  lemma AncestorsAreShallower(live: Parents, path: seq<string>, k: nat)
    requires LiveChain(live, path) && k < |path|
    ensures SessionDepth(live, path[k]) == |path| - 1 - k
  {
    DepthAlong(live, path, k, {});
  }

  /** Python's order on strings. */
  predicate AtLeast(a: string, b: string) {
    b == "" || (a != "" && (a[0] > b[0] || (a[0] == b[0] && AtLeast(a[1..], b[1..]))))
  }

  lemma {:induction false} AtLeastIsTotal(a: string, b: string)
    ensures AtLeast(a, b) || AtLeast(b, a)
    ensures AtLeast(a, b) && AtLeast(b, a) ==> a == b
    decreases |a|
  {
    if a != "" && b != "" && a[0] == b[0] {
      AtLeastIsTotal(a[1..], b[1..]);
      assert a == [a[0]] + a[1..] && b == [b[0]] + b[1..];
    }
  }

  /** At the first difference the greater character decides; a prefix comes before what it starts. */
  ghost predicate FirstDiffersAt(a: string, b: string, k: nat) {
    k <= |a| && k <= |b| && a[..k] == b[..k] && (k == |b| || (k < |a| && a[k] > b[k]))
  }

  lemma {:induction false} AtLeastIsLexicographic(a: string, b: string)
    ensures AtLeast(a, b) <==> exists k: nat :: FirstDiffersAt(a, b, k)
    decreases |a|
  {
    if b == "" || a == "" || a[0] != b[0] {
      if AtLeast(a, b) {
        assert FirstDiffersAt(a, b, 0);
      } else {
        forall k: nat
          ensures !FirstDiffersAt(a, b, k)
        {
          if 0 < k <= |a| && k <= |b| {
            assert a[..k][0] == a[0] && b[..k][0] == b[0];
          }
        }
      }
    } else {
      AtLeastIsLexicographic(a[1..], b[1..]);
      if k: nat :| FirstDiffersAt(a[1..], b[1..], k) {
        assert a[..k + 1] == [a[0]] + a[1..][..k] && b[..k + 1] == [b[0]] + b[1..][..k];
        assert FirstDiffersAt(a, b, k + 1);
      }
      if k: nat :| FirstDiffersAt(a, b, k) {
        assert k > 0 && a[1..][..k - 1] == a[..k][1..] && b[1..][..k - 1] == b[..k][1..];
        assert FirstDiffersAt(a[1..], b[1..], k - 1);
      }
    }
  }

  lemma {:induction false} AtLeastIsTransitive(a: string, b: string, c: string)
    requires AtLeast(a, b) && AtLeast(b, c)
    ensures AtLeast(a, c)
    decreases |a|
  {
    if a != "" && b != "" && c != "" && a[0] == b[0] == c[0] {
      AtLeastIsTransitive(a[1..], b[1..], c[1..]);
    }
  }

  /** What the two sorts order by: depth, and for sources then the time and the run; everything descending. */
  datatype Entry = Entry(id: string, depth: nat, finishedAt: int, tie: string)

  predicate NotAfter(a: Entry, b: Entry) {
    || a.depth > b.depth
    || (a.depth == b.depth && (a.finishedAt > b.finishedAt || (a.finishedAt == b.finishedAt && AtLeast(a.tie, b.tie))))
  }

  lemma NotAfterIsAnOrder(a: Entry, b: Entry, c: Entry)
    ensures NotAfter(a, b) || NotAfter(b, a)
    ensures NotAfter(a, b) && NotAfter(b, c) ==> NotAfter(a, c)
    ensures NotAfter(a, b) && NotAfter(b, a) ==> a.tie == b.tie
  {
    AtLeastIsTotal(a.tie, b.tie);
    if AtLeast(a.tie, b.tie) && AtLeast(b.tie, c.tie) {
      AtLeastIsTransitive(a.tie, b.tie, c.tie);
    }
  }

  ghost predicate Descending(entries: seq<Entry>) {
    forall i, j | 0 <= i < j < |entries| :: NotAfter(entries[i], entries[j])
  }

  lemma DescendingAt(entries: seq<Entry>, i: nat, j: nat)
    requires Descending(entries) && i < |entries| && j < |entries|
    ensures i < j ==> NotAfter(entries[i], entries[j])
  {
  }

  lemma InsertedStaysDescending(sorted: seq<Entry>, e: Entry, at: nat)
    requires Descending(sorted) && at <= |sorted|
    requires forall i | 0 <= i < at :: NotAfter(sorted[i], e)
    requires at < |sorted| ==> !NotAfter(sorted[at], e)
    ensures Descending(sorted[..at] + [e] + sorted[at..])
  {
    var s := sorted[..at] + [e] + sorted[at..];
    forall j | at <= j < |sorted| ensures NotAfter(e, sorted[j]) {
      NotAfterIsAnOrder(sorted[at], e, e);
      NotAfterIsAnOrder(e, sorted[at], sorted[j]);
      assert j > at ==> NotAfter(sorted[at], sorted[j]);
    }
    hide NotAfter;
    forall i, j | 0 <= i < j < |s| ensures NotAfter(s[i], s[j]) {
      assert s[i] == if i < at then sorted[i] else if i == at then e else sorted[i - 1];
      assert s[j] == if j < at then sorted[j] else if j == at then e else sorted[j - 1];
    }
  }

  lemma InsertedKeepsElements<T>(s: seq<T>, e: T, at: nat)
    requires at <= |s|
    ensures multiset(s[..at] + [e] + s[at..]) == multiset(s) + multiset{e}
  {
    assert s == s[..at] + s[at..];
  }

  /** Deeper first, at one depth the later finished, at one time the greater run. */
  predicate LaterFirst(a: Entry, b: Entry) {
    && a.depth >= b.depth
    && (a.depth == b.depth ==> a.finishedAt >= b.finishedAt)
    && (a.depth == b.depth && a.finishedAt == b.finishedAt ==> AtLeast(a.tie, b.tie))
  }

  lemma DescendingIsLaterFirst()
    ensures forall a, b :: NotAfter(a, b) <==> LaterFirst(a, b)
  {
  }

  method SortDeepestFirst(entries: seq<Entry>) returns (sorted: seq<Entry>)
    ensures Descending(sorted) && multiset(sorted) == multiset(entries)
    ensures forall i, j | 0 <= i < j < |sorted| :: LaterFirst(sorted[i], sorted[j])
  {
    DescendingIsLaterFirst();
    hide NotAfter;
    sorted := [];
    for n := 0 to |entries|
      invariant Descending(sorted) && multiset(sorted) == multiset(entries[..n])
    {
      var at := 0;
      while at < |sorted| && NotAfter(sorted[at], entries[n])
        invariant 0 <= at <= |sorted|
        invariant forall i | 0 <= i < at :: NotAfter(sorted[i], entries[n])
        decreases |sorted| - at
      {
        at := at + 1;
      }
      InsertedStaysDescending(sorted, entries[n], at);
      InsertedKeepsElements(sorted, entries[n], at);
      sorted := sorted[..at] + [entries[n]] + sorted[at..];
      assert entries[..n + 1] == entries[..n] + [entries[n]];
    }
    assert entries[..|entries|] == entries;
  }

  function IdsOf(entries: seq<Entry>): set<string> {
    set e | e in entries :: e.id
  }

  lemma IdsOfNext(entries: seq<Entry>, k: nat)
    requires k < |entries|
    ensures IdsOf(entries[..k + 1]) == IdsOf(entries[..k]) + {entries[k].id}
    ensures IdsOf(entries[..k + 1]) <= IdsOf(entries)
  {
  }

  /** The entries name exactly `ids`, once each. */
  ghost predicate Lists(entries: seq<Entry>, ids: set<string>) {
    IdsOf(entries) == ids && |entries| == |ids|
  }

  lemma SortedLists(entries: seq<Entry>, sorted: seq<Entry>)
    requires multiset(sorted) == multiset(entries)
    ensures IdsOf(sorted) == IdsOf(entries) && |sorted| == |entries|
    ensures forall e :: e in sorted <==> e in entries
  {
    forall e ensures e in sorted <==> e in entries {
      assert e in sorted <==> e in multiset(sorted);
      assert e in entries <==> e in multiset(entries);
    }
    assert |multiset(sorted)| == |sorted| && |multiset(entries)| == |entries|;
  }

  // ------------------------------------------------------------ specification

  function Terminalised(rows: map<string, Row>, now: int): map<string, Row> {
    map r | r in rows :: if rows[r].state.Running? then Row(rows[r].delegation, Interrupted, now) else rows[r]
  }

  predicate HasRuns(rows: map<string, Row>, session: string) {
    exists r | r in rows :: rows[r].delegation == session
  }

  ghost predicate FreshIds(rows: map<string, Row>, newId: string -> string) {
    (forall a, b | a != b :: newId(a) != newId(b)) && forall a :: newId(a) !in rows
  }

  /** Old rows stay; each session of `done` that had none now has exactly the interrupted one. */
  ghost predicate RescuedBy(
    before: map<string, Row>, after: map<string, Row>, done: set<string>, now: int, newId: string -> string) {
    && (forall r | r in before :: r in after && after[r] == before[r])
    && (forall s | s in done && !HasRuns(before, s) :: newId(s) in after && after[newId(s)] == Row(s, Interrupted, now))
    && (forall r | r in after && r !in before :: after[r].delegation in done && !HasRuns(before, after[r].delegation)
                                                 && r == newId(after[r].delegation))
  }

  lemma NothingRescuedYet(rows: map<string, Row>, now: int, newId: string -> string)
    ensures RescuedBy(rows, rows, {}, now, newId)
  {
  }

  lemma OneMoreRescued(
    before: map<string, Row>, rows: map<string, Row>, done: set<string>, s: string, now: int, newId: string -> string)
    requires FreshIds(before, newId) && s !in done && RescuedBy(before, rows, done, now, newId)
    ensures HasRuns(rows, s) ==> RescuedBy(before, rows, done + {s}, now, newId)
    ensures !HasRuns(rows, s) ==> RescuedBy(before, rows[newId(s) := Row(s, Interrupted, now)], done + {s}, now, newId)
  {
  }

  lemma RescuedHaveRuns(
    before: map<string, Row>, after: map<string, Row>, done: set<string>, now: int, newId: string -> string)
    requires RescuedBy(before, after, done, now, newId)
    ensures forall s | s in done :: HasRuns(after, s)
  {
  }

  /** Terminal rounds with a parent whose terminal source was never created. */
  function Missing(rows: map<string, Row>, parents: Parents, injections: Injections): set<string> {
    set r | r in rows && !rows[r].state.Running? && rows[r].delegation in parents && parents[rows[r].delegation].Some?
            && Terminal(r) !in injections
  }

  predicate Deliverable(rows: map<string, Row>, parents: Parents, r: string) {
    r in rows && rows[r].delegation in parents && parents[rows[r].delegation].Some?
  }

  /** The table with one pending source for every run of `runs` that had none. */
  function WithSources(before: Injections, runs: set<string>, rows: map<string, Row>, parents: Parents): Injections
    requires forall r | r in runs :: Deliverable(rows, parents, r)
  {
    (map k | k in (set r | r in runs :: Terminal(r)) :: NewSource(rows, parents, k.runId)) + before
  }

  lemma OneMoreSource(before: Injections, runs: set<string>, r: string, rows: map<string, Row>, parents: Parents)
    requires forall q | q in runs + {r} :: Deliverable(rows, parents, q) && Terminal(q) !in before
    ensures WithSources(before, runs + {r}, rows, parents) ==
            WithSources(before, runs, rows, parents)[Terminal(r) := NewSource(rows, parents, r)]
  {
  }

  /** What the table holds once the rounds of `done` were enqueued, and which of them are marked. */
  ghost predicate Enqueued(
    before: Injections, after: Injections, done: set<string>, all: set<string>, marked: set<string>,
    faults: string -> Fault, rows: map<string, Row>, parents: Parents)
  {
    && done <= all && (forall q | q in all :: Deliverable(rows, parents, q) && Terminal(q) !in before)
    && after == WithSources(before, Kept(done, faults), rows, parents)
    && marked == Returned(done, faults)
  }

  lemma NothingEnqueued(
    before: Injections, entries: seq<Entry>, faults: string -> Fault, rows: map<string, Row>, parents: Parents)
    requires forall q | q in IdsOf(entries) :: Deliverable(rows, parents, q) && Terminal(q) !in before
    ensures Enqueued(before, before, IdsOf(entries[..0]), IdsOf(entries), {}, faults, rows, parents)
    ensures Sources(entries[..0], faults) == []
  {
    assert IdsOf(entries[..0]) == {} && Kept({}, faults) == {};
    assert WithSources(before, {}, rows, parents) == before;
  }

  lemma OneMoreEnqueued(before: Injections, after: Injections, done: set<string>, all: set<string>, marked: set<string>,
                        r: string, faults: string -> Fault, rows: map<string, Row>, parents: Parents)
    requires Enqueued(before, after, done, all, marked, faults, rows, parents) && done + {r} <= all
    ensures Deliverable(rows, parents, r)
    ensures Enqueued(before, if Committed(faults(r)) then after[Terminal(r) := NewSource(rows, parents, r)] else after,
                     done + {r}, all, if faults(r) == NoFault then marked + {r} else marked, faults, rows, parents)
  {
    if Committed(faults(r)) {
      assert Kept(done + {r}, faults) == Kept(done, faults) + {r};
      OneMoreSource(before, Kept(done, faults), r, rows, parents);
    } else {
      assert Kept(done + {r}, faults) == Kept(done, faults);
    }
    assert Returned(done + {r}, faults) == Returned(done, faults) + if faults(r).NoFault? then {r} else {};
    hide WithSources, Kept, Returned, NewSource;
  }

  lemma AllEnqueued(
    before: Injections, after: Injections, all: set<string>, marked: set<string>, faults: string -> Fault,
    rows: map<string, Row>, parents: Parents)
    requires Enqueued(before, after, all, all, marked, faults, rows, parents)
    ensures after == WithSources(before, Kept(all, faults), rows, parents) && marked == Returned(all, faults)
  {
  }

  function NewSource(rows: map<string, Row>, parents: Parents, r: string): Injection
    requires Deliverable(rows, parents, r)
  {
    Injection(parents[rows[r].delegation].value, Pending)
  }

  /** The rounds whose enqueue commits. */
  function Kept(ids: set<string>, faults: string -> Fault): (kept: set<string>)
    ensures kept <= ids
  {
    set r | r in ids && Committed(faults(r))
  }

  /** The rounds whose enqueue returns, so that their record is marked as injected. */
  function Returned(ids: set<string>, faults: string -> Fault): set<string> {
    set r | r in ids && faults(r).NoFault?
  }

  /** The sources created for `entries`; an enqueue that raises is logged and the next round is tried. */
  function Sources(entries: seq<Entry>, faults: string -> Fault): seq<Event> {
    if entries == [] then []
    else
      var last := entries[|entries| - 1].id;
      Sources(entries[..|entries| - 1], faults) + if Committed(faults(last)) then [Source(last)] else []
  }

  lemma SourcesNext(entries: seq<Entry>, k: nat, faults: string -> Fault)
    requires k < |entries|
    ensures Sources(entries[..k + 1], faults) ==
            Sources(entries[..k], faults) + if Committed(faults(entries[k].id)) then [Source(entries[k].id)] else []
  {
    assert entries[..k + 1][..k] == entries[..k];
  }

  function Archives(entries: seq<Entry>): seq<Event> {
    if entries == [] then [] else Archives(entries[..|entries| - 1]) + [Archived(entries[|entries| - 1].id)]
  }

  /** The first `done` entries went well, and the one after them, if any, did not. */
  predicate UpTo(entries: seq<Entry>, done: nat, raises: set<string>) {
    && done <= |entries|
    && (forall k | 0 <= k < done :: entries[k].id !in raises)
    && (done < |entries| ==> entries[done].id in raises)
  }

  predicate LiveDepths(entries: seq<Entry>, live: Parents) {
    forall e | e in entries :: e == Entry(e.id, SessionDepth(live, e.id), 0, "")
  }

  predicate DepthsAre(entries: seq<Entry>, live: Parents, rows: map<string, Row>) {
    forall e | e in entries ::
      e.id in rows && e == Entry(e.id, SessionDepth(live, rows[e.id].delegation), rows[e.id].finishedAt, e.id)
  }

  /** A pending event once its session was looked for. */
  function Settled(i: Injection, gone: set<string>): Injection {
    i.(delivery := if i.session in gone then Unavailable else InTranscript)
  }

  function Delivered(injections: Injections, targets: set<string>, gone: set<string>): Injections {
    map k | k in injections ::
      if injections[k].delivery.Pending? && injections[k].session in targets then Settled(injections[k], gone)
      else injections[k]
  }

  predicate Materializes(injections: Injections, targets: set<string>, gone: set<string>, k: SourceKey) {
    && k in injections && injections[k].delivery.Pending?
    && injections[k].session in targets && injections[k].session !in gone
  }

  function Materials(keys: seq<SourceKey>): seq<Event> {
    if keys == [] then [] else Materials(keys[..|keys| - 1]) + [Materialized(keys[|keys| - 1])]
  }

  ghost predicate ArePending(before: Injections, pending: seq<SourceKey>, targets: set<string>) {
    && NoDuplicates(pending)
    && forall k :: k in pending <==> k in before && before[k].delivery.Pending? && before[k].session in targets
  }

  /** The events of `done` were looked at; `keys` are those whose session was there. */
  ghost predicate Placed(
    before: Injections, after: Injections, done: seq<SourceKey>, keys: seq<SourceKey>, gone: set<string>) {
    && after.Keys == before.Keys && NoDuplicates(keys) && (forall k | k in done :: k in before)
    && (forall k | k in before :: after[k] == if k in done then Settled(before[k], gone) else before[k])
    && (forall k :: k in keys <==> k in done && before[k].session !in gone)
  }

  lemma NothingPlaced(before: Injections, pending: seq<SourceKey>, gone: set<string>)
    ensures Placed(before, before, pending[..0], [], gone) && Materials([]) == []
  {
    assert pending[..0] == [];
  }

  lemma OneMorePlaced(before: Injections, after: Injections, pending: seq<SourceKey>, n: nat, keys: seq<SourceKey>,
                      targets: set<string>, gone: set<string>)
    requires n < |pending| && ArePending(before, pending, targets) && Placed(before, after, pending[..n], keys, gone)
    ensures var key := pending[n];
            && key in after && Settled(after[key], gone).session == before[key].session
            && Placed(before, after[key := Settled(after[key], gone)], pending[..n + 1],
                      if before[key].session in gone then keys else keys + [key], gone)
            && Materials(keys + [key]) == Materials(keys) + [Materialized(key)]
  {
    var key := pending[n];
    assert pending[..n + 1] == pending[..n] + [key] && key !in pending[..n];
    assert (keys + [key])[..|keys|] == keys;
  }

  lemma AllPlaced(
    before: Injections, after: Injections, pending: seq<SourceKey>, keys: seq<SourceKey>, targets: set<string>,
    gone: set<string>)
    requires Placed(before, after, pending, keys, gone) && ArePending(before, pending, targets)
    ensures after == Delivered(before, targets, gone)
    ensures NoDuplicates(keys) && forall k :: k in keys <==> Materializes(before, targets, gone, k)
  {
  }

  // ------------------------------------------------------------ a recovery in plain fields

  /**
    Running rounds are interrupted now and all others are as they were; a live session without rounds gets one
    interrupted round, and no other row is new.
   */
  ghost predicate PlainRows(before: map<string, Row>, after: map<string, Row>, live: set<string>, now: int) {
    && (forall r | r in before ::
          && r in after && after[r].delegation == before[r].delegation
          && (before[r].state.Running? ==> after[r].state.Interrupted? && after[r].finishedAt == now)
          && (!before[r].state.Running? ==> after[r] == before[r]))
    && (forall r | r in after && r !in before ::
          && after[r].delegation in live && after[r].state.Interrupted? && after[r].finishedAt == now
          && (forall q | q in after && q != r :: after[q].delegation != after[r].delegation))
    && (forall s | s in live :: exists r | r in after :: after[r].delegation == s)
  }

  /** What a pending event for `session` has come to. */
  function Outcome(session: string, live: set<string>, gone: set<string>): Delivery {
    if session !in live then Pending else if session in gone then Unavailable else InTranscript
  }

  /**
    A new row is the terminal event of a finished round, addressed to the session that asked for it; old rows keep their
    address, and only pending ones of live sessions change.
   */
  ghost predicate PlainDeliveries(
    before: Injections, after: Injections, rows: map<string, Row>, parents: Parents, live: set<string>,
    gone: set<string>)
  {
    && (forall k | k in before ::
          && k in after && after[k].session == before[k].session
          && after[k].delivery ==
             if before[k].delivery.Pending? then Outcome(before[k].session, live, gone) else before[k].delivery)
    && (forall k | k in after && k !in before ::
          && k.Terminal? && k.runId in rows && !rows[k.runId].state.Running?
          && rows[k.runId].delegation in parents
          && parents[rows[k.runId].delegation] == Some(after[k].session)
          && after[k].delivery == Outcome(after[k].session, live, gone))
  }

  function Rank(e: Event): nat {
    if e.Source? then 0 else if e.Materialized? then 1 else 2
  }

  /** The depth of the session an event is about. */
  function DepthOf(e: Event, rows: map<string, Row>, live: Parents): nat {
    match e
    case Source(r) => if r in rows then SessionDepth(live, rows[r].delegation) else 0
    case Materialized(_) => 0
    case Archived(s) => SessionDepth(live, s)
  }

  /** Sources before transcripts before archives, and sources and archives deepest first. */
  ghost predicate InPhases(events: seq<Event>, rows: map<string, Row>, live: Parents) {
    forall i, j | 0 <= i < j < |events| ::
      && Rank(events[i]) <= Rank(events[j])
      && (Rank(events[i]) == Rank(events[j]) ==> DepthOf(events[i], rows, live) >= DepthOf(events[j], rows, live))
  }

  /** The log names what happened. */
  ghost predicate PlainLog(
    events: seq<Event>, before: Injections, after: Injections, liveBefore: set<string>, liveAfter: set<string>)
  {
    && (forall r :: Source(r) in events <==> Terminal(r) in after && Terminal(r) !in before)
    && (forall k :: Materialized(k) in events <==>
          k in after && after[k].delivery.InTranscript? && (k in before ==> before[k].delivery.Pending?))
    && (forall s :: Archived(s) in events <==> s in liveBefore && s !in liveAfter)
  }

  lemma RowsArePlain(
    before: map<string, Row>, after: map<string, Row>, live: set<string>, now: int, newId: string -> string)
    requires FreshIds(before, newId) && RescuedBy(Terminalised(before, now), after, live, now, newId)
    requires forall s | s in live :: HasRuns(after, s)
    ensures PlainRows(before, after, live, now)
  {
    forall r | r in after && r !in before
      ensures forall q | q in after && q != r :: after[q].delegation != after[r].delegation
    {
      assert !HasRuns(Terminalised(before, now), after[r].delegation);
      forall q | q in after && q != r
        ensures after[q].delegation != after[r].delegation
      {
        if q in before {
          assert q in Terminalised(before, now);
        }
      }
    }
  }

  lemma DeliveriesArePlain(
    before: Injections, rows: map<string, Row>, parents: Parents, faults: string -> Fault, live: set<string>,
    gone: set<string>)
    ensures var sources := WithSources(before, Kept(Missing(rows, parents, before), faults), rows, parents);
            PlainDeliveries(before, Delivered(sources, live, gone), rows, parents, live, gone)
  {
  }

  lemma MarkedAreThose(rows: map<string, Row>, parents: Parents, before: Injections, faults: string -> Fault)
    requires forall r | r in rows :: !rows[r].state.Running?
    ensures forall r :: r in Returned(Missing(rows, parents, before), faults) <==>
              && r in rows && rows[r].delegation in parents && parents[rows[r].delegation].Some?
              && Terminal(r) !in before && faults(r).NoFault?
  {
  }

  lemma {:induction false} SourcesTell(entries: seq<Entry>, faults: string -> Fault)
    ensures forall e :: e in Sources(entries, faults) <==>
              e.Source? && Committed(faults(e.runId)) && e.runId in IdsOf(entries)
  {
    if entries != [] {
      var n := |entries| - 1;
      SourcesTell(entries[..n], faults);
      SourcesNext(entries, n, faults);
      IdsOfNext(entries, n);
      assert entries[..n + 1] == entries;
      hide Sources, IdsOf, Committed;
    }
  }

  lemma {:induction false} SourcesDescend(
    entries: seq<Entry>, faults: string -> Fault, rows: map<string, Row>, live: Parents)
    requires Descending(entries) && DepthsAre(entries, live, rows)
    ensures InPhases(Sources(entries, faults), rows, live)
  {
    if entries != [] {
      var n := |entries| - 1;
      SourcesDescend(entries[..n], faults, rows, live);
      SourcesTell(entries[..n], faults);
      SourcesNext(entries, n, faults);
      assert entries[..n + 1] == entries;
      hide Sources, SessionDepth, Committed;
      forall e | e in Sources(entries[..n], faults)
        ensures DepthOf(e, rows, live) >= DepthOf(Source(entries[n].id), rows, live)
      {
        var x :| x in entries[..n] && x.id == e.runId;
        var i :| 0 <= i < n && entries[i] == x;
        DescendingAt(entries, i, n);
        assert x in entries && entries[n] in entries;
      }
      hide IdsOf;
      if Committed(faults(entries[n].id)) {
        OneMoreInPhase(Sources(entries[..n], faults), Source(entries[n].id), rows, live);
      }
    }
  }

  lemma OneMoreInPhase(events: seq<Event>, last: Event, rows: map<string, Row>, live: Parents)
    requires InPhases(events, rows, live)
    requires forall e | e in events :: Rank(e) == Rank(last) && DepthOf(e, rows, live) >= DepthOf(last, rows, live)
    ensures InPhases(events + [last], rows, live)
  {
    hide DepthOf, Rank;
  }

  lemma {:induction false} ArchivesTell(entries: seq<Entry>, rows: map<string, Row>, live: Parents)
    requires Descending(entries) && LiveDepths(entries, live)
    ensures forall e :: e in Archives(entries) <==> e.Archived? && e.session in IdsOf(entries)
    ensures InPhases(Archives(entries), rows, live)
  {
    if entries != [] {
      var n := |entries| - 1;
      ArchivesTell(entries[..n], rows, live);
      IdsOfNext(entries, n);
      assert entries[..n + 1] == entries;
      hide SessionDepth;
      forall e | e in Archives(entries[..n])
        ensures DepthOf(e, rows, live) >= DepthOf(Archived(entries[n].id), rows, live)
      {
        var x :| x in entries[..n] && x.id == e.session;
        var i :| 0 <= i < n && entries[i] == x;
        DescendingAt(entries, i, n);
        assert x in entries && entries[n] in entries;
      }
      OneMoreInPhase(Archives(entries[..n]), Archived(entries[n].id), rows, live);
      hide IdsOf;
    }
  }

  lemma {:induction false} MaterialsTell(keys: seq<SourceKey>, rows: map<string, Row>, live: Parents)
    ensures forall e :: e in Materials(keys) <==> e.Materialized? && e.key in keys
    ensures InPhases(Materials(keys), rows, live)
  {
    if keys != [] {
      var n := |keys| - 1;
      MaterialsTell(keys[..n], rows, live);
      assert keys[..n] + [keys[n]] == keys;
      OneMoreInPhase(Materials(keys[..n]), Materialized(keys[n]), rows, live);
    }
  }

  lemma PhasesFollow(a: seq<Event>, b: seq<Event>, rows: map<string, Row>, live: Parents)
    requires InPhases(a, rows, live) && InPhases(b, rows, live)
    requires forall e, f | e in a && f in b :: Rank(e) < Rank(f)
    ensures InPhases(a + b, rows, live)
  {
    hide DepthOf, Rank;
    forall i, j | 0 <= i < j < |a + b|
      ensures Rank((a + b)[i]) <= Rank((a + b)[j])
      ensures Rank((a + b)[i]) == Rank((a + b)[j]) ==>
                DepthOf((a + b)[i], rows, live) >= DepthOf((a + b)[j], rows, live)
    {
      if i < |a| <= j {
        assert a[i] in a && b[j - |a|] in b;
      }
    }
  }

  lemma LogIsPlain(
    order: seq<Entry>, keys: seq<SourceKey>, archived: seq<Entry>, done: nat, faults: string -> Fault,
    before: Injections, rows: map<string, Row>, parents: Parents, live: Parents, gone: set<string>)
    requires Descending(order) && Lists(order, Missing(rows, parents, before)) && DepthsAre(order, live, rows)
    requires done <= |archived| && Descending(archived) && Lists(archived, live.Keys) && LiveDepths(archived, live)
    requires forall k :: k in keys <==>
               Materializes(WithSources(before, Kept(Missing(rows, parents, before), faults), rows, parents),
                            live.Keys, gone, k)
    ensures var events := Sources(order, faults) + Materials(keys) + Archives(archived[..done]);
            var sources := WithSources(before, Kept(Missing(rows, parents, before), faults), rows, parents);
            && InPhases(events, rows, live)
            && PlainLog(events, before, Delivered(sources, live.Keys, gone), live.Keys,
                        live.Keys - IdsOf(archived[..done]))
  {
    SourcesTell(order, faults);
    SourcesDescend(order, faults, rows, live);
    MaterialsTell(keys, rows, live);
    PrefixListsLive(archived, done, live);
    ArchivesTell(archived[..done], rows, live);
    assert IdsOf(order) == Missing(rows, parents, before);
    NewSourcesAre(before, rows, parents, faults, live.Keys, gone);
    TranscriptsAre(before, rows, parents, faults, live.Keys, gone);
    hide *;
    PhasesFollow(Sources(order, faults), Materials(keys), rows, live) by { RanksDiffer(); }
    PhasesFollow(Sources(order, faults) + Materials(keys), Archives(archived[..done]), rows, live) by { RanksDiffer(); }
    var sources := WithSources(before, Kept(Missing(rows, parents, before), faults), rows, parents);
    PlainFromParts(Sources(order, faults), Materials(keys), Archives(archived[..done]), before,
                   Delivered(sources, live.Keys, gone), live.Keys, live.Keys - IdsOf(archived[..done]));
  }

  lemma RanksDiffer()
    ensures forall e: Event, f: Event | e.Source? && f.Materialized? :: Rank(e) < Rank(f)
    ensures forall e: Event, f: Event | !e.Archived? && f.Archived? :: Rank(e) < Rank(f)
  {
  }

  lemma PlainFromParts(
    a: seq<Event>, b: seq<Event>, c: seq<Event>, before: Injections, after: Injections, live: set<string>,
    left: set<string>)
    requires forall e :: e in a <==> e.Source? && Terminal(e.runId) in after && Terminal(e.runId) !in before
    requires forall e :: e in b <==>
               (&& e.Materialized? && e.key in after && after[e.key].delivery.InTranscript?
                && (e.key in before ==> before[e.key].delivery.Pending?))
    requires forall e :: e in c <==> e.Archived? && e.session in live && e.session !in left
    ensures PlainLog(a + b + c, before, after, live, left)
  {
  }

  ghost predicate PlainSources(
    before: Injections, after: Injections, rows: map<string, Row>, parents: Parents, faults: string -> Fault)
  {
    && (forall k | k in before :: k in after && after[k] == before[k])
    && (forall k | k in after && k !in before ::
          && k.Terminal? && k.runId in rows && !rows[k.runId].state.Running?
          && rows[k.runId].delegation in parents
          && parents[rows[k.runId].delegation] == Some(after[k].session)
          && after[k].delivery.Pending?)
    && (forall r | r in rows && !rows[r].state.Running? && rows[r].delegation in parents
                   && parents[rows[r].delegation].Some? && faults(r) != BeforeCommit ::
          Terminal(r) in after)
  }

  lemma SourcesArePlain(before: Injections, rows: map<string, Row>, parents: Parents, faults: string -> Fault)
    ensures PlainSources(before, WithSources(before, Kept(Missing(rows, parents, before), faults), rows, parents),
                         rows, parents, faults)
  {
    var after := WithSources(before, Kept(Missing(rows, parents, before), faults), rows, parents);
    forall r | r in rows && !rows[r].state.Running? && rows[r].delegation in parents
               && parents[rows[r].delegation].Some? && faults(r) != BeforeCommit
      ensures Terminal(r) in after
    {
      if Terminal(r) !in before {
        assert r in Missing(rows, parents, before);
      }
    }
  }

  lemma NewSourcesAre(
    before: Injections, rows: map<string, Row>, parents: Parents, faults: string -> Fault, live: set<string>,
    gone: set<string>)
    ensures var sources := WithSources(before, Kept(Missing(rows, parents, before), faults), rows, parents);
            forall r :: r in Missing(rows, parents, before) && Committed(faults(r)) <==>
              Terminal(r) in Delivered(sources, live, gone) && Terminal(r) !in before
  {
  }

  lemma TranscriptsAre(
    before: Injections, rows: map<string, Row>, parents: Parents, faults: string -> Fault, live: set<string>,
    gone: set<string>)
    ensures var sources := WithSources(before, Kept(Missing(rows, parents, before), faults), rows, parents);
            var after := Delivered(sources, live, gone);
            forall k :: Materializes(sources, live, gone, k) <==>
              k in after && after[k].delivery.InTranscript? && (k in before ==> before[k].delivery.Pending?)
  {
  }

  lemma PrefixListsLive(archived: seq<Entry>, done: nat, live: Parents)
    requires done <= |archived| && Descending(archived) && Lists(archived, live.Keys) && LiveDepths(archived, live)
    ensures Descending(archived[..done]) && LiveDepths(archived[..done], live)
    ensures IdsOf(archived[..done]) <= live.Keys
  {
    hide SessionDepth, NotAfter;
  }

  // ------------------------------------------------------------ the manager

  class DelegationManager {
    var rows: map<string, Row>
    var parents: Parents        // sessions.parent_session_id, archived sessions included
    var live: Parents           // live sessions with origin 'delegation'
    var injections: Injections
    var log: seq<Event>

    /** Foreign keys, and memory freshly loaded from the tables. */
    ghost predicate Valid() reads this {
      && (forall r | r in rows :: rows[r].delegation in parents)
      && (forall s | s in live :: s in parents && live[s] == parents[s])
    }

    /** Phase 1a: no delegated process survives the server. */
    method TerminaliseRuns(now: int)
      requires Valid()
      modifies this`rows
      ensures Valid() && rows == Terminalised(old(rows), now)
    {
      var running := Enumerate(set r | r in rows && rows[r].state == Running);
      var k := 0;
      while k < |running|
        invariant 0 <= k <= |running|
        invariant rows.Keys == old(rows).Keys
        invariant forall r | r in rows :: rows[r] ==
                    if r in running[..k] then Row(old(rows)[r].delegation, Interrupted, now) else old(rows)[r]
      {
        var r := running[k];
        assert r in running;
        if rows[r].state == Running {
          rows := rows[r := rows[r].(state := Interrupted, finishedAt := now)];
        }
        assert running[..k + 1] == running[..k] + [r];
        k := k + 1;
      }
      assert running[..k] == running;
    }

    /** Phase 1b: a live delegation from before the ledger gets one interrupted round. */
    method RescueLegacySessions(now: int, newId: string -> string)
      requires Valid() && FreshIds(rows, newId)
      modifies this`rows
      ensures Valid() && RescuedBy(old(rows), rows, live.Keys, now, newId)
    {
      var sessions := Enumerate(live.Keys);
      var k := 0;
      hide FreshIds, RescuedBy;
      NothingRescuedYet(rows, now, newId);
      assert Elements(sessions[..0]) == {};
      while k < |sessions|
        invariant 0 <= k <= |sessions| && Valid()
        invariant RescuedBy(old(rows), rows, Elements(sessions[..k]), now, newId)
      {
        var s := sessions[k];
        assert s in sessions && s !in sessions[..k];
        assert Elements(sessions[..k + 1]) == Elements(sessions[..k]) + {s};
        OneMoreRescued(old(rows), rows, Elements(sessions[..k]), s, now, newId);
        if !HasRuns(rows, s) {
          rows := rows[newId(s) := Row(s, Interrupted, now)];
        }
        k := k + 1;
      }
      assert Elements(sessions[..k]) == live.Keys;
    }

    /**
      Phase 2: create every missing terminal source, deepest first; nothing is archived here. `marked` are the rounds
      whose record says so afterwards.
     */
    method RepairSources(faults: string -> Fault) returns (ghost order: seq<Entry>, marked: set<string>)
      requires Valid()
      modifies this`injections, this`log
      ensures Descending(order) && Lists(order, Missing(rows, parents, old(injections))) && DepthsAre(order, live, rows)
      ensures log == old(log) + Sources(order, faults)
      ensures injections ==
              WithSources(old(injections), Kept(Missing(rows, parents, old(injections)), faults), rows, parents)
      ensures marked == Returned(Missing(rows, parents, old(injections)), faults)
      // In plain fields: a new row tells the asking session of a finished round; none is forgotten, no old one changes.
      ensures PlainSources(old(injections), injections, rows, parents, faults)
    {
      SourcesArePlain(injections, rows, parents, faults);
      var entries := ListMissing();
      var sorted := SortDeepestFirst(entries);
      SortedLists(entries, sorted);
      order := sorted;
      marked := CreateSources(sorted, faults);
    }

    /** _inject_terminal(archive=False) for every listed round; what raises is logged. */
    method CreateSources(entries: seq<Entry>, faults: string -> Fault) returns (marked: set<string>)
      requires forall r | r in IdsOf(entries) :: Deliverable(rows, parents, r) && Terminal(r) !in injections
      modifies this`injections, this`log
      ensures log == old(log) + Sources(entries, faults)
      ensures injections == WithSources(old(injections), Kept(IdsOf(entries), faults), rows, parents)
      ensures marked == Returned(IdsOf(entries), faults)
    {
      ghost var before, logged, all := injections, log, IdsOf(entries);
      var k := 0;
      marked := {};
      NothingEnqueued(before, entries, faults, rows, parents);
      hide *;
      while k < |entries|
        invariant 0 <= k <= |entries|
        invariant log == logged + Sources(entries[..k], faults)
        invariant Enqueued(before, injections, IdsOf(entries[..k]), all, marked, faults, rows, parents)
      {
        var r := entries[k].id;
        IdsOfNext(entries, k);
        SourcesNext(entries, k, faults);
        OneMoreEnqueued(before, injections, IdsOf(entries[..k]), all, marked, r, faults, rows, parents);
        if Committed(faults(r)) {
          injections := injections[Terminal(r) := NewSource(rows, parents, r)];
          log := log + [Source(r)];
        }
        if faults(r) == NoFault {
          marked := marked + {r};
        }
        k := k + 1;
      }
      assert entries[..k] == entries;
      AllEnqueued(before, injections, all, marked, faults, rows, parents);
    }

    method ListMissing() returns (entries: seq<Entry>)
      requires Valid()
      ensures Lists(entries, Missing(rows, parents, injections)) && DepthsAre(entries, live, rows)
    {
      var ids := Enumerate(Missing(rows, parents, injections));
      entries := [];
      for n := 0 to |ids|
        invariant |entries| == n && forall i | 0 <= i < n :: entries[i].id == ids[i]
        invariant DepthsAre(entries, live, rows)
      {
        assert ids[n] in ids;
        var depth := WalkDepth(rows[ids[n]].delegation);
        entries := entries + [Entry(ids[n], depth, rows[ids[n]].finishedAt, ids[n])];
      }
      EntriesOf(ids, entries);
    }

    /** session_depth: terminates on any pointers, cyclic ones included. */
    method WalkDepth(session: string) returns (depth: nat)
      ensures depth == SessionDepth(live, session)
    {
      depth := 0;
      var parent := if session in live then live[session] else None;
      var seen: set<string> := {};
      while parent.Some? && parent.value in live && parent.value !in seen
        invariant depth + Depth(live, parent, seen) == SessionDepth(live, session)
        decreases live.Keys - seen
      {
        seen := seen + {parent.value};
        depth := depth + 1;
        parent := live[parent.value];
      }
    }

    /**
      Phase 3: pending events for recovered sessions go into their transcripts without reviving a turn; for a session
      that is not in memory any more (`gone`) they fail.
     */
    method MaterializePending(gone: set<string>) returns (ghost keys: seq<SourceKey>)
      modifies this`injections, this`log
      ensures injections == Delivered(old(injections), live.Keys, gone)
      ensures NoDuplicates(keys) && forall k :: k in keys <==> Materializes(old(injections), live.Keys, gone, k)
      ensures log == old(log) + Materials(keys)
    {
      keys := [];
      ghost var before, logged := injections, log;
      var pending := ListPending();
      NothingPlaced(before, pending, gone);
      hide *;
      var n := 0;
      while n < |pending|
        invariant 0 <= n <= |pending|
        invariant Placed(before, injections, pending[..n], keys, gone) && log == logged + Materials(keys)
      {
        var key := pending[n];
        OneMorePlaced(before, injections, pending, n, keys, live.Keys, gone);
        injections := injections[key := Settled(injections[key], gone)];
        if injections[key].session !in gone {
          log, keys := log + [Materialized(key)], keys + [key];
        }
        n := n + 1;
      }
      assert pending[..n] == pending;
      AllPlaced(before, injections, pending, keys, live.Keys, gone);
    }

    method ListPending() returns (pending: seq<SourceKey>)
      ensures ArePending(injections, pending, live.Keys)
    {
      pending := Enumerate(set k | k in injections && injections[k].delivery.Pending? && injections[k].session in live);
    }

    /** Phase 4: archive the recovered sessions, deepest first, until one archive raises. */
    method ArchiveRecovered(raises: set<string>) returns (ghost order: seq<Entry>, ghost done: nat, finished: bool)
      modifies this`live, this`log
      ensures Descending(order) && Lists(order, old(live).Keys) && LiveDepths(order, old(live))
      ensures UpTo(order, done, raises) && (finished <==> done == |order|)
      ensures live == old(live) - IdsOf(order[..done]) && (finished ==> live == map[])
      ensures log == old(log) + Archives(order[..done])
    {
      var entries := ListLive();
      var sorted := SortDeepestFirst(entries);
      SortedLists(entries, sorted);
      order := sorted;
      hide Descending;
      var k := ArchiveAll(sorted, raises);
      done, finished := k, k == |sorted|;
      if finished {
        assert sorted[..k] == sorted;
        assert live.Keys == old(live).Keys - IdsOf(sorted);
      }
    }

    method ListLive() returns (entries: seq<Entry>)
      ensures Lists(entries, live.Keys) && LiveDepths(entries, live)
    {
      var ids := Enumerate(live.Keys);
      entries := [];
      for n := 0 to |ids|
        invariant |entries| == n && forall i | 0 <= i < n :: entries[i].id == ids[i]
        invariant LiveDepths(entries, live)
      {
        var depth := WalkDepth(ids[n]);
        entries := entries + [Entry(ids[n], depth, 0, "")];
      }
      EntriesOf(ids, entries);
    }

    method ArchiveAll(entries: seq<Entry>, raises: set<string>) returns (done: nat)
      modifies this`live, this`log
      ensures UpTo(entries, done, raises)
      ensures live == old(live) - IdsOf(entries[..done])
      ensures log == old(log) + Archives(entries[..done])
    {
      done := 0;
      assert IdsOf(entries[..0]) == {};
      while done < |entries| && entries[done].id !in raises
        invariant 0 <= done <= |entries|
        invariant forall k | 0 <= k < done :: entries[k].id !in raises
        invariant log == old(log) + Archives(entries[..done])
        invariant live == old(live) - IdsOf(entries[..done])
        decreases |entries| - done
      {
        assert entries[..done + 1][..done] == entries[..done];
        IdsOfNext(entries, done);
        live := live - {entries[done].id};
        log := log + [Archived(entries[done].id)];
        done := done + 1;
      }
    }

    /**
      The whole recovery, with injection dispatch paused. `faults` says how the enqueue of each round ends, `gone` are
      sessions that leave memory meanwhile, `badSessions` those whose archive raises, which ends the recovery.
     */
    method RecoverInterrupted(
      now: int, newId: string -> string, faults: string -> Fault, gone: set<string>, badSessions: set<string>)
      returns (ghost order: seq<Entry>, marked: set<string>, ghost archived: seq<Entry>, ghost done: nat,
        finished: bool)
      requires Valid() && FreshIds(rows, newId)
      modifies this
      ensures parents == old(parents)
      ensures forall r | r in rows :: !rows[r].state.Running?
      ensures RescuedBy(Terminalised(old(rows), now), rows, old(live).Keys, now, newId)
      ensures forall s | s in old(live) :: HasRuns(rows, s)
      ensures forall r | Deliverable(rows, parents, r) ::
                Terminal(r) in injections <==> Terminal(r) in old(injections) || Committed(faults(r))
      ensures marked == Returned(Missing(rows, parents, old(injections)), faults)
      ensures injections == Delivered(
                WithSources(old(injections), Kept(Missing(rows, parents, old(injections)), faults), rows, parents),
                old(live).Keys, gone)
      ensures Descending(order) && Lists(order, Missing(rows, parents, old(injections))) &&
              DepthsAre(order, old(live), rows)
      ensures Descending(archived) && Lists(archived, old(live).Keys) && LiveDepths(archived, old(live))
      ensures UpTo(archived, done, badSessions) && (finished <==> done == |archived|)
      ensures live == old(live) - IdsOf(archived[..done]) && (finished ==> live == map[])
      ensures exists keys ::
                && log == old(log) + Sources(order, faults) + Materials(keys) + Archives(archived[..done])
                && NoDuplicates(keys)
      // In plain fields.
      ensures PlainRows(old(rows), rows, old(live).Keys, now)
      ensures PlainDeliveries(old(injections), injections, rows, parents, old(live).Keys, gone)
      ensures forall r :: r in marked <==>
                && r in rows && rows[r].delegation in parents && parents[rows[r].delegation].Some?
                && Terminal(r) !in old(injections) && faults(r).NoFault?
      ensures old(log) <= log && InPhases(log[|old(log)|..], rows, old(live))
      ensures PlainLog(log[|old(log)|..], old(injections), injections, old(live).Keys, live.Keys)
    {
      hide Valid, FreshIds, RescuedBy, Terminalised, Missing, WithSources, Delivered, Materializes, Deliverable,
        HasRuns;
      hide Descending, DepthsAre, LiveDepths, Lists, Kept, Returned, Sources, Materials, Archives;
      hide PlainRows, PlainDeliveries, PlainLog, InPhases;
      ghost var live0, log0, before := live, log, injections;
      TerminaliseAndRescue(now, newId);
      NothingMissing(rows, parents, injections, faults, live.Keys, gone);
      DeliveriesArePlain(injections, rows, parents, faults, live.Keys, gone);
      MarkedAreThose(rows, parents, injections, faults);
      order, marked := RepairSources(faults);
      ghost var keys := MaterializePending(gone);
      archived, done, finished := ArchiveRecovered(badSessions);
      LogIsPlain(order, keys, archived, done, faults, before, rows, parents, live0, gone);
      ghost var events := Sources(order, faults) + Materials(keys) + Archives(archived[..done]);
      assert log == log0 + Sources(order, faults) + Materials(keys) + Archives(archived[..done]);
      assert log == log0 + events;
      assert log[|log0|..] == events;
    }

    /** Phase 1. */
    method TerminaliseAndRescue(now: int, newId: string -> string)
      requires Valid() && FreshIds(rows, newId)
      modifies this`rows
      ensures Valid() && (forall r | r in rows :: !rows[r].state.Running?)
      ensures RescuedBy(Terminalised(old(rows), now), rows, live.Keys, now, newId)
      ensures forall s | s in live :: HasRuns(rows, s)
      ensures PlainRows(old(rows), rows, live.Keys, now)
    {
      TerminaliseRuns(now);
      assert forall r | r in rows :: !rows[r].state.Running?;
      RescueLegacySessions(now, newId);
      RescuedHaveRuns(Terminalised(old(rows), now), rows, live.Keys, now, newId);
      RowsArePlain(old(rows), rows, live.Keys, now, newId);
    }
  }

  /**
    Once no round is running, the missing sources are all there is to repair: what is then still missing did not
    commit.
   */
  lemma NothingMissing(
    rows: map<string, Row>, parents: Parents, before: Injections, faults: string -> Fault, targets: set<string>,
    gone: set<string>)
    requires forall r | r in rows :: !rows[r].state.Running?
    ensures forall r | Deliverable(rows, parents, r) ::
              var sources := WithSources(before, Kept(Missing(rows, parents, before), faults), rows, parents);
              Terminal(r) in Delivered(sources, targets, gone) <==> Terminal(r) in before || Committed(faults(r))
  {
  }

  /**
    A marked round has its source; an enqueue that raised tells nothing: after it the source is there, or it is not.
   */
  lemma OnlyReturnsTell(rows: map<string, Row>, parents: Parents, before: Injections, r: string)
    requires r in Missing(rows, parents, before)
    ensures forall faults | r in Returned(Missing(rows, parents, before), faults) ::
              Terminal(r) in WithSources(before, Kept(Missing(rows, parents, before), faults), rows, parents)
    ensures exists f, g ::
              && r !in Returned(Missing(rows, parents, before), f) && r !in Returned(Missing(rows, parents, before), g)
              && Terminal(r) in WithSources(before, Kept(Missing(rows, parents, before), f), rows, parents)
              && Terminal(r) !in WithSources(before, Kept(Missing(rows, parents, before), g), rows, parents)
  {
    forall faults
      ensures r in Returned(Missing(rows, parents, before), faults) <==> faults(r).NoFault?
      ensures Terminal(r) in WithSources(before, Kept(Missing(rows, parents, before), faults), rows, parents) <==>
              Committed(faults(r))
    {
      SourceIfCommitted(rows, parents, before, r, faults);
    }
    hide *;
    var f: string -> Fault, g: string -> Fault := _ => AfterCommit, _ => BeforeCommit;
    assert f(r) == AfterCommit && g(r) == BeforeCommit;
    assert Committed(AfterCommit) && Committed(NoFault) && !Committed(BeforeCommit) by { CommittedFaults(); }
  }

  lemma CommittedFaults()
    ensures Committed(AfterCommit) && Committed(NoFault) && !Committed(BeforeCommit)
  {
  }

  lemma SourceIfCommitted(
    rows: map<string, Row>, parents: Parents, before: Injections, r: string, faults: string -> Fault)
    requires r in Missing(rows, parents, before)
    ensures r in Returned(Missing(rows, parents, before), faults) <==> faults(r).NoFault?
    ensures Terminal(r) in WithSources(before, Kept(Missing(rows, parents, before), faults), rows, parents) <==>
            Committed(faults(r))
  {
    hide Committed;
  }

  lemma FirstIsSame(a: seq<Entry>, b: seq<Entry>)
    requires Descending(a) && Descending(b) && multiset(a) == multiset(b) && a != []
    requires forall i, j | 0 <= i < j < |a| :: a[i].tie != a[j].tie
    ensures b != [] && a[0] == b[0]
  {
    assert |multiset(a)| == |a| && |multiset(b)| == |b|;
    assert a[0] in multiset(a) && b[0] in multiset(b);
    var i :| 0 <= i < |a| && a[i] == b[0];
    var j :| 0 <= j < |b| && b[j] == a[0];
    NotAfterIsAnOrder(a[0], b[0], b[0]);
    hide NotAfter;
    DescendingAt(a, 0, i);
    DescendingAt(b, 0, j);
  }

  lemma RestOfBoth(a: seq<Entry>, b: seq<Entry>)
    requires a != [] && b != [] && a[0] == b[0] && multiset(a) == multiset(b)
    ensures multiset(a[1..]) == multiset(b[1..])
  {
    assert a == [a[0]] + a[1..] && b == [b[0]] + b[1..];
    assert multiset(a[1..]) == multiset(a) - multiset{a[0]};
    assert multiset(b[1..]) == multiset(b) - multiset{b[0]};
  }

  lemma RestDescends(a: seq<Entry>)
    requires Descending(a) && a != []
    ensures Descending(a[1..])
  {
    hide NotAfter;
  }

  /** With the run as last key the order of the repairs is settled: no two lists of the same rounds are descending. */
  lemma {:induction false} RepairOrderIsUnique(a: seq<Entry>, b: seq<Entry>)
    requires Descending(a) && Descending(b) && multiset(a) == multiset(b)
    requires forall i, j | 0 <= i < j < |a| :: a[i].tie != a[j].tie
    ensures a == b
  {
    if a == [] {
      assert |multiset(b)| == |b|;
    } else {
      FirstIsSame(a, b);
      RestOfBoth(a, b);
      RestDescends(a);
      RestDescends(b);
      hide *;
      RepairOrderIsUnique(a[1..], b[1..]);
      assert a == [a[0]] + a[1..] && b == [b[0]] + b[1..];
    }
  }

  lemma EntriesOf(ids: seq<string>, entries: seq<Entry>)
    requires |entries| == |ids| && forall i | 0 <= i < |ids| :: entries[i].id == ids[i]
    ensures IdsOf(entries) == Elements(ids)
  {
  }

  /** Child before ancestor: a source is never created before that of a round below it. */
  lemma DescendantsFirst(
    live: Parents, rows: map<string, Row>, order: seq<Entry>, path: seq<string>, i: nat, j: nat, a: nat)
    requires Descending(order)
    requires DepthsAre(order, live, rows)
    requires i < |order| && j < |order|
    requires LiveChain(live, path) && 0 < a < |path|
    requires rows[order[i].id].delegation == path[a] && rows[order[j].id].delegation == path[0]
    ensures j < i
  {
    AncestorsAreShallower(live, path, 0);
    AncestorsAreShallower(live, path, a);
    assert order[i] in order && order[j] in order;
    DescendingAt(order, i, j);
  }
}
