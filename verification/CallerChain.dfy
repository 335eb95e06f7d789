/**
  The cycle and depth guards of server/delegations.py: the bounded upward walk
  that decides whether a session may delegate, and the session forests that can
  grow under it.
 */
module CallerChain {
  import opened Base

  const SAFETY_CAP := 64
  const DEPTH_CAP := 3

  /** `delegation` is origin == 'delegation'; an empty agent id counts as none. */
  datatype Session = Session(agent: Option<string>, delegation: bool, parent: Option<string>) {
    predicate Runs(agentId: string) { agentId != "" && agent == Some(agentId) }
  }

  type Sessions = map<string, Session>

  datatype Rejection = SessionCycle | MissingSession | ChainTooLong | AgentCycle | TooDeep

  // ------------------------------------------------------------ caller chains

  /** Distinct resolvable sessions, each the parent of the one before it. */
  ghost predicate Climb(known: Sessions, path: seq<string>) {
    && path != []
    && (forall k | 0 <= k < |path| :: path[k] in known)
    && (forall k | 0 < k < |path| :: known[path[k - 1]].parent == Some(path[k]))
    && NoDuplicates(path)
  }

  /** A climb that reaches a session without a parent. */
  ghost predicate Chain(known: Sessions, start: string, path: seq<string>) {
    Climb(known, path) && path[0] == start && known[path[|path| - 1]].parent == None
  }

  function Hops(known: Sessions, path: seq<string>): (n: nat)
    requires forall k | 0 <= k < |path| :: path[k] in known
    ensures n <= |path|
  {
    if path == [] then 0
    else Hops(known, path[..|path| - 1]) + if known[path[|path| - 1]].delegation then 1 else 0
  }

  ghost predicate Avoids(known: Sessions, path: seq<string>, agent: string)
    requires forall k | 0 <= k < |path| :: path[k] in known
  {
    forall k | 0 <= k < |path| :: !known[path[k]].Runs(agent)
  }

  /** What the guard is for: a whole, short enough chain that avoids the target and leaves a hop to spare. */
  ghost predicate MayDelegate(known: Sessions, parent: string, target: string) {
    exists path :: Chain(known, parent, path) && |path| < SAFETY_CAP && Avoids(known, path, target)
                   && Hops(known, path) + 1 <= DEPTH_CAP
  }

  /** The walk from `parent` has seen these sessions and is about to look at `next`. */
  ghost predicate Walked(known: Sessions, parent: string, climb: seq<string>, next: string) {
    if climb == [] then next == parent
    else Climb(known, climb) && climb[0] == parent && known[climb[|climb| - 1]].parent == Some(next)
  }

  /** A pointer on the walked path leads to a session that is neither in memory nor stored. */
  ghost predicate Dangles(known: Sessions, parent: string) {
    exists climb, next :: Walked(known, parent, climb, next) && |climb| < SAFETY_CAP && next !in known
  }

  /** What each outcome of the walk says about the chain. */
  ghost predicate Verdict(known: Sessions, parent: string, target: string, rejected: Option<Rejection>) {
    && (rejected.None? <==> MayDelegate(known, parent, target))
    && (rejected == Some(MissingSession) ==> Dangles(known, parent))
    && (rejected == Some(SessionCycle) ==> exists climb, next :: Walked(known, parent, climb, next) && next in climb)
    && (rejected == Some(ChainTooLong) ==>
          exists climb :: Climb(known, climb) && climb[0] == parent && |climb| == SAFETY_CAP)
    && (rejected == Some(AgentCycle) ==> exists path :: Chain(known, parent, path) && !Avoids(known, path, target))
    && (rejected == Some(TooDeep) ==>
          exists path :: Chain(known, parent, path) && Avoids(known, path, target) && Hops(known, path) >= DEPTH_CAP)
  }

  /** A climb that cannot go on: at a session without a parent, or whose parent is nowhere. */
  ghost predicate Ends(known: Sessions, path: seq<string>) {
    && Climb(known, path)
    && (var last := known[path[|path| - 1]]; last.parent.None? || last.parent.value !in known)
  }

  /** Pointers are a function, so a climb is a prefix of the one that ends. */
  lemma {:induction false} ClimbIsPrefix(known: Sessions, climb: seq<string>, path: seq<string>)
    requires Climb(known, climb) && Ends(known, path) && path[0] == climb[0]
    ensures |climb| <= |path| && climb == path[..|climb|]
  {
    if |climb| > 1 {
      var init := climb[..|climb| - 1];
      ClimbIsPrefix(known, init, path);
      var k := |init|;
      assert known[path[k - 1]].parent == Some(climb[k]);
      assert climb == init + [climb[k]];
    }
  }

  lemma ChainIsUnique(known: Sessions, start: string, p: seq<string>, q: seq<string>)
    requires Chain(known, start, p) && Chain(known, start, q)
    ensures p == q
  {
    ClimbIsPrefix(known, p, q);
    ClimbIsPrefix(known, q, p);
  }

  // ------------------------------------------------------------ in plain fields

  /** A session as the walk reads it: from memory, else from its row, live or archived. */
  function Found(live: Sessions, stored: Sessions, s: string): Option<Session> {
    if s in live then Some(live[s]) else if s in stored then Some(stored[s]) else None
  }

  /** From `parent`, by pointers and through no session twice, to one without a pointer. */
  ghost predicate PlainChain(live: Sessions, stored: Sessions, parent: string, path: seq<string>) {
    && path != [] && path[0] == parent
    && (forall i, j | 0 <= i < j < |path| :: path[i] != path[j])
    && (forall k | 0 <= k < |path| :: Found(live, stored, path[k]).Some?)
    && (forall k | 0 < k < |path| :: Found(live, stored, path[k - 1]).value.parent == Some(path[k]))
    && Found(live, stored, path[|path| - 1]).value.parent == None
  }

  /** The target's agent already runs one of the sessions. */
  predicate OnPath(live: Sessions, stored: Sessions, path: seq<string>, target: string) {
    target != "" && exists k | 0 <= k < |path| ::
                      Found(live, stored, path[k]).Some? && Found(live, stored, path[k]).value.agent == Some(target)
  }

  /** Where on the path a session was delegated to. */
  function DelegationsOn(live: Sessions, stored: Sessions, path: seq<string>): set<nat> {
    set k: nat | k < |path| && Found(live, stored, path[k]).Some? && Found(live, stored, path[k]).value.delegation
  }

  ghost predicate PlainlyAccepted(live: Sessions, stored: Sessions, parent: string, target: string) {
    exists path ::
      && PlainChain(live, stored, parent, path) && |path| < 64
      && !OnPath(live, stored, path, target) && |DelegationsOn(live, stored, path)| + 1 <= 3
  }

  lemma FoundIsKnown(live: Sessions, stored: Sessions, s: string)
    ensures Found(live, stored, s) == if s in stored + live then Some((stored + live)[s]) else None
  {
  }

  lemma ChainIsPlain(live: Sessions, stored: Sessions, parent: string, path: seq<string>)
    ensures PlainChain(live, stored, parent, path) <==> Chain(stored + live, parent, path)
  {
    forall s ensures Found(live, stored, s) == if s in stored + live then Some((stored + live)[s]) else None {
      FoundIsKnown(live, stored, s);
    }
    hide Found;
  }

  lemma AvoidsPlainly(live: Sessions, stored: Sessions, path: seq<string>, target: string)
    requires forall k | 0 <= k < |path| :: path[k] in stored + live
    ensures Avoids(stored + live, path, target) <==> !OnPath(live, stored, path, target)
  {
    forall s ensures Found(live, stored, s) == if s in stored + live then Some((stored + live)[s]) else None {
      FoundIsKnown(live, stored, s);
    }
    hide Found;
    if !Avoids(stored + live, path, target) {
      var k :| 0 <= k < |path| && (stored + live)[path[k]].Runs(target);
      assert Found(live, stored, path[k]).value.agent == Some(target);
    }
  }

  lemma {:induction false} HopsAreCounted(live: Sessions, stored: Sessions, path: seq<string>)
    requires forall k | 0 <= k < |path| :: path[k] in stored + live
    ensures Hops(stored + live, path) == |DelegationsOn(live, stored, path)|
  {
    if path == [] {
      assert DelegationsOn(live, stored, path) == {};
    } else {
      var n := |path| - 1;
      HopsAreCounted(live, stored, path[..n]);
      FoundIsKnown(live, stored, path[n]);
      OneMoreCounted(live, stored, path);
      hide DelegationsOn, Found;
    }
  }

  lemma OneMoreCounted(live: Sessions, stored: Sessions, path: seq<string>)
    requires path != [] && Found(live, stored, path[|path| - 1]).Some?
    ensures |DelegationsOn(live, stored, path)| ==
            |DelegationsOn(live, stored, path[..|path| - 1])| +
              if Found(live, stored, path[|path| - 1]).value.delegation then 1 else 0
  {
    hide Found;
    var n := |path| - 1;
    var before, after := DelegationsOn(live, stored, path[..n]), DelegationsOn(live, stored, path);
    forall k: nat
      ensures k in after <==> k in before || (k == n && Found(live, stored, path[n]).value.delegation)
    {
      assert k < n ==> path[..n][k] == path[k];
    }
    assert n !in before;
    hide DelegationsOn;
    assert after == if Found(live, stored, path[n]).value.delegation then before + {n} else before;
  }

  /** The verdict on the merged sessions is the plain one. */
  lemma ReadPlainly(live: Sessions, stored: Sessions, parent: string, target: string)
    ensures var known := stored + live;
            && (MayDelegate(known, parent, target) <==> PlainlyAccepted(live, stored, parent, target))
            && (forall path | Chain(known, parent, path) ::
                  && PlainChain(live, stored, parent, path)
                  && (Avoids(known, path, target) <==> !OnPath(live, stored, path, target))
                  && Hops(known, path) == |DelegationsOn(live, stored, path)|)
  {
    var known := stored + live;
    forall path: seq<string>
      ensures Chain(known, parent, path) <==> PlainChain(live, stored, parent, path)
      ensures Chain(known, parent, path) ==>
                && (Avoids(known, path, target) <==> !OnPath(live, stored, path, target))
                && Hops(known, path) == |DelegationsOn(live, stored, path)|
    {
      ChainIsPlain(live, stored, parent, path);
      if Chain(known, parent, path) {
        AvoidsPlainly(live, stored, path, target);
        HopsAreCounted(live, stored, path);
      }
    }
    hide Chain, PlainChain, Avoids, OnPath, Hops, DelegationsOn;
  }

  // ------------------------------------------------------------ the walk

  class DelegationManager {
    var live: Sessions
    var stored: Sessions

    constructor (live: Sessions, stored: Sessions)
      ensures this.live == live && this.stored == stored
    {
      this.live := live;
      this.stored := stored;
    }

    /** Memory first, then the rows of live and archived sessions. */
    function Known(): Sessions reads this { stored + live }

    /** _check_chain: None means accepted. */
    method CheckChain(parent: string, target: string) returns (rejected: Option<Rejection>)
      ensures Verdict(Known(), parent, target, rejected)
      // In plain fields: when it accepts, and what two of its refusals mean.
      ensures rejected.None? <==> PlainlyAccepted(live, stored, parent, target)
      ensures rejected == Some(AgentCycle) ==>
                exists path :: PlainChain(live, stored, parent, path) && OnPath(live, stored, path, target)
      ensures rejected == Some(TooDeep) ==>
                exists path :: PlainChain(live, stored, parent, path) && |DelegationsOn(live, stored, path)| >= 3
    {
      ReadPlainly(live, stored, parent, target);
      hide NoDuplicates, Hops, MayDelegate, PlainlyAccepted, PlainChain, OnPath, DelegationsOn;
      ghost var known := Known();
      var agents: set<string> := {};
      var visited: set<string> := {};
      var hops := 0;
      var sid := Some(parent);
      ghost var path: seq<string> := [];
      var k := 0;
      while k < SAFETY_CAP && sid.Some?
        invariant 0 <= k <= SAFETY_CAP && |path| == k
        invariant k == 0 ==> sid == Some(parent)
        invariant k > 0 ==> Climb(known, path) && path[0] == parent && sid == known[path[k - 1]].parent
        invariant visited == Elements(path)
        invariant forall a :: a in agents <==> !Avoids(known, path, a)
        invariant hops == Hops(known, path)
      {
        assert Walked(known, parent, path, sid.value);
        if sid.value in visited {
          RefuteMayDelegate(known, parent, target, path);
          return Some(SessionCycle);
        }
        visited := visited + {sid.value};
        var session: Session;
        if sid.value in live {
          session := live[sid.value];
        } else if sid.value in stored {
          session := stored[sid.value];
        } else {
          RefuteMayDelegate(known, parent, target, path);
          return Some(MissingSession);
        }
        ExtendClimb(known, path, sid.value);
        path := path + [sid.value];
        if session.agent.Some? && session.agent.value != "" {
          agents := agents + {session.agent.value};
        }
        if session.delegation {
          hops := hops + 1;
        }
        sid := session.parent;
        k := k + 1;
      }
      if k == SAFETY_CAP {
        RefuteMayDelegate(known, parent, target, path);
        return Some(ChainTooLong);
      }
      assert Chain(known, parent, path);
      DecideOnChain(known, parent, target, path);
      if target in agents {
        return Some(AgentCycle);
      }
      if hops + 1 > DEPTH_CAP {
        return Some(TooDeep);
      }
      rejected := None;
    }
  }

  lemma ExtendClimb(known: Sessions, path: seq<string>, s: string)
    requires s in known && s !in path
    requires path == [] || (Climb(known, path) && known[path[|path| - 1]].parent == Some(s))
    ensures var longer := path + [s];
            && Climb(known, longer)
            && longer[0] == (if path == [] then s else path[0])
            && Hops(known, longer) == Hops(known, path) + (if known[s].delegation then 1 else 0)
            && (forall a :: Avoids(known, longer, a) <==> Avoids(known, path, a) && !known[s].Runs(a))
            && Elements(longer) == Elements(path) + {s}
  {
    var longer := path + [s];
    assert longer[..|path|] == path && longer[|path|] == s;
    assert Climb(known, longer) by { hide Hops, Avoids; }
    hide Climb, Hops;
    forall a
      ensures Avoids(known, longer, a) <==> Avoids(known, path, a) && !known[s].Runs(a)
    {
      if Avoids(known, longer, a) {
        assert !known[longer[|path|]].Runs(a);
        assert forall k | 0 <= k < |path| :: longer[k] == path[k];
      }
    }
  }

  lemma DecideOnChain(known: Sessions, parent: string, target: string, path: seq<string>)
    requires Chain(known, parent, path) && |path| < SAFETY_CAP
    ensures MayDelegate(known, parent, target) <==> Avoids(known, path, target) && Hops(known, path) + 1 <= DEPTH_CAP
  {
    forall other | Chain(known, parent, other) ensures other == path {
      ChainIsUnique(known, parent, other, path);
    }
  }

  /** A climb that repeats, leaves the known sessions or reaches the cap is the start of no acceptable chain. */
  lemma RefuteMayDelegate(known: Sessions, parent: string, target: string, climb: seq<string>)
    requires climb == [] || (Climb(known, climb) && climb[0] == parent)
    requires var next := if climb == [] then Some(parent) else known[climb[|climb| - 1]].parent;
             |climb| >= SAFETY_CAP || (next.Some? && (next.value in climb || next.value !in known))
    ensures !MayDelegate(known, parent, target)
  {
    forall path | Chain(known, parent, path) ensures |path| >= SAFETY_CAP {
      if climb != [] {
        ClimbIsPrefix(known, climb, path);
        var k := |climb|;
        if k < |path| {
          assert known[path[k - 1]].parent == Some(path[k]);
        }
      }
    }
  }

  // ------------------------------------------------------------ forests

  /** At most DEPTH_CAP delegations on the chain, and no agent on it twice. */
  ghost predicate Shallow(f: Sessions, path: seq<string>)
    requires forall k | 0 <= k < |path| :: path[k] in f
  {
    && Hops(f, path) <= DEPTH_CAP
    && |path| <= DEPTH_CAP + 1
    && (forall k | 0 <= k < |path| - 1 :: f[path[k]].delegation)
    && (forall i, j, a | 0 <= i < j < |path| && f[path[i]].Runs(a) :: !f[path[j]].Runs(a))
  }

  ghost predicate ShallowChain(f: Sessions, s: string, path: seq<string>) {
    Chain(f, s, path) && Shallow(f, path)
  }

  ghost predicate Clean(f: Sessions, s: string) {
    exists path :: ShallowChain(f, s, path)
  }

  ghost predicate CleanForest(f: Sessions) {
    forall s | s in f :: Clean(f, s) && (f[s].parent.Some? ==> f[s].delegation)
  }

  /** A chain from `from` that has room for one more delegation to `target`. */
  ghost predicate Room(f: Sessions, from: string, target: string, path: seq<string>) {
    ShallowChain(f, from, path) && Avoids(f, path, target) && Hops(f, path) + 1 <= DEPTH_CAP
  }

  ghost predicate Ready(f: Sessions, from: string, target: string) {
    exists path :: Room(f, from, target, path)
  }

  /** A session taken out, and its children orphaned. */
  function Removed(f: Sessions, id: string): Sessions {
    map s | s in f && s != id :: if f[s].parent == Some(id) then f[s].(parent := None) else f[s]
  }

  lemma {:induction false} HopsFrame(f: Sessions, g: Sessions, path: seq<string>)
    requires forall k | 0 <= k < |path| ::
               path[k] in f && path[k] in g && f[path[k]].delegation == g[path[k]].delegation
    ensures Hops(f, path) == Hops(g, path)
  {
    if path != [] {
      HopsFrame(f, g, path[..|path| - 1]);
    }
  }

  lemma {:induction false} HopsOfPrepend(f: Sessions, s: string, path: seq<string>)
    requires s in f && forall k | 0 <= k < |path| :: path[k] in f
    ensures Hops(f, [s] + path) == Hops(f, path) + if f[s].delegation then 1 else 0
  {
    var whole := [s] + path;
    if path == [] {
      assert whole[..|whole| - 1] == [];
    } else {
      HopsOfPrepend(f, s, path[..|path| - 1]);
      assert whole[..|whole| - 1] == [s] + path[..|path| - 1];
    }
  }

  lemma {:induction false} HopsOfPrefix(f: Sessions, path: seq<string>, n: nat)
    requires n <= |path| && forall k | 0 <= k < |path| :: path[k] in f
    ensures Hops(f, path[..n]) <= Hops(f, path)
  {
    if n < |path| {
      HopsOfPrefix(f, path[..|path| - 1], n);
      assert path[..|path| - 1][..n] == path[..n];
    } else {
      assert path[..n] == path;
    }
  }

  lemma ChainStays(f: Sessions, id: string, added: Session, s: string, path: seq<string>)
    requires id !in f && ShallowChain(f, s, path)
    ensures ShallowChain(f[id := added], s, path) && Hops(f[id := added], path) == Hops(f, path)
  {
    HopsFrame(f, f[id := added], path);
  }

  /** A session added at the top, or below one that had room for it. */
  ghost predicate Fits(f: Sessions, added: Session) {
    added.parent.Some? ==>
      && added.delegation && added.agent.Some? && added.agent.value != ""
      && Ready(f, added.parent.value, added.agent.value)
  }

  lemma AddedIsClean(f: Sessions, id: string, added: Session)
    requires id !in f && Fits(f, added)
    ensures Clean(f[id := added], id)
  {
    var g := f[id := added];
    if added.parent.None? {
      assert [id][..0] == [] && Hops(g, []) == 0;
      assert ShallowChain(g, id, [id]);
    } else {
      var from, target := added.parent.value, added.agent.value;
      var path :| Room(f, from, target, path);
      PrependedIsShallow(f, g, id, from, target, path);
    }
  }

  lemma AddingKeepsForest(f: Sessions, id: string, added: Session)
    requires CleanForest(f) && id !in f && Fits(f, added)
    ensures CleanForest(f[id := added])
  {
    hide ShallowChain, Ready;
    AddedIsClean(f, id, added);
    forall s | s in f
      ensures Clean(f[id := added], s)
    {
      var path :| ShallowChain(f, s, path);
      ChainStays(f, id, added, s, path);
    }
    hide Clean;
  }

  lemma AddingKeepsRoom(f: Sessions, id: string, added: Session, from: string, target: string)
    requires id !in f && Ready(f, from, target)
    ensures Ready(f[id := added], from, target)
  {
    var path :| Room(f, from, target, path);
    ChainStays(f, id, added, from, path);
    assert Room(f[id := added], from, target, path);
  }

  lemma PrependedIsShallow(f: Sessions, g: Sessions, id: string, from: string, target: string, path: seq<string>)
    requires id !in f && from in f && g == f[id := Session(Some(target), true, Some(from))]
    requires Room(f, from, target, path)
    ensures ShallowChain(g, id, [id] + path)
  {
    var longer := [id] + path;
    assert forall k | 0 < k < |longer| :: longer[k] == path[k - 1];
    HopsFrame(f, g, path);
    HopsOfPrepend(g, id, path);
    DelegationsBoundLength(f, path);
    forall i, j, a | 0 <= i < j < |longer| && g[longer[i]].Runs(a) ensures !g[longer[j]].Runs(a) {
      assert !f[path[j - 1]].Runs(target);
    }
  }

  /** Only the top of a chain can be something other than a delegation. */
  lemma {:induction false} DelegationsBoundLength(f: Sessions, path: seq<string>)
    requires forall k | 0 <= k < |path| :: path[k] in f
    requires forall k | 0 <= k < |path| - 1 :: f[path[k]].delegation
    ensures |path| <= Hops(f, path) + 1
  {
    if |path| > 1 {
      var init := path[..|path| - 1];
      AllDelegations(f, init);
    }
  }

  lemma {:induction false} AllDelegations(f: Sessions, path: seq<string>)
    requires forall k | 0 <= k < |path| :: path[k] in f && f[path[k]].delegation
    ensures Hops(f, path) == |path|
  {
    if path != [] {
      AllDelegations(f, path[..|path| - 1]);
    }
  }

  /** Taking a session out cuts each chain through it; what is left of it is as shallow. */
  lemma RemovedCutsChain(f: Sessions, id: string, s: string, path: seq<string>) returns (kept: seq<string>)
    requires s != id && ShallowChain(f, s, path)
    ensures kept <= path && ShallowChain(Removed(f, id), s, kept)
    ensures Hops(Removed(f, id), kept) <= Hops(f, path)
  {
    var g := Removed(f, id);
    var n := Position(path, id);
    kept := path[..n];
    HopsOfPrefix(f, path, n);
    HopsFrame(f, g, kept);
    assert Chain(g, s, kept) by {
      forall k | 0 < k < |kept|
        ensures g[kept[k - 1]].parent == Some(kept[k])
      {
        assert f[path[k - 1]].parent == Some(path[k]);
      }
      if n < |path| {
        assert f[path[n - 1]].parent == Some(path[n]);
      }
    }
  }

  ghost function Position(path: seq<string>, id: string): (n: nat)
    ensures n <= |path| && (n < |path| ==> path[n] == id) && id !in path[..n]
  {
    if path == [] then 0
    else if path[0] == id then 0
    else
      var n := 1 + Position(path[1..], id);
      assert path[..n] == [path[0]] + path[1..][..n - 1];
      n
  }

  lemma RemovingKeepsForest(f: Sessions, id: string)
    requires CleanForest(f)
    ensures CleanForest(Removed(f, id))
  {
    hide ShallowChain;
    forall s | s in f && s != id
      ensures Clean(Removed(f, id), s)
    {
      var path :| ShallowChain(f, s, path);
      var kept := RemovedCutsChain(f, id, s, path);
    }
    hide Clean;
  }

  lemma RemovingKeepsRoom(f: Sessions, id: string, from: string, target: string)
    requires from != id && Ready(f, from, target)
    ensures Ready(Removed(f, id), from, target)
  {
    var path :| Room(f, from, target, path);
    var kept := RemovedCutsChain(f, id, from, path);
    assert Room(Removed(f, id), from, target, kept);
  }

  // ------------------------------------------------------------ memory and database

  /** A start_delegation that has passed the guard and not created its session yet. */
  datatype Intent = Intent(from: string, target: string)

  /** `live` is the memory the walk reads first, `stored` the table; `used` are all ids there ever were. */
  datatype Host = Host(live: Sessions, stored: Sessions, pending: set<Intent>, used: set<string>) {
    function Known(): Sessions { stored + live }
  }

  const EMPTY := Host(map[], map[], {}, {})

  datatype Change =
    | Open(id: string, owner: Option<string>)
    | Check(from: string, target: string)
    | Create(id: string, from: string, target: string)
    | Unload(id: string)   // an archive, the first half of a delete, or, for every session, a restart
    | Drop(id: string)     // the second half of a delete: the row goes, and the pointers of stored children
    | Load(id: string)     // an unarchive or a start: the row is read into memory

  /** Creating a child whose parent row is gone fails in the table and stays in memory. */
  ghost function Apply(h: Host, c: Change): Host {
    match c
    case Open(id, owner) =>
      if id in h.used then h
      else h.(live := h.live[id := Session(owner, false, None)], stored := h.stored[id := Session(owner, false, None)],
              used := h.used + {id})
    case Check(from, target) =>
      if from !in h.live || target == "" || h.live[from].Runs(target) || !MayDelegate(h.Known(), from, target) then h
      else h.(pending := h.pending + {Intent(from, target)})
    case Create(id, from, target) =>
      if id in h.used || Intent(from, target) !in h.pending then h
      else
        var child := Session(Some(target), true, Some(from));
        h.(live := h.live[id := child], stored := if from in h.stored then h.stored[id := child] else h.stored,
           used := h.used + {id})
    case Unload(id) => h.(live := h.live - {id})
    case Drop(id) => if id in h.live then h else h.(stored := Removed(h.stored, id))
    case Load(id) => if id in h.live || id !in h.stored then h else h.(live := h.live[id := h.stored[id]])
  }

  ghost function After(changes: seq<Change>): Host {
    if changes == [] then EMPTY else Apply(After(changes[..|changes| - 1]), changes[|changes| - 1])
  }

  /** The forest the walk sees, with pointers to nowhere cut. */
  function Healed(known: Sessions): Sessions {
    map s | s in known ::
      if known[s].parent.Some? && known[s].parent.value !in known then known[s].(parent := None) else known[s]
  }

  /** Memory and table say the same, but for a pointer to a deleted session that only the table has lost. */
  predicate Agree(h: Host, s: string)
    requires s in h.live && s in h.stored
  {
    var m, r := h.live[s], h.stored[s];
    && m.agent == r.agent && m.delegation == r.delegation
    && (m.parent == r.parent || (r.parent.None? && m.parent.value !in h.Known()))
  }

  ghost predicate Consistent(h: Host) {
    && h.Known().Keys <= h.used
    && (forall s | s in h.Known() && h.Known()[s].parent.Some? :: h.Known()[s].parent.value in h.used)
    && (forall i | i in h.pending :: i.from in h.used && i.target != "")
    && (forall s | s in h.stored && h.stored[s].parent.Some? :: h.stored[s].parent.value in h.stored)
    && (forall s | s in h.live && s in h.stored :: Agree(h, s))
  }

  ghost predicate Inv(h: Host) {
    && Consistent(h)
    && CleanForest(Healed(h.Known()))
    && Promised(h)
  }

  /** What each change does to the forest the walk sees: nothing, one session more, or one taken out. */
  ghost predicate Shows(h: Host, c: Change) {
    var f, g := Healed(h.Known()), Healed(Apply(h, c).Known());
    match c
    case Open(id, owner) => g == if id in h.used then f else f[id := Session(owner, false, None)]
    case Create(id, from, target) =>
      g == if id in h.used || Intent(from, target) !in h.pending then f
           else f[id := Session(Some(target), true, if from in h.Known() then Some(from) else None)]
    case Unload(id) => g == if id in h.live && id !in h.stored then Removed(f, id) else f
    case Drop(id) => g == if id in h.live then f else Removed(f, id)
    case _ => g == f
  }

  function Heal(known: Sessions, s: Session): Session {
    if s.parent.Some? && s.parent.value !in known then s.(parent := None) else s
  }

  lemma HealedAdd(known: Sessions, id: string, added: Session)
    requires id !in known && added.parent != Some(id) && forall s | s in known :: known[s].parent != Some(id)
    ensures Healed(known[id := added]) == Healed(known)[id := Heal(known, added)]
  {
  }

  /** A session is gone; children whose pointer was not cleared now point to nowhere. */
  lemma HealedRemove(known: Sessions, less: Sessions, id: string)
    requires id in known ==> less.Keys == known.Keys - {id}
    requires id !in known ==> less.Keys == known.Keys
    requires forall s | s in less ::
               less[s] == known[s] || (known[s].parent == Some(id) && less[s] == known[s].(parent := None))
    ensures Healed(less) == Removed(Healed(known), id)
  {
  }

  lemma HealedSame(known: Sessions, other: Sessions)
    requires other.Keys == known.Keys && forall s | s in known :: Heal(known, other[s]) == Heal(known, known[s])
    ensures Healed(other) == Healed(known)
  {
  }

  lemma OpenKnows(h: Host, id: string, owner: Option<string>)
    requires Consistent(h)
    ensures Consistent(Apply(h, Open(id, owner)))
    ensures Apply(h, Open(id, owner)).Known() ==
            if id in h.used then h.Known() else h.Known()[id := Session(owner, false, None)]
  {
  }

  lemma OpenShows(h: Host, id: string, owner: Option<string>)
    requires Consistent(h)
    ensures Consistent(Apply(h, Open(id, owner))) && Shows(h, Open(id, owner))
  {
    OpenKnows(h, id, owner);
    if id !in h.used {
      HealedAdd(h.Known(), id, Session(owner, false, None));
    }
    hide Consistent, Healed, Apply;
  }

  lemma CheckShows(h: Host, from: string, target: string)
    requires Consistent(h)
    ensures Consistent(Apply(h, Check(from, target))) && Shows(h, Check(from, target))
  {
    hide MayDelegate, Healed;
  }

  lemma CreateKnows(h: Host, id: string, from: string, target: string)
    requires Consistent(h) && id !in h.used && Intent(from, target) in h.pending
    ensures Consistent(Apply(h, Create(id, from, target)))
    ensures Apply(h, Create(id, from, target)).Known() == h.Known()[id := Session(Some(target), true, Some(from))]
  {
  }

  lemma CreateShows(h: Host, id: string, from: string, target: string)
    requires Consistent(h)
    ensures Consistent(Apply(h, Create(id, from, target))) && Shows(h, Create(id, from, target))
  {
    if id !in h.used && Intent(from, target) in h.pending {
      CreateKnows(h, id, from, target);
      HealedAdd(h.Known(), id, Session(Some(target), true, Some(from)));
      hide Consistent, Healed, Apply;
    }
  }

  lemma UnloadIsConsistent(h: Host, id: string)
    requires Consistent(h)
    ensures Consistent(Apply(h, Unload(id)))
  {
  }

  lemma UnloadShows(h: Host, id: string)
    requires Consistent(h)
    ensures Shows(h, Unload(id))
  {
    hide Healed, Removed;
    var g := Apply(h, Unload(id));
    if id in h.live && id !in h.stored {
      HealedRemove(h.Known(), g.Known(), id);
    } else {
      assert g.Known().Keys == h.Known().Keys;
      HealedSame(h.Known(), g.Known());
    }
  }

  lemma DropIsConsistent(h: Host, id: string)
    requires Consistent(h)
    ensures Consistent(Apply(h, Drop(id)))
  {
  }

  lemma DropShows(h: Host, id: string)
    requires Consistent(h)
    ensures Shows(h, Drop(id))
  {
    if id !in h.live {
      HealedRemove(h.Known(), Apply(h, Drop(id)).Known(), id);
    }
    hide Healed;
  }

  lemma LoadShows(h: Host, id: string)
    requires Consistent(h)
    ensures Consistent(Apply(h, Load(id))) && Shows(h, Load(id))
  {
    hide Healed;
    if Apply(h, Load(id)) != h {
      assert Apply(h, Load(id)).Known() == h.Known();
    }
  }

  lemma ChangeShows(h: Host, c: Change)
    requires Consistent(h)
    ensures Consistent(Apply(h, c)) && Shows(h, c)
  {
    hide *;
    match c
    case Open(id, owner) => OpenShows(h, id, owner);
    case Check(from, target) => CheckShows(h, from, target);
    case Create(id, from, target) => CreateShows(h, id, from, target);
    case Unload(id) => UnloadIsConsistent(h, id); UnloadShows(h, id);
    case Drop(id) => DropIsConsistent(h, id); DropShows(h, id);
    case Load(id) => LoadShows(h, id);
  }

  /** A chain of the walk is one of the healed forest. */
  lemma ChainHeals(known: Sessions, s: string, path: seq<string>)
    requires Chain(known, s, path)
    ensures Chain(Healed(known), s, path) && Hops(Healed(known), path) == Hops(known, path)
    ensures forall a :: Avoids(Healed(known), path, a) <==> Avoids(known, path, a)
  {
    HopsFrame(known, Healed(known), path);
  }

  lemma CheckedIsReady(h: Host, from: string, target: string)
    requires CleanForest(Healed(h.Known())) && from in h.live && MayDelegate(h.Known(), from, target)
    ensures Ready(Healed(h.Known()), from, target)
  {
    var known, f := h.Known(), Healed(h.Known());
    var path :| Chain(known, from, path) && |path| < SAFETY_CAP && Avoids(known, path, target)
                && Hops(known, path) + 1 <= DEPTH_CAP;
    ChainHeals(known, from, path);
    hide Healed, MayDelegate, Hops;
    var clean :| ShallowChain(f, from, clean);
    ChainIsUnique(f, from, path, clean);
    assert Room(f, from, target, path);
  }

  /** Whoever has passed the guard still has room for the child when it is created. */
  ghost predicate Promised(h: Host) {
    forall i | i in h.pending && i.from in h.Known() :: Ready(Healed(h.Known()), i.from, i.target)
  }

  lemma GrowthKeepsInv(h: Host, c: Change)
    requires Inv(h) && (c.Open? || c.Create? || c.Check?)
    ensures Inv(Apply(h, c))
  {
    var f, after := Healed(h.Known()), Apply(h, c);
    ChangeShows(h, c);
    hide Healed, CleanForest, Ready, MayDelegate, Consistent;
    if after == h {
    } else if c.Check? {
      CheckedIsReady(h, c.from, c.target);
    } else {
      var added := if c.Open? then Session(c.owner, false, None)
                   else Session(Some(c.target), true, if c.from in h.Known() then Some(c.from) else None);
      AddingKeepsForest(f, c.id, added);
      forall i | i in after.pending && i.from in after.Known()
        ensures Ready(Healed(after.Known()), i.from, i.target)
      {
        AddingKeepsRoom(f, c.id, added, i.from, i.target);
      }
    }
  }

  lemma LossKeepsInv(h: Host, c: Change)
    requires Inv(h) && (c.Unload? || c.Drop?)
    ensures Inv(Apply(h, c))
  {
    var f, after := Healed(h.Known()), Apply(h, c);
    ChangeShows(h, c);
    hide Healed, CleanForest, Ready, Consistent;
    RemovingKeepsForest(f, c.id);
    forall i | i in after.pending && i.from in after.Known() && i.from != c.id
      ensures Ready(Removed(f, c.id), i.from, i.target)
    {
      RemovingKeepsRoom(f, c.id, i.from, i.target);
    }
  }

  lemma ChangeKeepsInv(h: Host, c: Change)
    requires Inv(h)
    ensures Inv(Apply(h, c))
  {
    hide Inv, Apply;
    match c
    case Unload(_) => LossKeepsInv(h, c);
    case Drop(_) => LossKeepsInv(h, c);
    case Load(id) => LoadKeepsInv(h, id);
    case _ => GrowthKeepsInv(h, c);
  }

  lemma LoadKeepsInv(h: Host, id: string)
    requires Inv(h)
    ensures Inv(Apply(h, Load(id)))
  {
    ChangeShows(h, Load(id));
    hide Healed, CleanForest, Ready, Consistent;
  }

  lemma {:induction false} EveryHostIsClean(changes: seq<Change>)
    ensures Inv(After(changes))
  {
    if changes != [] {
      EveryHostIsClean(changes[..|changes| - 1]);
      ChangeKeepsInv(After(changes[..|changes| - 1]), changes[|changes| - 1]);
    }
  }

  // ------------------------------------------------------------ what holds in every run

  /**
    Every chain a walk can follow has at most three hops and no agent twice, whatever was opened, delegated or
    deleted.
   */
  lemma EveryChainIsShallow(changes: seq<Change>, s: string, path: seq<string>)
    requires Chain(After(changes).Known(), s, path)
    ensures Shallow(After(changes).Known(), path)
  {
    var known := After(changes).Known();
    var f := Healed(known);
    EveryHostIsClean(changes);
    ChainHeals(known, s, path);
    assert s in f;
    hide After, Healed, Consistent, Promised, Shallow;
    assert Clean(f, s);
    var clean :| ShallowChain(f, s, clean);
    ChainIsUnique(f, s, path, clean);
    HealedIsShallow(known, path);
  }

  lemma HealedIsShallow(known: Sessions, path: seq<string>)
    requires (forall k | 0 <= k < |path| :: path[k] in known) && Shallow(Healed(known), path)
    ensures Shallow(known, path)
  {
    HopsFrame(known, Healed(known), path);
    assert forall s, a | s in known :: known[s].Runs(a) <==> Healed(known)[s].Runs(a);
  }

  /** Some session on the walked path still points, in memory, at one that has been deleted. */
  ghost predicate Orphaned(h: Host, parent: string) {
    exists climb :: Climb(h.Known(), climb) && climb[0] == parent && PointsAtDeleted(h, climb[|climb| - 1])
  }

  predicate PointsAtDeleted(h: Host, s: string) {
    && s in h.live && h.live[s].parent.Some?
    && h.live[s].parent.value in h.used && h.live[s].parent.value !in h.Known()
  }

  /** Every walk ends within four sessions: at a session without a parent, or at one pointing at a deleted session. */
  lemma WalkEnds(h: Host, parent: string) returns (path: seq<string>)
    requires Inv(h) && parent in h.Known()
    ensures Ends(h.Known(), path) && path[0] == parent && |path| <= DEPTH_CAP + 1
    ensures var last := path[|path| - 1];
            h.Known()[last].parent.Some? <==> PointsAtDeleted(h, last)
  {
    path := HealedChain(h.Known(), parent);
    hide CleanForest, Promised, Healed;
    var last := path[|path| - 1];
    if h.Known()[last].parent.Some? {
      assert h.Known()[last].parent.value in h.used;
      LeadsNowhere(h, last);
    }
  }

  /** The chain of the cut forest, climbed with the pointers as they are. */
  lemma HealedChain(known: Sessions, parent: string) returns (path: seq<string>)
    requires CleanForest(Healed(known)) && parent in known
    ensures Ends(known, path) && path[0] == parent && |path| <= DEPTH_CAP + 1
  {
    var f := Healed(known);
    assert parent in f && Clean(f, parent);
    path :| ShallowChain(f, parent, path);
    assert Climb(known, path);
  }

  /** Only a session in memory can point at one that is nowhere. */
  lemma LeadsNowhere(h: Host, s: string)
    requires Consistent(h) && s in h.Known() && h.Known()[s].parent.Some? && h.Known()[s].parent.value !in h.Known()
    ensures PointsAtDeleted(h, s)
  {
  }

  /**
    The fail-closed rejection fires exactly when a session on the walked path points in memory at a deleted one; a cycle
    of pointers or an over-long walk is never seen. Otherwise only the two real rules decide.
   */
  lemma FailClosedExactly(changes: seq<Change>, parent: string, target: string, rejected: Option<Rejection>)
    requires parent in After(changes).Known() && Verdict(After(changes).Known(), parent, target, rejected)
    ensures rejected == Some(MissingSession) <==> Orphaned(After(changes), parent)
    ensures rejected != Some(SessionCycle) && rejected != Some(ChainTooLong)
    ensures !Orphaned(After(changes), parent) ==>
              exists path ::
                && Chain(After(changes).Known(), parent, path)
                && (rejected == Some(AgentCycle) <==> !Avoids(After(changes).Known(), path, target))
                && (rejected.None? <==>
                  Avoids(After(changes).Known(), path, target) && Hops(After(changes).Known(), path) < DEPTH_CAP)
  {
    var h := After(changes);
    EveryHostIsClean(changes);
    var path := WalkEnds(h, parent);
    WalkDecides(h, parent, target, rejected, path);
  }

  /** A walk only ever looks along the climb that ends. */
  lemma WalkedInside(known: Sessions, parent: string, path: seq<string>, climb: seq<string>, next: string)
    requires Ends(known, path) && path[0] == parent && Walked(known, parent, climb, next)
    ensures |climb| <= |path| && climb == path[..|climb|]
    ensures if |climb| < |path| then next == path[|climb|]
            else next !in known && known[path[|path| - 1]].parent == Some(next)
    ensures next !in climb
  {
    if climb != [] {
      ClimbIsPrefix(known, climb, path);
      if |climb| < |path| {
        assert known[path[|climb| - 1]].parent == Some(path[|climb|]);
      }
    }
  }

  lemma NeverCorrupt(known: Sessions, parent: string, target: string, rejected: Option<Rejection>, path: seq<string>)
    requires Ends(known, path) && path[0] == parent && |path| < SAFETY_CAP
    requires Verdict(known, parent, target, rejected)
    ensures rejected != Some(SessionCycle) && rejected != Some(ChainTooLong)
  {
    if rejected == Some(SessionCycle) {
      var climb, next :| Walked(known, parent, climb, next) && next in climb;
      WalkedInside(known, parent, path, climb, next);
    } else if rejected == Some(ChainTooLong) {
      var climb :| Climb(known, climb) && climb[0] == parent && |climb| == SAFETY_CAP;
      ClimbIsPrefix(known, climb, path);
    }
  }

  /** Where the climb ends at a pointer to nowhere there is no chain, and where it ends well nothing dangles. */
  lemma EndDecides(known: Sessions, parent: string, path: seq<string>)
    requires Ends(known, path) && path[0] == parent && |path| < SAFETY_CAP
    ensures Chain(known, parent, path) <==> known[path[|path| - 1]].parent.None?
    ensures Dangles(known, parent) <==> known[path[|path| - 1]].parent.Some?
    ensures known[path[|path| - 1]].parent.Some? ==> forall other :: !Chain(known, parent, other)
  {
    var last := known[path[|path| - 1]];
    if Dangles(known, parent) {
      var climb, next :| Walked(known, parent, climb, next) && |climb| < SAFETY_CAP && next !in known;
      WalkedInside(known, parent, path, climb, next);
    }
    if last.parent.Some? {
      assert Walked(known, parent, path, last.parent.value);
      forall other | Chain(known, parent, other)
        ensures false
      {
        ClimbIsPrefix(known, path, other);
        ClimbIsPrefix(known, other, path);
      }
    }
  }

  lemma OrphanedMeansDangling(h: Host, parent: string, path: seq<string>)
    requires Ends(h.Known(), path) && path[0] == parent
    requires h.Known()[path[|path| - 1]].parent.Some? <==> PointsAtDeleted(h, path[|path| - 1])
    ensures Orphaned(h, parent) <==> h.Known()[path[|path| - 1]].parent.Some?
  {
    if Orphaned(h, parent) {
      var climb :| Climb(h.Known(), climb) && climb[0] == parent && PointsAtDeleted(h, climb[|climb| - 1]);
      WalkedInside(h.Known(), parent, path, climb, h.live[climb[|climb| - 1]].parent.value);
    }
  }

  lemma WalkDecides(h: Host, parent: string, target: string, rejected: Option<Rejection>, path: seq<string>)
    requires Ends(h.Known(), path) && path[0] == parent && |path| <= DEPTH_CAP + 1
    requires h.Known()[path[|path| - 1]].parent.Some? <==> PointsAtDeleted(h, path[|path| - 1])
    requires Verdict(h.Known(), parent, target, rejected)
    ensures rejected == Some(MissingSession) <==> Orphaned(h, parent)
    ensures rejected != Some(SessionCycle) && rejected != Some(ChainTooLong)
    ensures !Orphaned(h, parent) ==>
              && Chain(h.Known(), parent, path)
              && (rejected == Some(AgentCycle) <==> !Avoids(h.Known(), path, target))
              && (rejected.None? <==> Avoids(h.Known(), path, target) && Hops(h.Known(), path) < DEPTH_CAP)
  {
    var known := h.Known();
    NeverCorrupt(known, parent, target, rejected, path);
    EndDecides(known, parent, path);
    OrphanedMeansDangling(h, parent, path);
    if known[path[|path| - 1]].parent.None? {
      ChainDecides(known, parent, target, rejected, path);
    } else {
      NoChainNoVerdict(known, parent, target, rejected);
    }
  }

  lemma ChainDecides(known: Sessions, parent: string, target: string, rejected: Option<Rejection>, path: seq<string>)
    requires Chain(known, parent, path) && |path| < SAFETY_CAP && Verdict(known, parent, target, rejected)
    requires !Dangles(known, parent) && rejected != Some(SessionCycle) && rejected != Some(ChainTooLong)
    ensures rejected != Some(MissingSession)
    ensures rejected == Some(AgentCycle) <==> !Avoids(known, path, target)
    ensures rejected.None? <==> Avoids(known, path, target) && Hops(known, path) < DEPTH_CAP
  {
    DecideOnChain(known, parent, target, path);
    if rejected.Some? {
      match rejected.value
      case AgentCycle =>
        var other :| Chain(known, parent, other) && !Avoids(known, other, target);
        ChainIsUnique(known, parent, other, path);
      case TooDeep =>
        var other :| Chain(known, parent, other) && Avoids(known, other, target) && Hops(known, other) >= DEPTH_CAP;
        ChainIsUnique(known, parent, other, path);
      case _ =>
    }
  }

  lemma NoChainNoVerdict(known: Sessions, parent: string, target: string, rejected: Option<Rejection>)
    requires (forall path :: !Chain(known, parent, path)) && Verdict(known, parent, target, rejected)
    ensures rejected in {Some(MissingSession), Some(SessionCycle), Some(ChainTooLong)}
  {
    hide Chain;
    assert !MayDelegate(known, parent, target);
    match rejected.value
    case SessionCycle =>
    case MissingSession =>
    case ChainTooLong =>
    case AgentCycle =>
    case TooDeep =>
  }

  // ------------------------------------------------------------ the rejection is real

  /** Opening a session, delegating from it and deleting it leaves a child that can delegate to nobody. */
  function DeleteTheParent(p: string, owner: Option<string>, c: string, agent: string): seq<Change> {
    [Open(p, owner), Check(p, agent), Create(c, p, agent), Unload(p), Drop(p)]
  }

  lemma AfterOneMore(changes: seq<Change>, c: Change)
    ensures After(changes + [c]) == Apply(After(changes), c)
  {
    assert (changes + [c])[..|changes|] == changes;
  }

  lemma ChildOfDeletedIsStuck(p: string, owner: Option<string>, c: string, agent: string)
    requires p != c && agent != "" && owner != Some(agent)
    ensures var h := After(DeleteTheParent(p, owner, c, agent));
            && c in h.stored && h.stored[c].parent.None?
            && Orphaned(h, c)
            && forall target, rejected | Verdict(h.Known(), c, target, rejected) :: rejected == Some(MissingSession)
  {
    var h := After(DeleteTheParent(p, owner, c, agent));
    StatesOfTheRun(p, owner, c, agent);
    assert h.Known() == h.live;
    assert Climb(h.Known(), [c]) && PointsAtDeleted(h, c);
    assert Ends(h.Known(), [c]);
    forall target, rejected | Verdict(h.Known(), c, target, rejected)
      ensures rejected == Some(MissingSession)
    {
      WalkDecides(h, c, target, rejected, [c]);
    }
  }

  lemma ReloadedSession(h: Host, s: string)
    requires Consistent(h) && s in h.stored && PointsAtDeleted(h, s)
    ensures var known := Apply(Apply(h, Unload(s)), Load(s)).Known();
            s in known && known[s] == h.stored[s] && known[s].parent.None?
  {
    assert Agree(h, s);
  }

  /** A session without a parent decides alone. */
  lemma TopDecides(h: Host, s: string, target: string, rejected: Option<Rejection>)
    requires s in h.Known() && h.Known()[s].parent.None? && Verdict(h.Known(), s, target, rejected)
    ensures rejected == if h.Known()[s].Runs(target) then Some(AgentCycle) else None
  {
    var known := h.Known();
    assert Climb(known, [s]) && Ends(known, [s]);
    assert !PointsAtDeleted(h, s);
    hide Verdict, Climb, Ends;
    OrphanedMeansDangling(h, s, [s]);
    WalkDecides(h, s, target, rejected, [s]);
    assert [s][..0] == [] && Hops(known, [s]) <= 1;
    assert Avoids(known, [s], target) <==> !known[s].Runs(target) by {
      assert [s][0] == s;
    }
  }

  /** Reading the row again heals the session: it may delegate to every agent but its own. */
  lemma ReloadHeals(changes: seq<Change>, s: string, target: string, rejected: Option<Rejection>)
    requires s in After(changes).stored && PointsAtDeleted(After(changes), s)
    requires Verdict(After(changes + [Unload(s), Load(s)]).Known(), s, target, rejected)
    ensures rejected == if After(changes).stored[s].Runs(target) then Some(AgentCycle) else None
  {
    EveryHostIsClean(changes);
    assert Consistent(After(changes));
    ReloadedSession(After(changes), s);
    hide *;
    AfterOneMore(changes, Unload(s));
    AfterOneMore(changes + [Unload(s)], Load(s));
    assert changes + [Unload(s)] + [Load(s)] == changes + [Unload(s), Load(s)];
    TopDecides(After(changes + [Unload(s), Load(s)]), s, target, rejected);
  }

  lemma OneSessionMayDelegate(p: string, top: Session, agent: string)
    requires top.parent.None? && !top.delegation && !top.Runs(agent)
    ensures MayDelegate(map[p := top], p, agent)
  {
    var known := map[p := top];
    assert [p][..0] == [] && Hops(known, []) == 0;
    assert Chain(known, p, [p]) && Avoids(known, [p], agent) && Hops(known, [p]) == 0;
  }

  lemma StatesOfTheRun(p: string, owner: Option<string>, c: string, agent: string)
    requires p != c && agent != "" && owner != Some(agent)
    ensures var h := After(DeleteTheParent(p, owner, c, agent));
            && h.live == map[c := Session(Some(agent), true, Some(p))]
            && h.stored == map[c := Session(Some(agent), true, None)]
            && h.used == {p, c}
  {
    var top, child := Session(owner, false, None), Session(Some(agent), true, Some(p));
    OneSessionMayDelegate(p, top, agent);
    hide MayDelegate;
    var h1 := Apply(EMPTY, Open(p, owner));
    assert h1.live == h1.stored == map[p := top] && h1.Known() == map[p := top];
    var h2 := Apply(h1, Check(p, agent));
    assert h2 == h1.(pending := {Intent(p, agent)});
    var h3 := Apply(h2, Create(c, p, agent));
    assert h3.live == h3.stored == map[p := top, c := child];
    var h4 := Apply(h3, Unload(p));
    assert h4.live == map[c := child];
    var h5 := Apply(h4, Drop(p));
    assert h5.stored == map[c := child.(parent := None)];
    AfterFive(Open(p, owner), Check(p, agent), Create(c, p, agent), Unload(p), Drop(p));
  }

  lemma AfterFive(a: Change, b: Change, c: Change, d: Change, e: Change)
    ensures After([a, b, c, d, e]) == Apply(Apply(Apply(Apply(Apply(EMPTY, a), b), c), d), e)
  {
    hide Apply;
    AfterOneMore([], a);
    AfterOneMore([a], b);
    AfterOneMore([a, b], c);
    AfterOneMore([a, b, c], d);
    AfterOneMore([a, b, c, d], e);
    assert [] + [a] == [a] && [a] + [b] == [a, b] && [a, b] + [c] == [a, b, c];
    assert [a, b, c] + [d] == [a, b, c, d] && [a, b, c, d] + [e] == [a, b, c, d, e];
  }
}
