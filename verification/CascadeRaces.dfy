/**
  _cascade_cancel_descendants of server/delegations.py with other coroutines
  between its awaits: rounds finish by themselves while it walks its snapshot.
 */
module CascadeRaces {
  import opened Base
  import opened CascadeCancel

  /**
    `running` are the snapshot's records still running, `frontier` the sessions whose children the walk looks at,
    `visited` the records it has looked at, and `passed` those of them it found no longer running.
   */
  datatype Walk = Walk(running: set<string>, frontier: set<string>, visited: set<string>, passed: set<string>)

  datatype Event =
    | Visit(d: string)    // the walk, or the cascade of a nested cancel, looks at a listed record
    | Finish(d: string)   // its round leaves `running` by any other transition

  function Begin(run: map<string, string>, root: string): Walk {
    Walk(run.Keys, {root}, {}, {})
  }

  predicate Enabled(run: map<string, string>, w: Walk, e: Event) {
    e.Visit? ==> e.d in run && run[e.d] in w.frontier && e.d !in w.visited
  }

  /** A record still running is cancelled and its children come next; one that is not is skipped with all below it. */
  function Next(w: Walk, e: Event): Walk {
    match e
    case Visit(d) =>
      if d in w.running then w.(running := w.running - {d}, frontier := w.frontier + {d}, visited := w.visited + {d})
      else w.(visited := w.visited + {d}, passed := w.passed + {d})
    case Finish(d) => w.(running := w.running - {d})
  }

  function After(run: map<string, string>, root: string, events: seq<Event>): Walk {
    if events == [] then Begin(run, root) else Next(After(run, root, events[..|events| - 1]), events[|events| - 1])
  }

  predicate Runs(run: map<string, string>, root: string, events: seq<Event>) {
    events == [] ||
    (Runs(run, root, events[..|events| - 1]) &&
     Enabled(run, After(run, root, events[..|events| - 1]), events[|events| - 1]))
  }

  /** No listed child of a frontier session is left. */
  predicate Over(run: map<string, string>, w: Walk) {
    forall d | d in run && run[d] in w.frontier :: d in w.visited
  }

  // ------------------------------------------------------------ what every walk keeps

  ghost predicate Inv(run: map<string, string>, root: string, events: seq<Event>, w: Walk) {
    && w.passed <= w.visited && w.visited <= Below(run, root)
    && w.frontier == {root} + (w.visited - w.passed)
    && (forall d | d in w.visited :: d in run && run[d] in w.frontier)
    && (forall d | d in run :: d in w.running <==> d !in w.visited && Finish(d) !in events)
  }

  lemma VisitedIsBelow(run: map<string, string>, root: string, w: Walk, d: string)
    requires d in run && run[d] in w.frontier && w.frontier <= {root} + Below(run, root)
    ensures d in Below(run, root)
  {
    UnderStep(run, root, d);
  }

  lemma StepKeepsInv(run: map<string, string>, root: string, events: seq<Event>, w: Walk, e: Event)
    requires Inv(run, root, events, w) && Enabled(run, w, e)
    ensures Inv(run, root, events + [e], Next(w, e))
  {
    if e.Visit? {
      VisitedIsBelow(run, root, w, e.d);
    }
    hide Below;
    FinishedGrows(events, e);
    if e.Visit? && e.d in w.running {
      assert Next(w, e).frontier == {root} + (Next(w, e).visited - w.passed);
    } else if e.Visit? {
      assert w.visited + {e.d} - (w.passed + {e.d}) == w.visited - w.passed;
    }
  }

  lemma FinishedGrows(events: seq<Event>, e: Event)
    ensures forall d :: Finish(d) in events + [e] <==> Finish(d) in events || e == Finish(d)
  {
  }

  lemma {:induction false} RunKeepsInv(run: map<string, string>, root: string, events: seq<Event>)
    requires Runs(run, root, events)
    ensures Inv(run, root, events, After(run, root, events))
  {
    if events != [] {
      var init, e := events[..|events| - 1], events[|events| - 1];
      RunKeepsInv(run, root, init);
      assert events == init + [e];
      StepKeepsInv(run, root, init, After(run, root, init), e);
      hide Inv, Next;
    } else {
      hide Below;
    }
  }

  // ------------------------------------------------------------ whom the cascade reaches

  /** Some record above `d` was found finished. */
  ghost predicate Sheltered(run: map<string, string>, passed: set<string>, d: string) {
    exists a :: a in passed && Under(run, a, d)
  }

  lemma ShelteredByParent(run: map<string, string>, passed: set<string>, d: string)
    requires d in run
    ensures Sheltered(run, passed, d) <==> run[d] in passed || Sheltered(run, passed, run[d])
  {
    forall a
      ensures Under(run, a, d) <==> run[d] == a || Under(run, a, run[d])
    {
      UnderCases(run, a, d);
    }
  }

  lemma {:induction false} VisitedExactly(
    run: map<string, string>, root: string, events: seq<Event>, w: Walk, d: string, n: nat)
    requires root !in run && Inv(run, root, events, w) && Over(run, w) && UnderN(run, root, d, n)
    ensures d in w.visited <==> !Sheltered(run, w.passed, d)
    decreases n
  {
    ShelteredByParent(run, w.passed, d);
    if run[d] == root {
      forall a
        ensures !Under(run, a, root)
      {
        UnderCases(run, a, root);
      }
    } else {
      VisitedExactly(run, root, events, w, run[d], n - 1);
    }
  }

  /**
    With records finishing between its awaits, the cascade settles everything below the root except what a record
    found finished shelters: a record of the snapshot is still running afterwards if and only if it did not finish by
    itself and one above it had, before the walk came to that one. It touches nothing that was not below the root.
   */
  lemma CascadeReachesExactly(run: map<string, string>, root: string, events: seq<Event>)
    requires root !in run && Runs(run, root, events) && Over(run, After(run, root, events))
    ensures var w := After(run, root, events);
            && w.visited <= Below(run, root)
            && (forall d | d in Below(run, root) ::
                  d in w.running <==> Finish(d) !in events && Sheltered(run, w.passed, d))
  {
    var w := After(run, root, events);
    RunKeepsInv(run, root, events);
    forall d | d in Below(run, root)
      ensures d in w.visited <==> !Sheltered(run, w.passed, d)
    {
      var n: nat :| UnderN(run, root, d, n);
      VisitedExactly(run, root, events, w, d, n);
    }
  }

  /** A record is passed exactly when it had finished by the time the walk looked at it. */
  lemma {:induction false} PassedMeansFinishedBefore(
    run: map<string, string>, root: string, events: seq<Event>, d: string)
    requires Runs(run, root, events)
    ensures d in After(run, root, events).passed <==>
            exists k | 0 <= k < |events| :: events[k] == Visit(d) && Finish(d) in events[..k]
  {
    if events != [] {
      var n := |events| - 1;
      var init := events[..n];
      PassedMeansFinishedBefore(run, root, init, d);
      RunKeepsInv(run, root, init);
      hide Inv, Below;
      PassedLast(run, root, events, d);
      forall k | 0 <= k < n
        ensures init[k] == events[k] && init[..k] == events[..k]
      {
      }
    }
  }

  lemma PassedLast(run: map<string, string>, root: string, events: seq<Event>, d: string)
    requires events != [] && Runs(run, root, events)
    requires Inv(run, root, events[..|events| - 1], After(run, root, events[..|events| - 1]))
    ensures var n := |events| - 1;
            d in After(run, root, events).passed <==>
            d in After(run, root, events[..n]).passed || (events[n] == Visit(d) && Finish(d) in events[..n])
  {
  }

  /** So when no record finishes before the walk comes to it, nothing below the root is left running. */
  lemma WithoutRacesAllIsSettled(run: map<string, string>, root: string, events: seq<Event>)
    requires root !in run && Runs(run, root, events) && Over(run, After(run, root, events))
    requires forall k | 0 <= k < |events| && events[k].Visit? :: Finish(events[k].d) !in events[..k]
    ensures After(run, root, events).visited == Below(run, root) && After(run, root, events).running !! Below(run, root)
  {
    var w := After(run, root, events);
    forall d
      ensures d !in w.passed
    {
      PassedMeansFinishedBefore(run, root, events, d);
    }
    RunKeepsInv(run, root, events);
    forall d | d in Below(run, root)
      ensures d in w.visited
    {
      var n: nat :| UnderN(run, root, d, n);
      VisitedExactly(run, root, events, w, d, n);
    }
  }

  /** The race is real: a child that finishes just before its turn keeps its own child out of the cascade. */
  lemma FinishedChildSheltersItsOwn(root: string, c: string, d: string)
    requires root != c && root != d && c != d
    ensures var run := map[c := root, d := c];
            var events := [Finish(c), Visit(c)];
            && Runs(run, root, events) && Over(run, After(run, root, events))
            && d in Below(run, root) && d in After(run, root, events).running
  {
    var run := map[c := root, d := c];
    var events := [Finish(c), Visit(c)];
    assert events[..1] == [Finish(c)] && events[..1][..0] == [];
    assert After(run, root, []) == Begin(run, root);
    assert After(run, root, events[..1]) == Next(Begin(run, root), Finish(c));
    assert Runs(run, root, events[..1]);
    UnderStep(run, root, c);
    UnderStep(run, root, d);
  }
}
