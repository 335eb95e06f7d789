/** The two-slot tree of server/deploy.py and its one flip point. */
module Layout {
  import opened Base

  /** A directory entry of the deploy root; link targets are names under the root or paths out of it. */
  datatype Entry = Directory | File | Link(target: string)

  type Tree = map<string, Entry>

  const SLOT_A := "a"
  const SLOT_B := "b"
  const CURRENT := "current"

  predicate IsSlot(name: string) { name == SLOT_A || name == SLOT_B }

  function Staged(slot: string): string { ".current." + slot + ".staged" }

  /** is_dir and not is_symlink. */
  predicate IsRealSlot(tree: Tree, name: string) {
    name in tree && tree[name].Directory?
  }

  /** Path.resolve inside the root: follow links; a loop has no target. */
  function Resolve(tree: Tree, name: string, seen: set<string>): Option<string>
    decreases tree.Keys - seen
  {
    if name in tree && tree[name].Link? then
      if name in seen then None else Resolve(tree, tree[name].target, seen + {name})
    else Some(name)
  }

  /** Following `name` never ends. */
  predicate Loops(tree: Tree, name: string) { Resolve(tree, name, {}).None? }

  /** What `current` points at: a slot only when it is reached through a link and really is a directory. */
  ghost predicate PointsAt(tree: Tree, slot: string) {
    && CURRENT in tree && tree[CURRENT].Link?
    && IsSlot(slot) && IsRealSlot(tree, slot)
    && Resolve(tree, CURRENT, {}) == Some(slot)
  }

  /** Path.resolve raises RuntimeError on a loop of links, which is no OSError. */
  datatype LookupError = LinkLoop

  function CurrentSlot(tree: Tree): (slot: Result<Option<string>, LookupError>)
    ensures forall s :: slot == Ok(Some(s)) <==> PointsAt(tree, s)
    ensures slot.Err? <==> CURRENT in tree && tree[CURRENT].Link? && Loops(tree, CURRENT)
  {
    if CURRENT !in tree || !tree[CURRENT].Link? then Ok(None)
    else
      var target := Resolve(tree, CURRENT, {});
      if target.None? then Err(LinkLoop)
      else if target == Some(SLOT_A) && IsRealSlot(tree, SLOT_A) then Ok(Some(SLOT_A))
      else if target == Some(SLOT_B) && IsRealSlot(tree, SLOT_B) then Ok(Some(SLOT_B))
      else Ok(None)
  }

  /** Where the next deploy stages; it looks at `current` first. */
  function IdleSlot(tree: Tree): (slot: Result<string, LookupError>)
    ensures slot.Ok? ==> IsSlot(slot.value) && CurrentSlot(tree) != Ok(Some(slot.value))
    ensures slot.Err? <==> CurrentSlot(tree).Err?
    ensures slot.Ok? ==> (slot.value == "a" <==> PointsAt(tree, "b"))   // so "b" before any `current` exists
  {
    var current := CurrentSlot(tree);
    if current.Err? then Err(current.error) else Ok(if current.value != Some(SLOT_B) then SLOT_B else SLOT_A)
  }

  datatype FlipError = UnknownSlot | NotRealSlot | StagedInTheWay | CurrentInTheWay

  predicate IsDirectory(tree: Tree, name: string) {
    name in tree && tree[name].Directory?
  }

  class DeployLayout {
    var tree: Tree
    /** Every tree a crash could have left, oldest first. */
    ghost var history: seq<Tree>

    /** switch_current: unlink a stale staged link, symlink, then one atomic rename. */
    method SwitchCurrent(slot: string) returns (failed: Option<FlipError>)
      modifies this
      ensures failed.None? <==>
                && IsSlot(slot) && IsRealSlot(old(tree), slot)
                && !IsDirectory(old(tree), Staged(slot)) && !IsDirectory(old(tree), CURRENT)
      ensures failed == Some(CurrentInTheWay) ==>
                && IsDirectory(old(tree), CURRENT)
                && tree == With(old(tree), Staged(slot), Some(Link(slot)))
                && CurrentSlot(tree) == CurrentSlot(old(tree)) == Ok(None)
      ensures failed.Some? && failed != Some(CurrentInTheWay) ==> tree == old(tree) && history == old(history)
      ensures failed.None? ==> tree == (old(tree) - {Staged(slot)})[CURRENT := Link(slot)] && PointsAt(tree, slot)
      ensures |old(history)| <= |history| && history[..|old(history)|] == old(history)
      ensures forall k | |old(history)| <= k < |history| ::
                history[k] == tree || CurrentSlot(history[k]) == CurrentSlot(old(tree)) ||
                  Reads(old(tree), Staged(slot))
    {
      if !IsSlot(slot) {
        return Some(UnknownSlot);
      }
      if !(slot in tree && tree[slot] == Directory) {
        return Some(NotRealSlot);
      }
      var staged := Staged(slot);
      StagedIsApart(slot);
      if staged in tree {
        if tree[staged] == Directory {
          return Some(StagedInTheWay);
        }
        tree := tree - {staged};
        history := history + [tree];
        assert tree == With(old(tree), staged, None);
        UnreadEntries(old(tree), staged, None);
      }
      tree := tree[staged := Link(slot)];
      history := history + [tree];
      assert tree == With(old(tree), staged, Some(Link(slot)));
      UnreadEntries(old(tree), staged, Some(Link(slot)));
      if CURRENT in tree && tree[CURRENT] == Directory {
        return Some(CurrentInTheWay);
      }
      tree := (tree - {staged})[CURRENT := Link(slot)];
      history := history + [tree];
      assert Resolve(tree, slot, {CURRENT}) == Some(slot);
      failed := None;
    }
  }

  /** `current` is resolved through this entry: only a foreign tree does that to a staged name. */
  ghost predicate Reads(tree: Tree, name: string) {
    Visits(tree, name, CURRENT, {})
  }

  ghost predicate Visits(tree: Tree, name: string, from: string, seen: set<string>)
    decreases tree.Keys - seen
  {
    from == name ||
      (from in tree && tree[from].Link? && from !in seen && Visits(tree, name, tree[from].target, seen + {from}))
  }

  /** The tree with one entry replaced or removed. */
  function With(tree: Tree, name: string, entry: Option<Entry>): Tree {
    if entry.Some? then tree[name := entry.value] else tree - {name}
  }

  lemma StagedIsApart(slot: string)
    requires IsSlot(slot)
    ensures Staged(slot) != CURRENT && !IsSlot(Staged(slot)) && slot != CURRENT
  {
  }

  /** Changing an entry that the resolution does not visit does not change it. */
  lemma {:induction false} UnreadResolve(
    tree: Tree, name: string, entry: Option<Entry>, from: string, seen: set<string>)
    requires !Visits(tree, name, from, seen)
    ensures Resolve(With(tree, name, entry), from, seen) == Resolve(tree, from, seen)
    decreases tree.Keys - seen
  {
    if from in tree && tree[from].Link? && from !in seen {
      UnreadResolve(tree, name, entry, tree[from].target, seen + {from});
    }
  }

  lemma UnreadEntries(tree: Tree, name: string, entry: Option<Entry>)
    requires name != CURRENT && !IsSlot(name)
    ensures !Reads(tree, name) ==> CurrentSlot(With(tree, name, entry)) == CurrentSlot(tree)
  {
    if !Reads(tree, name) {
      UnreadResolve(tree, name, entry, CURRENT, {});
    }
  }

  /** Flipping there and back restores what `current` reads as, from any tree that had a current slot. */
  lemma FlipAndBack(tree: Tree, from: string, to: string)
    requires PointsAt(tree, from) && IsSlot(to) && IsRealSlot(tree, to)
    ensures var there := (tree - {Staged(to)})[CURRENT := Link(to)];
            var back := (there - {Staged(from)})[CURRENT := Link(from)];
            && CurrentSlot(there) == Ok(Some(to)) && CurrentSlot(back) == Ok(Some(from))
            && IdleSlot(there).Ok? && IdleSlot(there).value != to
            && (forall name | name != CURRENT && name != Staged(to) && name != Staged(from) ::
                  (name in back <==> name in tree) && (name in tree ==> back[name] == tree[name]))
  {
    StagedIsApart(to);
    StagedIsApart(from);
    var there := (tree - {Staged(to)})[CURRENT := Link(to)];
    var back := (there - {Staged(from)})[CURRENT := Link(from)];
    assert Resolve(there, to, {CURRENT}) == Some(to);
    assert Resolve(back, from, {CURRENT}) == Some(from);
    assert PointsAt(there, to) && PointsAt(back, from);
  }
}
