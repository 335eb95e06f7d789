/** Projecting an agent's approved skills into a Codex home it shares with the user (server/skill_registry.py). */
module SkillSync {
  import opened Base

  type Content = int

  /** An entry of the agent's own store. */
  datatype Source = Folder(content: Content) | Plain

  /** An entry of `$CODEX_HOME/skills`; the marker is the text of its ownership file. */
  datatype Entry = Dir(content: Content, marker: Option<string>) | File

  /** The sidecar: absent, no JSON, JSON the code trips over, or the names it lists. */
  datatype Manifest = Missing | Unparseable | Unusable | Slugs(names: set<string>)

  type Target = map<string, Entry>

  predicate IsAlnum(c: char) { 'a' <= c <= 'z' || '0' <= c <= '9' }

  /** `^[a-z0-9]+(-[a-z0-9]+)*$`, whose dollar also accepts a final newline. */
  predicate IsSlug(name: string) {
    IsDashed(if name != "" && name[|name| - 1] == '\n' then name[..|name| - 1] else name)
  }

  predicate IsDashed(s: string) {
    && s != "" && IsAlnum(s[0]) && IsAlnum(s[|s| - 1])
    && forall i | 0 <= i < |s| - 1 :: IsAlnum(s[i]) || (s[i] == '-' && IsAlnum(s[i + 1]))
  }

  predicate IsWord(w: string) { w != "" && forall i | 0 <= i < |w| :: IsAlnum(w[i]) }

  predicate AllWords(words: seq<string>) { words != [] && forall i | 0 <= i < |words| :: IsWord(words[i]) }

  function Dashed(words: seq<string>): string
    requires words != []
  {
    if |words| == 1 then words[0] else words[0] + "-" + Dashed(words[1..])
  }

  function WordsOf(s: string): (words: seq<string>)
    requires IsDashed(s)
    ensures AllWords(words) && Dashed(words) == s
  {
    if |s| == 1 then [s]
    else if s[1] == '-' then
      var rest := WordsOf(s[2..]);
      assert ([s[..1]] + rest)[1..] == rest;
      assert s == s[..1] + "-" + s[2..];
      [s[..1]] + rest
    else
      var rest := WordsOf(s[1..]);
      var words := [s[..1] + rest[0]] + rest[1..];
      assert words[1..] == rest[1..];
      assert s == s[..1] + s[1..];
      words
  }

  lemma {:induction false} WordsAreDashed(words: seq<string>)
    requires AllWords(words)
    ensures IsDashed(Dashed(words))
  {
    if |words| > 1 {
      WordsAreDashed(words[1..]);
      var w, rest := words[0], Dashed(words[1..]);
      var s := w + "-" + rest;
      hide Dashed;
      forall i | 0 <= i < |s| - 1 ensures IsAlnum(s[i]) || (s[i] == '-' && IsAlnum(s[i + 1])) {
        if i > |w| {
          assert s[i] == rest[i - |w| - 1] && (i + 1 - |w| - 1 < |rest| ==> s[i + 1] == rest[i - |w|]);
        }
      }
    }
  }

  /** The expression's own meaning: words of small letters and digits with one dash between two, and maybe a newline. */
  lemma SlugIsWords(name: string)
    ensures IsSlug(name) <==> exists words | AllWords(words) :: name == Dashed(words) || name == Dashed(words) + "\n"
  {
    if IsSlug(name) {
      var s := if name[|name| - 1] == '\n' then name[..|name| - 1] else name;
      assert AllWords(WordsOf(s)) && (name == s || name == s + "\n");
    }
    forall words | AllWords(words) && (name == Dashed(words) || name == Dashed(words) + "\n") ensures IsSlug(name) {
      WordsAreDashed(words);
      assert (Dashed(words) + "\n")[..|Dashed(words)|] == Dashed(words);
    }
  }

  // ------------------------------------------------------------ what should be there

  function Usable(dirs: map<string, Source>): map<string, Content> {
    map name | name in dirs && dirs[name].Folder? && IsSlug(name) :: dirs[name].content
  }

  /** The agent's store: its global skills, and those of the repository the turn runs in, if it is one. */
  datatype Store = Store(global: map<string, Source>, repo: Option<map<string, Source>>)

  function Desired(store: Store): map<string, Content> {
    Usable(store.global) + if store.repo.Some? then Usable(store.repo.value) else map[]
  }

  function Previous(m: Manifest): set<string> {
    if m.Slugs? then set s | s in m.names && IsSlug(s) else {}
  }

  predicate IsOwned(e: Entry, token: string) { e.Dir? && e.marker == Some(token) }

  function Owned(target: Target, token: string): set<string> {
    set name | name in target && IsOwned(target[name], token)
  }

  /** Wanted, but something the agent does not own has the name. */
  function Blocked(target: Target, desired: map<string, Content>, token: string): set<string> {
    set name | name in desired && name in target && !IsOwned(target[name], token)
  }

  // ------------------------------------------------------------ the sync

  // ------------------------------------------------------------ in plain fields

  /** A skill of this name is in the directory, and the name is a legal one. */
  predicate Offers(dirs: map<string, Source>, name: string) {
    name in dirs && dirs[name].Folder? && IsSlug(name)
  }

  predicate FromRepo(store: Store, name: string) { store.repo.Some? && Offers(store.repo.value, name) }

  predicate Offered(store: Store, name: string) { FromRepo(store, name) || Offers(store.global, name) }

  predicate ListedName(m: Manifest, name: string) { m.Slugs? && name in m.names && IsSlug(name) }

  /** Somebody else's: a file, or a directory without the agent's own marker. */
  predicate IsForeign(target: Target, name: string, token: string) {
    name in target && (target[name].File? || target[name].marker != Some(token))
  }

  /**
    An entry after a sync: what is not the agent's stays; else the repository's skill is there, or the global one of the
    name; else an own directory that the list named goes, and any other stays.
   */
  predicate PlainEntry(target: Target, m: Manifest, store: Store, token: string, after: Target, name: string) {
    if IsForeign(target, name, token) then name in after && after[name] == target[name]
    else if FromRepo(store, name) then
      name in after && after[name] == Dir(store.repo.value[name].content, Some(token))
    else if Offers(store.global, name) then
      name in after && after[name] == Dir(store.global[name].content, Some(token))
    else if name in target && !ListedName(m, name) then name in after && after[name] == target[name]
    else name !in after
  }

  lemma OfferedIsDesired(store: Store, name: string)
    ensures name in Desired(store) <==> Offered(store, name)
    ensures name in Desired(store) ==>
              Desired(store)[name] ==
              if FromRepo(store, name) then store.repo.value[name].content else store.global[name].content
  {
  }

  lemma SomethingToDo(store: Store, m: Manifest)
    ensures Desired(store) != map[] || Previous(m) != {} <==> exists n :: Offered(store, n) || ListedName(m, n)
  {
    forall n ensures n in Desired(store) <==> Offered(store, n) {
      OfferedIsDesired(store, n);
    }
    assert forall n :: n in Previous(m) <==> ListedName(m, n);
    hide Offered, ListedName, Desired, Previous;
    if Desired(store) != map[] {
      var n :| n in Desired(store);
      assert Offered(store, n);
    }
    if Previous(m) != {} {
      var n :| n in Previous(m);
      assert ListedName(m, n);
    }
  }

  lemma SyncIsPlain(target: Target, m: Manifest, store: Store, token: string)
    ensures forall n ::
              PlainEntry(target, m, store, token, Projected(target, Previous(m), Desired(store), token), n)
    ensures forall n ::
              n in Desired(store).Keys - Blocked(target, Desired(store), token) <==>
              Offered(store, n) && !IsForeign(target, n, token)
  {
    forall n
      ensures PlainEntry(target, m, store, token, Projected(target, Previous(m), Desired(store), token), n)
      ensures n in Desired(store).Keys - Blocked(target, Desired(store), token) <==>
              Offered(store, n) && !IsForeign(target, n, token)
    {
      OfferedIsDesired(store, n);
      hide Desired, IsSlug, Offers;
    }
  }

  class CodexHome {
    var target: Target
    var manifest: Manifest

    /** sync_codex_skills_dir, with every file operation succeeding; None for `store` is a missing source root. */
    method Sync(store: Option<Store>, token: string) returns (done: bool)
      modifies this
      ensures done <==>
              store.Some? && !manifest.Unusable? && (Desired(store.value) != map[] || Previous(old(manifest)) != {})
      ensures !done ==> target == old(target) && manifest == old(manifest)
      ensures done ==> target == Projected(old(target), Previous(old(manifest)), Desired(store.value), token)
      ensures done ==> manifest == Slugs(Desired(store.value).Keys - Blocked(old(target), Desired(store.value), token))
      ensures (target, manifest) == Synced(old(target), old(manifest), store, token)
      // In plain fields: when it runs, what every entry becomes, and which names the new list holds.
      ensures done <==>
                && store.Some? && !old(manifest).Unusable?
                && exists n :: Offered(store.value, n) || ListedName(old(manifest), n)
      ensures done ==> forall n :: PlainEntry(old(target), old(manifest), store.value, token, target, n)
      ensures done ==>
                && manifest.Slugs?
                && forall n :: n in manifest.names <==> Offered(store.value, n) && !IsForeign(old(target), n, token)
    {
      hide IsSlug;
      if store.None? {
        return false;
      }
      var desired := Collect(store.value.global, map[]);
      if store.value.repo.Some? {
        desired := Collect(store.value.repo.value, desired);
      }
      assert desired == Desired(store.value);
      SomethingToDo(store.value, manifest);
      if manifest.Unusable? {
        return false;
      }
      var previous := Previous(manifest);
      if desired == map[] && previous == {} {
        return false;
      }
      RemoveStale(previous - desired.Keys, token);
      assert Blocked(target, desired, token) == Blocked(old(target), desired, token);
      assert Placed(target, desired, token) == Projected(old(target), previous, desired, token);
      var managed := Place(desired, token);
      manifest := Slugs(managed);
      done := true;
      SyncIsPlain(old(target), old(manifest), store.value, token);
    }

    method RemoveStale(stale: set<string>, token: string)
      modifies this`target
      ensures target == old(target) - (stale * Owned(old(target), token))
    {
      var rest := stale;
      while rest != {}
        invariant rest <= stale && target == old(target) - ((stale - rest) * Owned(old(target), token))
        decreases rest
      {
        var slug :| slug in rest;
        rest := rest - {slug};
        if slug in target && IsOwned(target[slug], token) {
          target := target - {slug};
        }
      }
    }

    method Place(desired: map<string, Content>, token: string) returns (managed: set<string>)
      modifies this`target
      ensures target == Placed(old(target), desired, token)
      ensures managed == desired.Keys - Blocked(old(target), desired, token)
    {
      hide IsOwned;
      ghost var free := desired.Keys - Blocked(target, desired, token);
      managed := {};
      var rest := desired.Keys;
      while rest != {}
        invariant rest <= desired.Keys && managed == free - rest
        invariant target.Keys == old(target).Keys + managed
        invariant forall n | n in target ::
                    target[n] == if n in managed then Dir(desired[n], Some(token)) else old(target)[n]
        decreases rest
      {
        var slug :| slug in rest;
        rest := rest - {slug};
        if slug in target && !IsOwned(target[slug], token) {
          continue;
        }
        target := target[slug := Dir(desired[slug], Some(token))];
        managed := managed + {slug};
      }
    }
  }

  /** A later directory wins on the same name. */
  method Collect(dirs: map<string, Source>, before: map<string, Content>) returns (desired: map<string, Content>)
    ensures desired == before + Usable(dirs)
  {
    hide IsSlug;
    desired := before;
    var rest := dirs.Keys;
    while rest != {}
      invariant rest <= dirs.Keys
      invariant desired == before + (Usable(dirs) - rest)
      decreases rest
    {
      var name :| name in rest;
      rest := rest - {name};
      if dirs[name].Folder? && IsSlug(name) {
        desired := desired[name := dirs[name].content];
      }
    }
    assert Usable(dirs) - {} == Usable(dirs);
  }

  function Placed(target: Target, desired: map<string, Content>, token: string): Target {
    target + map name | name in desired && !(name in target && !IsOwned(target[name], token)) ::
               Dir(desired[name], Some(token))
  }

  function Projected(target: Target, previous: set<string>, desired: map<string, Content>, token: string): Target {
    Placed(target - ((previous - desired.Keys) * Owned(target, token)), desired, token)
  }

  // ------------------------------------------------------------ what a sync achieves

  /** The whole outcome of a sync on values. */
  function Synced(target: Target, manifest: Manifest, store: Option<Store>, token: string): (Target, Manifest) {
    if store.None? || manifest.Unusable? || (Desired(store.value) == map[] && Previous(manifest) == {})
    then (target, manifest)
    else
      var desired := Desired(store.value);
      (Projected(target, Previous(manifest), desired, token), Slugs(desired.Keys - Blocked(target, desired, token)))
  }

  /** Every directory the agent owns there is on the list. */
  ghost predicate Listed(target: Target, manifest: Manifest, token: string) {
    Owned(target, token) <= Previous(manifest)
  }

  lemma DesiredAreSlugs(store: Store)
    ensures forall n | n in Desired(store) :: IsSlug(n)
  {
  }

  /** What is owned afterwards: all that is wanted and free, and what was owned but neither wanted nor listed. */
  lemma OwnedAfterSync(target: Target, manifest: Manifest, store: Option<Store>, token: string)
    requires store.Some? && !manifest.Unusable?
    ensures var desired := Desired(store.value);
            Owned(Synced(target, manifest, store, token).0, token) ==
            (desired.Keys - Blocked(target, desired, token)) +
              (Owned(target, token) - desired.Keys - Previous(manifest))
  {
    hide IsSlug;
  }

  /**
    So a sync gives exactly the wanted and free names if and only if nothing unwanted and owned had fallen off the
    list.
   */
  lemma SyncIsExact(target: Target, manifest: Manifest, store: Option<Store>, token: string)
    requires store.Some? && !manifest.Unusable?
    ensures var desired := Desired(store.value);
            Owned(Synced(target, manifest, store, token).0, token) ==
              desired.Keys - Blocked(target, desired, token) <==>
            Owned(target, token) <= desired.Keys + Previous(manifest)
  {
    var desired := Desired(store.value);
    OwnedAfterSync(target, manifest, store, token);
    NothingLeftOver(desired.Keys - Blocked(target, desired, token), Owned(target, token), desired.Keys,
      Previous(manifest));
  }

  lemma NothingLeftOver<T>(placed: set<T>, owned: set<T>, desired: set<T>, listed: set<T>)
    requires placed <= desired
    ensures placed + (owned - desired - listed) == placed <==> owned <= desired + listed
  {
  }

  lemma SyncedContents(target: Target, manifest: Manifest, store: Option<Store>, token: string)
    requires Listed(target, manifest, token) && store.Some? && !manifest.Unusable?
    ensures var desired := Desired(store.value);
            var (after, list) := Synced(target, manifest, store, token);
            && Owned(after, token) == desired.Keys - Blocked(target, desired, token)
            && Previous(list) >= Owned(after, token)
            && Blocked(after, desired, token) == Blocked(target, desired, token)
            && (forall n | n in Owned(after, token) :: after[n] == Dir(desired[n], Some(token)))
            && (if desired == map[] && Previous(manifest) == {} then (after, list) == (target, manifest)
                else list == Slugs(Owned(after, token)))
  {
    hide IsSlug;
    DesiredAreSlugs(store.value);
    SyncIsExact(target, manifest, store, token);
    hide Desired;
  }

  /** Projecting onto a target that already holds exactly what is wanted. */
  lemma NothingToProject(target: Target, desired: map<string, Content>, token: string)
    requires Owned(target, token) == desired.Keys - Blocked(target, desired, token)
    requires forall n | n in Owned(target, token) :: target[n] == Dir(desired[n], Some(token))
    ensures Projected(target, Owned(target, token), desired, token) == target
  {
    var stale := (Owned(target, token) - desired.Keys) * Owned(target, token);
    assert stale == {};
    assert target - stale == target;
    var placed := Placed(target, desired, token);
    assert placed.Keys == target.Keys;
    forall n | n in target
      ensures placed[n] == target[n]
    {
      assert n in desired && !(n in target && !IsOwned(target[n], token)) ==> n in Owned(target, token);
    }
    assert placed == target;
  }

  /** From a list that is complete the sync is exact, keeps the list complete, and a second sync changes nothing. */
  lemma SyncFromCompleteList(target: Target, manifest: Manifest, store: Option<Store>, token: string)
    requires Listed(target, manifest, token) && store.Some? && !manifest.Unusable?
    ensures var desired := Desired(store.value);
            var (after, list) := Synced(target, manifest, store, token);
            && Owned(after, token) == desired.Keys - Blocked(target, desired, token)
            && Listed(after, list, token)
            && (forall n | n in Owned(after, token) :: after[n] == Dir(desired[n], Some(token)))
            && Synced(after, list, store, token) == (after, list)
  {
    var desired := Desired(store.value);
    var (after, list) := Synced(target, manifest, store, token);
    SyncedContents(target, manifest, store, token);
    NothingToProject(after, desired, token);
    DesiredAreSlugs(store.value);
    hide IsSlug, Desired, Blocked, Projected;
    if desired != map[] || Previous(manifest) != {} {
      assert Previous(list) == Owned(after, token);
      assert Synced(after, list, store, token) == (after, list);
    } else {
      assert (after, list) == (target, manifest);
    }
  }

  /** Whatever the list says, nothing the agent does not own is touched, added to the list, or given its marker. */
  lemma ForeignIsUntouched(target: Target, manifest: Manifest, store: Option<Store>, token: string, name: string)
    requires name in target && !IsOwned(target[name], token)
    ensures var (after, list) := Synced(target, manifest, store, token);
            && name in after && after[name] == target[name]
            && (list != manifest ==> name !in Previous(list))
  {
  }

  // ------------------------------------------------------------ sequences of syncs

  /** A turn's sync, with or without a source root, or something that spoils the list in between. */
  datatype Event = Turn(store: Option<Store>) | ListBecomes(m: Manifest)

  datatype Home = Home(target: Target, manifest: Manifest)

  /** What may happen to the list besides a sync: it is deleted or damaged, not forged. */
  predicate Spoils(m: Manifest) { !m.Slugs? }

  function Step(h: Home, e: Event, token: string): Home {
    match e
    case Turn(store) =>
      var (target, manifest) := Synced(h.target, h.manifest, store, token);
      Home(target, manifest)
    case ListBecomes(m) => if Spoils(m) then h.(manifest := m) else h
  }

  function After(h: Home, events: seq<Event>, token: string): Home {
    if events == [] then h else Step(After(h, events[..|events| - 1], token), events[|events| - 1], token)
  }

  /**
    The books one can keep without looking at the home: what the last completed sync put there, what has fallen off the
    list since, and whether the list still stands, is lost, or stops every sync.
   */
  datatype Books = Books(wanted: set<string>, forgotten: set<string>, standing: Manifest)

  function Booked(b: Books, e: Event, foreign: set<string>): Books {
    match e
    case ListBecomes(m) => if Spoils(m) then b.(standing := m) else b
    case Turn(None) => b
    case Turn(Some(store)) =>
      var desired, listed := Desired(store).Keys, if b.standing.Slugs? then b.wanted else {};
      if b.standing.Unusable? || (desired == {} && listed == {}) then b
      else Books(desired - foreign, b.wanted + b.forgotten - desired - listed, Slugs({}))
  }

  function BooksAfter(b: Books, events: seq<Event>, foreign: set<string>): Books {
    if events == [] then b else Booked(BooksAfter(b, events[..|events| - 1], foreign), events[|events| - 1], foreign)
  }

  function Foreign(target: Target, token: string): set<string> {
    set name | name in target && !IsOwned(target[name], token)
  }

  /** The home is as the books say. */
  ghost predicate Balanced(h: Home, b: Books, foreign: set<string>, token: string) {
    && Owned(h.target, token) == b.wanted + b.forgotten
    && Foreign(h.target, token) == foreign
    && (h.manifest.Slugs? <==> b.standing.Slugs?) && (h.manifest.Unusable? <==> b.standing.Unusable?)
    && (h.manifest.Slugs? ==> Previous(h.manifest) == b.wanted && b.wanted !! b.forgotten)
    && (forall n | n in b.wanted :: IsSlug(n))
  }

  lemma SyncedForeign(target: Target, manifest: Manifest, store: Option<Store>, token: string)
    ensures Foreign(Synced(target, manifest, store, token).0, token) == Foreign(target, token)
  {
    hide Desired, IsSlug;
  }

  lemma TurnBalances(h: Home, b: Books, foreign: set<string>, token: string, store: Store)
    requires Balanced(h, b, foreign, token)
    ensures Balanced(Step(h, Turn(Some(store)), token), Booked(b, Turn(Some(store)), foreign), foreign, token)
  {
    hide IsSlug;
    var desired := Desired(store);
    SyncedForeign(h.target, h.manifest, Some(store), token);
    DesiredAreSlugs(store);
    assert Previous(h.manifest) == if b.standing.Slugs? then b.wanted else {};
    assert desired == map[] <==> desired.Keys == {};
    if !h.manifest.Unusable? && (desired != map[] || Previous(h.manifest) != {}) {
      OwnedAfterSync(h.target, h.manifest, Some(store), token);
      assert desired.Keys - Blocked(h.target, desired, token) == desired.Keys - foreign;
      hide Projected, Owned, Foreign, Desired;
    }
  }

  /**
    Over any sequence of turns, with lists lost and source roots missing in between: what the agent owns in the home is
    exactly what the last completed sync wanted and could place, and what had fallen off the list by then and has not
    been wanted since.
   */
  lemma {:induction false} BooksBalance(h: Home, b: Books, events: seq<Event>, foreign: set<string>, token: string)
    requires Balanced(h, b, foreign, token)
    ensures Balanced(After(h, events, token), BooksAfter(b, events, foreign), foreign, token)
  {
    if events != [] {
      var init, e := events[..|events| - 1], events[|events| - 1];
      BooksBalance(h, b, init, foreign, token);
      if e.Turn? && e.store.Some? {
        TurnBalances(After(h, init, token), BooksAfter(b, init, foreign), foreign, token, e.store.value);
      }
      hide Owned, Foreign, Desired, Projected, IsSlug;
    }
  }

  /** From an empty home whose list is never spoiled, nothing is ever forgotten. */
  lemma {:induction false} UnspoiledForgetsNothing(events: seq<Event>, foreign: set<string>)
    requires forall e | e in events :: e.Turn?
    ensures var b := BooksAfter(Books({}, {}, Missing), events, foreign);
            b.forgotten == {} && (b.standing.Slugs? || (b.wanted == {} && b.standing.Missing?))
  {
    if events != [] {
      UnspoiledForgetsNothing(events[..|events| - 1], foreign);
    }
  }

  // ------------------------------------------------------------ where it does not hold

  /** An unparseable list forgets: the sync drops exactly the unwanted directories from the list for good. */
  lemma ForgottenStaysForever(target: Target, first: Store, later: Option<Store>, token: string, name: string)
    requires name in Owned(target, token) && name !in Desired(first) && Desired(first) != map[]
    requires later.Some? ==> name !in Desired(later.value)
    ensures var (t1, m1) := Synced(target, Unparseable, Some(first), token);
            && name in Owned(t1, token) && !Listed(t1, m1, token)
            && name in Owned(Synced(t1, m1, later, token).0, token)
  {
  }

  /** Two agents on one home: the second one's sync takes the first one's directories off the shared list. */
  lemma SharedHomeForgets(target: Target, manifest: Manifest, other: Store, token: string, otherToken: string)
    requires token != otherToken && !manifest.Unusable? && Desired(other) != map[]
    ensures var (after, list) := Synced(target, manifest, Some(other), otherToken);
            && Owned(after, token) == Owned(target, token)
            && (Listed(after, list, token) <==> Owned(target, token) == {})
  {
    hide IsSlug;
  }
}
