/** Moving stored paths from the old home to the new one (server/legacy_rename.py). */
module LegacyPaths {
  import opened Base

  // ------------------------------------------------------------ posix paths

  predicate NoSlash(s: string) { forall i | 0 <= i < |s| :: s[i] != '/' }

  /** str.split("/"). */
  function Split(s: string): (parts: seq<string>)
    ensures parts != [] && forall i | 0 <= i < |parts| :: NoSlash(parts[i])
  {
    if s == "" then [""]
    else if s[0] == '/' then [""] + Split(s[1..])
    else
      var rest := Split(s[1..]);
      [[s[0]] + rest[0]] + rest[1..]
  }

  function Join(parts: seq<string>): string {
    if parts == [] then "" else if |parts| == 1 then parts[0] else parts[0] + "/" + Join(parts[1..])
  }

  /** A name normpath keeps. */
  predicate Kept(c: string) { c != "" && c != "." && c != ".." && NoSlash(c) }

  predicate AllKept(cs: seq<string>) { forall i | 0 <= i < |cs| :: Kept(cs[i]) }

  /** normpath over the parts of an absolute path: ".." climbs, and stops at the root. */
  function Fold(parts: seq<string>): seq<string> {
    if parts == [] then []
    else
      var done, c := Fold(parts[..|parts| - 1]), parts[|parts| - 1];
      if c == "" || c == "." then done
      else if c != ".." then done + [c]
      else if done != [] then done[..|done| - 1] else done
  }

  /** Exactly two leading slashes are kept, any other number becomes one. */
  function Slashes(p: string): (k: nat)
    ensures k == 1 || k == 2
  {
    if |p| >= 2 && p[..2] == "//" && !(|p| >= 3 && p[2] == '/') then 2 else 1
  }

  function Render(slashes: nat, cs: seq<string>): string {
    (if slashes == 2 then "//" else "/") + Join(cs)
  }

  predicate IsAbs(p: string) { p != "" && p[0] == '/' }

  function NormPath(p: string): string {
    Render(Slashes(p), Fold(Split(p)))
  }

  /** The process's working directory, and expanduser. */
  datatype Env = Env(cwd: string, expand: string -> string)

  ghost predicate Sane(env: Env) {
    IsAbs(env.cwd) && forall p | IsAbs(p) :: env.expand(p) == p
  }

  /** _norm: a relative string, a path or not, is taken from the working directory. */
  function Norm(env: Env, value: string): string {
    var p := env.expand(value);
    NormPath(if IsAbs(p) then p
             else if env.cwd != "" && env.cwd[|env.cwd| - 1] == '/' then env.cwd + p
             else env.cwd + "/" + p)
  }

  predicate Under(path: string, prefix: string) {
    path == prefix || prefix + "/" <= path
  }

  function Reprefix(env: Env, value: string, src: string, dst: string): string {
    var normalized := Norm(env, value);
    if Under(normalized, src) then dst + normalized[|src|..] else value
  }

  // ------------------------------------------------------------ normal paths

  /** What _norm gives, other than the root. */
  ghost predicate Normal(p: string) {
    exists k: nat, cs | k in {1, 2} && AllKept(cs) && cs != [] :: p == Render(k, cs)
  }

  /** Two homes, neither of which lies inside the other; a root would hold the other one. */
  ghost predicate Apart(src: string, dst: string) {
    Normal(src) && Normal(dst) && !Under(src, dst) && !Under(dst, src)
  }

  lemma {:induction false} SplitConcat(a: string, b: string)
    ensures Split(a + "/" + b) == Split(a) + Split(b)
  {
    if a == "" {
      assert a + "/" + b == "/" + b;
    } else {
      assert (a + "/" + b)[1..] == a[1..] + "/" + b;
      SplitConcat(a[1..], b);
    }
  }

  lemma {:induction false} JoinSplit(s: string)
    ensures Join(Split(s)) == s
  {
    if s != "" {
      JoinSplit(s[1..]);
      var rest := Split(s[1..]);
      if s[0] == '/' {
        assert Split(s)[1..] == rest;
      } else {
        assert Split(s)[1..] == rest[1..];
      }
    }
  }

  lemma {:induction false} SplitNoSlash(c: string)
    requires NoSlash(c)
    ensures Split(c) == [c]
  {
    if c != "" {
      SplitNoSlash(c[1..]);
      assert c == [c[0]] + c[1..];
    }
  }

  lemma {:induction false} SplitJoin(cs: seq<string>)
    requires cs != [] && forall i | 0 <= i < |cs| :: NoSlash(cs[i])
    ensures Split(Join(cs)) == cs
  {
    SplitNoSlash(cs[0]);
    if |cs| > 1 {
      SplitJoin(cs[1..]);
      SplitConcat(cs[0], Join(cs[1..]));
    }
  }

  lemma {:induction false} FoldKept(parts: seq<string>, cs: seq<string>)
    requires AllKept(cs)
    ensures Fold(parts + cs) == Fold(parts) + cs
  {
    if cs == [] {
      assert parts + cs == parts;
    } else {
      assert (parts + cs)[..|parts + cs| - 1] == parts + cs[..|cs| - 1];
      FoldKept(parts, cs[..|cs| - 1]);
    }
  }

  lemma {:induction false} FoldGivesKept(parts: seq<string>)
    requires forall i | 0 <= i < |parts| :: NoSlash(parts[i])
    ensures AllKept(Fold(parts))
  {
    if parts != [] {
      FoldGivesKept(parts[..|parts| - 1]);
    }
  }

  function Blanks(k: nat): seq<string> {
    if k == 2 then ["", ""] else [""]
  }

  lemma SplitSlash(rest: string)
    ensures Split("/" + rest) == [""] + Split(rest)
  {
  }

  lemma SplitRender(k: nat, cs: seq<string>)
    requires k in {1, 2} && AllKept(cs) && cs != []
    ensures Split(Render(k, cs)) == Blanks(k) + cs
    ensures Slashes(Render(k, cs)) == k
  {
    var body := Join(cs);
    assert body != "" && body[0] != '/' by {
      assert Kept(cs[0]);
    }
    SplitJoin(cs);
    hide Split, Join;
    SplitSlash(body);
    SplitSlash("/" + body);
    assert "//" + body == "/" + ("/" + body);
  }

  lemma NormalIsFixed(p: string)
    requires Normal(p)
    ensures NormPath(p) == p
  {
    var k: nat, cs :| k in {1, 2} && AllKept(cs) && cs != [] && p == Render(k, cs);
    SplitRender(k, cs);
    FoldKept(Blanks(k), cs);
    BlanksFold(Blanks(k));
    hide Split, Fold, Join, Render;
    assert Fold(Split(p)) == [] + cs == cs;
  }

  lemma {:induction false} JoinConcat(a: seq<string>, b: seq<string>)
    requires a != [] && b != []
    ensures Join(a + b) == Join(a) + "/" + Join(b)
  {
    assert (a + b)[1..] == a[1..] + b;
    if |a| > 1 {
      JoinConcat(a[1..], b);
    }
  }

  /** The part of a normal path below a normal prefix is itself made of kept names. */
  lemma BelowIsKept(src: string, path: string, rest: string)
    requires Normal(src) && path == NormPath(path) && path == src + "/" + rest
    ensures AllKept(Split(rest))
  {
    var ko: nat, co :| ko in {1, 2} && AllKept(co) && co != [] && src == Render(ko, co);
    SplitRender(ko, co);
    SplitConcat(src, rest);
    FoldGivesKept(Split(path));
    KeptAfter(Slashes(path), Fold(Split(path)), ko, co, Split(rest));
  }

  /** Where the parts of a rendered path start with those of another, the remaining ones are names. */
  lemma KeptAfter(k: nat, cs: seq<string>, ko: nat, co: seq<string>, more: seq<string>)
    requires k in {1, 2} && ko in {1, 2} && AllKept(cs) && AllKept(co) && co != []
    requires Split(Render(k, cs)) == Blanks(ko) + co + more
    ensures AllKept(more)
  {
    var parts := Split(Render(k, cs));
    assert parts[ko] == co[0] && Kept(co[0]);
    if cs == [] {
      RootsSplitBlank(k);
    } else {
      SplitRender(k, cs);
      hide Split, Render;
      assert parts[k] == cs[0] && Kept(cs[0]);
      assert k == ko;
      forall i | 0 <= i < |more|
        ensures Kept(more[i])
      {
        assert parts[ko + |co| + i] == more[i];
        assert parts[ko + |co| + i] == cs[|co| + i];
      }
    }
  }

  predicate AllBlank(parts: seq<string>) { forall i | 0 <= i < |parts| :: parts[i] == "" }

  lemma RootsSplitBlank(k: nat)
    ensures AllBlank(Split(Render(k, [])))
  {
    assert Split("/") == [""] + Split("");
    assert Split("//") == [""] + Split("/");
    assert Render(k, []) == if k == 2 then "//" else "/";
  }

  lemma AppendKept(k: nat, cs: seq<string>, more: seq<string>)
    requires cs != [] && more != [] && AllKept(cs) && AllKept(more)
    ensures AllKept(cs + more) && Render(k, cs + more) == Render(k, cs) + ("/" + Join(more))
  {
    JoinConcat(cs, more);
    hide Join;
  }

  /** A rewritten path is normal again. */
  lemma MovedIsNormal(src: string, dst: string, path: string)
    requires Normal(src) && Normal(dst) && path == NormPath(path) && Under(path, src)
    ensures Normal(dst + path[|src|..])
  {
    hide Join, Split, Render, NormPath, AllKept;
    if path == src {
      assert dst + path[|src|..] == dst;
    } else {
      var rest := path[|src| + 1..];
      assert path == src + "/" + rest;
      BelowIsKept(src, path, rest);
      var k: nat, cs :| k in {1, 2} && AllKept(cs) && cs != [] && dst == Render(k, cs);
      JoinSplit(rest);
      AppendKept(k, cs, Split(rest));
      assert path[|src|..] == "/" + rest;
      assert dst + path[|src|..] == Render(k, cs + Split(rest));
    }
  }

  /** Nothing below the new home is below the old one. */
  lemma MovedIsAway(src: string, dst: string, tail: string)
    requires !Under(src, dst) && !Under(dst, src)
    requires tail == "" || tail[0] == '/'
    ensures !Under(dst + tail, src)
  {
    var moved := dst + tail;
    if tail == "" {
      assert moved == dst;
    } else if |src| < |dst| {
      assert dst[..|src|] == moved[..|src|] && dst[|src|] == moved[|src|];
    } else {
      assert moved[..|dst|] == dst && moved[|dst|] == '/';
    }
  }

  lemma {:induction false} NormIsStable(env: Env, value: string)
    requires Sane(env)
    ensures IsAbs(Norm(env, value)) && NormPath(Norm(env, value)) == Norm(env, value)
  {
    var p := env.expand(value);
    var full := if IsAbs(p) then p else if env.cwd[|env.cwd| - 1] == '/' then env.cwd + p else env.cwd + "/" + p;
    var k, cs := Slashes(full), Fold(Split(full));
    FoldGivesKept(Split(full));
    if cs == [] {
      RootsAreFixed(k);
    } else {
      assert Normal(Render(k, cs));
      NormalIsFixed(Render(k, cs));
    }
  }

  lemma {:induction false} RootsAreFixed(k: nat)
    requires k in {1, 2}
    ensures NormPath(Render(k, [])) == Render(k, [])
  {
    var p := Render(k, []);
    RootsSplitBlank(k);
    BlanksFold(Split(p));
  }

  lemma {:induction false} BlanksFold(parts: seq<string>)
    requires AllBlank(parts)
    ensures Fold(parts) == []
  {
    if parts != [] {
      BlanksFold(parts[..|parts| - 1]);
    }
  }

  /** Not only slashes: what follows does not change how many lead the path. */
  predicate HasName(p: string) { exists i | 0 <= i < |p| :: p[i] != '/' }

  predicate IsRoot(p: string) { p == "/" || p == "//" }

  /**
    normpath read from left to right: "" and "." stay, a name goes down one level, ".." back up, not above the root.
   */
  lemma NormPathWalks(p: string, c: string)
    requires IsAbs(p) && HasName(p) && NoSlash(c)
    ensures c == "" || c == "." ==> NormPath(p + "/" + c) == NormPath(p)
    ensures Kept(c) ==> NormPath(p + "/" + c) == NormPath(p) + (if IsRoot(NormPath(p)) then c else "/" + c)
    ensures Kept(c) ==> NormPath(p + "/" + c + "/" + "..") == NormPath(p)
    ensures IsRoot(NormPath(p)) ==> NormPath(p + "/" + "..") == NormPath(p)
  {
    var q, up := p + "/" + c, "..";
    LongerPath(p, c);
    LongerPath(p, up);
    LongerPath(q, up);
    SplitNoSlash(c);
    SplitNoSlash(up);
    FoldGivesKept(Split(p));
    var parts, k := Split(p), Slashes(p);
    hide Split, Slashes, HasName, IsAbs;
    FoldWalks(parts, c);
    RootIsEmpty(k, Fold(parts));
    if Kept(c) {
      RenderOneMore(k, Fold(parts), c);
    }
    hide Fold, IsRoot, Render;
  }

  lemma FoldWalks(parts: seq<string>, c: string)
    ensures c == "" || c == "." ==> Fold(parts + [c]) == Fold(parts)
    ensures Kept(c) ==> Fold(parts + [c]) == Fold(parts) + [c] && Fold(parts + [c] + [".."]) == Fold(parts)
    ensures Fold(parts) == [] ==> Fold(parts + [".."]) == []
  {
    FoldLast(parts, c);
    FoldLast(parts, "..");
    FoldLast(parts + [c], "..");
    hide Fold;
  }

  lemma RenderOneMore(k: nat, cs: seq<string>, c: string)
    requires k in {1, 2} && AllKept(cs) && Kept(c)
    ensures Render(k, cs + [c]) == Render(k, cs) + if IsRoot(Render(k, cs)) then c else "/" + c
  {
    RootIsEmpty(k, cs);
    if cs == [] {
      assert cs + [c] == [c];
    } else {
      AppendKept(k, cs, [c]);
    }
  }

  lemma LongerPath(p: string, more: string)
    requires IsAbs(p) && HasName(p)
    ensures IsAbs(p + "/" + more) && HasName(p + "/" + more)
    ensures Split(p + "/" + more) == Split(p) + Split(more) && Slashes(p + "/" + more) == Slashes(p)
  {
    SplitConcat(p, more);
    var q := p + "/" + more;
    var i :| 0 <= i < |p| && p[i] != '/';
    assert forall j | 0 <= j < |p| :: q[j] == p[j];
    hide Split;
    assert q[i] != '/';
  }

  lemma RootIsEmpty(k: nat, cs: seq<string>)
    requires k in {1, 2} && AllKept(cs)
    ensures IsRoot(Render(k, cs)) <==> cs == []
  {
    if cs != [] {
      assert Kept(cs[0]);
      assert Render(k, cs)[if k == 2 then 2 else 1] == cs[0][0];
    }
  }

  lemma FoldLast(parts: seq<string>, c: string)
    ensures var done := Fold(parts);
            Fold(parts + [c]) == if c == "" || c == "." then done
                                 else if c != ".." then done + [c]
                                 else if done != [] then done[..|done| - 1] else done
  {
    assert (parts + [c])[..|parts|] == parts;
  }

  lemma {:induction false} FoldContinues(a: seq<string>, b: seq<string>, more: seq<string>)
    requires Fold(a) == Fold(b)
    ensures Fold(a + more) == Fold(b + more)
  {
    hide Fold;
    if more == [] {
      assert a + more == a && b + more == b;
    } else {
      var init, c := more[..|more| - 1], more[|more| - 1];
      FoldContinues(a, b, init);
      FoldLast(a + init, c);
      FoldLast(b + init, c);
      assert more == init + [c];
      assert a + more == a + init + [c] && b + more == b + init + [c];
    }
  }

  lemma SecondSlashIsBlank(init: string, p: string)
    requires IsAbs(init) && HasName(init)
    ensures NormPath(init + "/" + p) == NormPath(init + "/" + "/" + p)
  {
    var cwd := init + "/";
    assert cwd == init + "/" + "" && Split("") == [""];
    LongerPath(init, "");
    LongerPath(init, p);
    LongerPath(cwd, p);
    hide Slashes, IsAbs, HasName, Split;
    FoldLast(Split(init), "");
    FoldContinues(Split(init), Split(cwd), Split(p));
  }

  /** A relative value is taken from the working directory; at the root no second slash is put before it. */
  lemma RelativeIsBelowCwd(env: Env, value: string)
    requires Sane(env) && !IsAbs(env.expand(value))
    ensures HasName(env.cwd) ==> Norm(env, value) == NormPath(env.cwd + "/" + env.expand(value))
    ensures env.cwd == "/" ==> Norm(env, value) == NormPath("/" + env.expand(value))
  {
    var cwd := env.cwd;
    hide NormPath;
    if HasName(cwd) && cwd[|cwd| - 1] == '/' {
      var init := cwd[..|cwd| - 1];
      var i :| 0 <= i < |cwd| && cwd[i] != '/';
      assert IsAbs(init) && init[i] != '/';
      assert cwd == init + "/";
      SecondSlashIsBlank(init, env.expand(value));
    }
  }

  /** One value: it leaves the old home, unless it never was there, and a second rewrite changes nothing. */
  lemma ReprefixMovesOut(env: Env, value: string, src: string, dst: string)
    requires Sane(env) && Apart(src, dst)
    ensures var moved := Reprefix(env, value, src, dst);
            && !Under(Norm(env, moved), src)
            && (moved == value <==> !Under(Norm(env, value), src))
            && Reprefix(env, moved, src, dst) == moved
  {
    var path := Norm(env, value);
    if Under(path, src) {
      var moved := dst + path[|src|..];
      NormIsStable(env, value);
      MovedIsNormal(src, dst, path);
      NormalIsFixed(moved);
      MovedIsAway(src, dst, path[|src|..]);
      assert IsAbs(dst) by {
        var k: nat, cs :| k in {1, 2} && AllKept(cs) && cs != [] && dst == Render(k, cs);
      }
      assert Norm(env, moved) == moved;
    }
  }

  /** A value inside the old home moves with its normalized tail to the new one, any other stays as it is. */
  ghost predicate Relocated(env: Env, before: string, after: string, src: string, dst: string) {
    var path := Norm(env, before);
    if path == src || src + "/" <= path then after == dst + path[|src|..] else after == before
  }

  /** One value inside the old home: its tail stays, it is inside the new one, and the way back leads to its path. */
  lemma ReprefixGoesBack(env: Env, value: string, src: string, dst: string)
    requires Sane(env) && Apart(src, dst)
    requires Norm(env, value) == src || src + "/" <= Norm(env, value)
    ensures var path, moved := Norm(env, value), Reprefix(env, value, src, dst);
            && (moved == dst || dst + "/" <= moved)
            && moved[|dst|..] == path[|src|..]
            && Norm(env, moved) == moved
            && Reprefix(env, moved, dst, src) == path
  {
    var path := Norm(env, value);
    var moved := dst + path[|src|..];
    MovedIsFixed(env, value, src, dst);
    hide Norm, Apart;
    SwapPrefix(path, src, dst);
  }

  lemma MovedIsFixed(env: Env, value: string, src: string, dst: string)
    requires Sane(env) && Apart(src, dst) && Under(Norm(env, value), src)
    ensures var moved := dst + Norm(env, value)[|src|..];
            Norm(env, moved) == moved
  {
    var path := Norm(env, value);
    var moved := dst + path[|src|..];
    NormIsStable(env, value);
    MovedIsNormal(src, dst, path);
    NormalIsFixed(moved);
    assert IsAbs(moved) by {
      var k: nat, cs :| k in {1, 2} && AllKept(cs) && cs != [] && moved == Render(k, cs);
    }
    hide NormPath, Normal;
  }

  lemma SwapPrefix(path: string, src: string, dst: string)
    requires path == src || src + "/" <= path
    ensures var moved := dst + path[|src|..];
            && (moved == dst || dst + "/" <= moved)
            && moved[|dst|..] == path[|src|..] && src + path[|src|..] == path
  {
    var tail := path[|src|..];
    if path != src {
      assert tail[0] == path[|src|] == (src + "/")[|src|];
      assert (dst + tail)[..|dst| + 1] == dst + "/";
    }
  }

  /** Paths that differ inside the old home still differ in the new one. */
  lemma MovedStayApart(env: Env, v: string, w: string, src: string, dst: string)
    requires Sane(env) && Apart(src, dst)
    requires Norm(env, v) == src || src + "/" <= Norm(env, v)
    requires Norm(env, w) == src || src + "/" <= Norm(env, w)
    ensures Reprefix(env, v, src, dst) == Reprefix(env, w, src, dst) <==> Norm(env, v) == Norm(env, w)
  {
    ReprefixGoesBack(env, v, src, dst);
    ReprefixGoesBack(env, w, src, dst);
    hide Norm, Apart;
  }

  /** There and back: a path of the old home comes back normalized, and what neither home holds was never touched. */
  lemma ThereAndBack(env: Env, value: string, src: string, dst: string)
    requires Sane(env) && Apart(src, dst) && !Under(Norm(env, value), dst)
    ensures Reprefix(env, Reprefix(env, value, src, dst), dst, src) == Restored(env, value, src)
  {
    if Under(Norm(env, value), src) {
      ReprefixGoesBack(env, value, src, dst);
    }
  }

  function Restored(env: Env, value: string, src: string): string {
    var path := Norm(env, value);
    if path == src || src + "/" <= path then path else value
  }

  // ------------------------------------------------------------ nested JSON

  datatype Json = Text(s: string) | List(items: seq<Json>) | Object(fields: seq<Field>) | Other(n: int)

  datatype Field = Field(key: string, value: Json)

  function RewriteJson(env: Env, node: Json, src: string, dst: string): Json {
    match node
    case Text(s) => Text(Reprefix(env, s, src, dst))
    case List(items) => List(RewriteItems(env, items, src, dst))
    case Object(fields) => Object(RewriteFields(env, fields, src, dst))
    case Other(_) => node
  }

  function RewriteItems(env: Env, items: seq<Json>, src: string, dst: string): seq<Json> {
    if items == [] then [] else [RewriteJson(env, items[0], src, dst)] + RewriteItems(env, items[1..], src, dst)
  }

  function RewriteFields(env: Env, fields: seq<Field>, src: string, dst: string): seq<Field> {
    if fields == [] then []
    else [Field(fields[0].key, RewriteJson(env, fields[0].value, src, dst))] + RewriteFields(env, fields[1..], src, dst)
  }

  /** Every string of a document in reading order; keys are not among them. */
  function Strings(node: Json): seq<string> {
    match node
    case Text(s) => [s]
    case List(items) => ItemStrings(items)
    case Object(fields) => FieldStrings(fields)
    case Other(_) => []
  }

  function ItemStrings(items: seq<Json>): seq<string> {
    if items == [] then [] else Strings(items[0]) + ItemStrings(items[1..])
  }

  function FieldStrings(fields: seq<Field>): seq<string> {
    if fields == [] then [] else Strings(fields[0].value) + FieldStrings(fields[1..])
  }

  /** The document with its strings blanked out: its shape, its keys and everything that is no string. */
  function Shape(node: Json): Json {
    match node
    case Text(_) => Text("")
    case List(items) => List(ItemShapes(items))
    case Object(fields) => Object(FieldShapes(fields))
    case Other(_) => node
  }

  function ItemShapes(items: seq<Json>): seq<Json> {
    if items == [] then [] else [Shape(items[0])] + ItemShapes(items[1..])
  }

  function FieldShapes(fields: seq<Field>): seq<Field> {
    if fields == [] then [] else [Field(fields[0].key, Shape(fields[0].value))] + FieldShapes(fields[1..])
  }

  function ReprefixAll(env: Env, values: seq<string>, src: string, dst: string): (r: seq<string>)
    ensures |r| == |values| && forall i | 0 <= i < |values| :: r[i] == Reprefix(env, values[i], src, dst)
  {
    if values == [] then [] else [Reprefix(env, values[0], src, dst)] + ReprefixAll(env, values[1..], src, dst)
  }

  lemma {:induction false} ReprefixAllConcat(env: Env, a: seq<string>, b: seq<string>, src: string, dst: string)
    ensures ReprefixAll(env, a + b, src, dst) == ReprefixAll(env, a, src, dst) + ReprefixAll(env, b, src, dst)
  {
  }

  /** The walk keeps shape and keys, and rewrites each string in its place. */
  lemma {:induction false} RewriteIsPointwise(env: Env, node: Json, src: string, dst: string)
    ensures Shape(RewriteJson(env, node, src, dst)) == Shape(node)
    ensures Strings(RewriteJson(env, node, src, dst)) == ReprefixAll(env, Strings(node), src, dst)
  {
    match node
    case Text(s) =>
      assert [s][1..] == [];
    case List(items) => ItemsPointwise(env, items, src, dst);
    case Object(fields) => FieldsPointwise(env, fields, src, dst);
    case Other(_) =>
  }

  lemma {:induction false} ItemsPointwise(env: Env, items: seq<Json>, src: string, dst: string)
    ensures ItemShapes(RewriteItems(env, items, src, dst)) == ItemShapes(items)
    ensures ItemStrings(RewriteItems(env, items, src, dst)) == ReprefixAll(env, ItemStrings(items), src, dst)
  {
    if items != [] {
      RewriteIsPointwise(env, items[0], src, dst);
      ItemsPointwise(env, items[1..], src, dst);
      ReprefixAllConcat(env, Strings(items[0]), ItemStrings(items[1..]), src, dst);
    }
  }

  lemma {:induction false} FieldsPointwise(env: Env, fields: seq<Field>, src: string, dst: string)
    ensures FieldShapes(RewriteFields(env, fields, src, dst)) == FieldShapes(fields)
    ensures FieldStrings(RewriteFields(env, fields, src, dst)) == ReprefixAll(env, FieldStrings(fields), src, dst)
  {
    if fields != [] {
      RewriteIsPointwise(env, fields[0].value, src, dst);
      FieldsPointwise(env, fields[1..], src, dst);
      ReprefixAllConcat(env, Strings(fields[0].value), FieldStrings(fields[1..]), src, dst);
    }
  }

  /** Shape and strings together are the document. */
  lemma {:induction false} ShapeAndStrings(a: Json, b: Json)
    requires Shape(a) == Shape(b) && Strings(a) == Strings(b)
    ensures a == b
  {
    match a
    case Text(_) =>
    case List(items) => ItemsDetermined(items, b.items);
    case Object(fields) => FieldsDetermined(fields, b.fields);
    case Other(_) =>
  }

  /** Documents of one shape hold equally many strings. */
  lemma {:induction false} SameShapeSameCount(a: Json, b: Json)
    requires Shape(a) == Shape(b)
    ensures |Strings(a)| == |Strings(b)|
  {
    match a
    case Text(_) =>
    case List(items) => ItemsSameCount(items, b.items);
    case Object(fields) => FieldsSameCount(fields, b.fields);
    case Other(_) =>
  }

  lemma {:induction false} ItemsSameCount(a: seq<Json>, b: seq<Json>)
    requires ItemShapes(a) == ItemShapes(b)
    ensures |a| == |b| && |ItemStrings(a)| == |ItemStrings(b)|
    decreases a
  {
    if a != [] {
      assert ItemShapes(a)[0] == ItemShapes(b)[0] && ItemShapes(a)[1..] == ItemShapes(b)[1..];
      SameShapeSameCount(a[0], b[0]);
      ItemsSameCount(a[1..], b[1..]);
    }
  }

  lemma {:induction false} FieldsSameCount(a: seq<Field>, b: seq<Field>)
    requires FieldShapes(a) == FieldShapes(b)
    ensures |a| == |b| && |FieldStrings(a)| == |FieldStrings(b)|
    decreases a
  {
    if a != [] {
      assert FieldShapes(a)[0] == FieldShapes(b)[0] && FieldShapes(a)[1..] == FieldShapes(b)[1..];
      SameShapeSameCount(a[0].value, b[0].value);
      FieldsSameCount(a[1..], b[1..]);
    }
  }

  lemma SplitEqual<T>(a: seq<T>, b: seq<T>, x: seq<T>, y: seq<T>)
    requires a + b == x + y && |a| == |x|
    ensures a == x && b == y
  {
    assert a == (a + b)[..|a|] && b == (a + b)[|a|..];
    assert x == (x + y)[..|x|] && y == (x + y)[|x|..];
  }

  lemma {:induction false} ItemsDetermined(a: seq<Json>, b: seq<Json>)
    requires ItemShapes(a) == ItemShapes(b) && ItemStrings(a) == ItemStrings(b)
    ensures a == b
    decreases a
  {
    ItemsSameCount(a, b);
    if a != [] {
      assert ItemShapes(a)[0] == ItemShapes(b)[0] && ItemShapes(a)[1..] == ItemShapes(b)[1..];
      SameShapeSameCount(a[0], b[0]);
      SplitEqual(Strings(a[0]), ItemStrings(a[1..]), Strings(b[0]), ItemStrings(b[1..]));
      ShapeAndStrings(a[0], b[0]);
      ItemsDetermined(a[1..], b[1..]);
      assert a == [a[0]] + a[1..] && b == [b[0]] + b[1..];
    }
  }

  lemma {:induction false} FieldsDetermined(a: seq<Field>, b: seq<Field>)
    requires FieldShapes(a) == FieldShapes(b) && FieldStrings(a) == FieldStrings(b)
    ensures a == b
    decreases a
  {
    FieldsSameCount(a, b);
    if a != [] {
      assert FieldShapes(a)[0] == FieldShapes(b)[0] && FieldShapes(a)[1..] == FieldShapes(b)[1..];
      SameShapeSameCount(a[0].value, b[0].value);
      SplitEqual(Strings(a[0].value), FieldStrings(a[1..]), Strings(b[0].value), FieldStrings(b[1..]));
      ShapeAndStrings(a[0].value, b[0].value);
      FieldsDetermined(a[1..], b[1..]);
      assert a == [a[0]] + a[1..] && b == [b[0]] + b[1..];
    }
  }

  /** No string of the document lies under the old home. */
  ghost predicate Clean(env: Env, node: Json, src: string) {
    forall i | 0 <= i < |Strings(node)| :: !Under(Norm(env, Strings(node)[i]), src)
  }

  /** A document comes out clean, is left alone exactly when it was clean, and is not changed a second time. */
  lemma RewriteMovesOut(env: Env, node: Json, src: string, dst: string)
    requires Sane(env) && Apart(src, dst)
    ensures var moved := RewriteJson(env, node, src, dst);
            && Clean(env, moved, src)
            && (moved == node <==> Clean(env, node, src))
            && RewriteJson(env, moved, src, dst) == moved
  {
    var moved := RewriteJson(env, node, src, dst);
    RewriteIsPointwise(env, node, src, dst);
    AllMoveOut(env, Strings(node), src, dst);
    RewriteIsPointwise(env, moved, src, dst);
    AllMoveOut(env, Strings(moved), src, dst);
    hide Strings, Shape, RewriteJson, Apart, Under, Norm;
    if Clean(env, node, src) {
      ShapeAndStrings(moved, node);
    }
    ShapeAndStrings(RewriteJson(env, moved, src, dst), moved);
  }

  lemma AllMoveOut(env: Env, values: seq<string>, src: string, dst: string)
    requires Sane(env) && Apart(src, dst)
    ensures var moved := ReprefixAll(env, values, src, dst);
            && (forall i | 0 <= i < |moved| :: !Under(Norm(env, moved[i]), src))
            && (moved == values <==> forall i | 0 <= i < |values| :: !Under(Norm(env, values[i]), src))
  {
    var moved := ReprefixAll(env, values, src, dst);
    hide Under, Norm, Apart, Reprefix, ReprefixAll;
    forall i | 0 <= i < |values|
      ensures !Under(Norm(env, moved[i]), src) && (moved[i] == values[i] <==> !Under(Norm(env, values[i]), src))
    {
      ReprefixMovesOut(env, values[i], src, dst);
    }
  }

  /** The same document with each string relocated. */
  ghost predicate DocumentRelocated(env: Env, before: Json, after: Json, src: string, dst: string) {
    && Shape(after) == Shape(before) && |Strings(after)| == |Strings(before)|
    && forall i | 0 <= i < |Strings(before)| :: Relocated(env, Strings(before)[i], Strings(after)[i], src, dst)
  }

  lemma RewriteRelocates(env: Env, node: Json, src: string, dst: string)
    ensures DocumentRelocated(env, node, RewriteJson(env, node, src, dst), src, dst)
  {
    RewriteIsPointwise(env, node, src, dst);
    hide Strings, Shape, RewriteJson;
  }

  /** A document without a string in the new home comes back as it was, but for the form of its moved paths. */
  lemma DocumentGoesBack(env: Env, node: Json, src: string, dst: string)
    requires Sane(env) && Apart(src, dst) && Clean(env, node, dst)
    ensures var back := RewriteJson(env, RewriteJson(env, node, src, dst), dst, src);
            && Shape(back) == Shape(node) && |Strings(back)| == |Strings(node)|
            && forall i | 0 <= i < |Strings(node)| :: Strings(back)[i] == Restored(env, Strings(node)[i], src)
  {
    var moved := RewriteJson(env, node, src, dst);
    RewriteIsPointwise(env, node, src, dst);
    RewriteIsPointwise(env, moved, dst, src);
    hide Strings, Shape, RewriteJson, Apart, Under, Norm, Reprefix;
    forall i | 0 <= i < |Strings(node)|
      ensures Reprefix(env, Strings(moved)[i], dst, src) == Restored(env, Strings(node)[i], src)
    {
      ThereAndBack(env, Strings(node)[i], src, dst);
    }
  }

  // ------------------------------------------------------------ the database

  /** json.loads and json.dumps on a column. */
  datatype Codec = Codec(load: string -> Option<Json>, dump: Json -> string)

  ghost predicate RoundTrips(c: Codec) { forall j :: c.load(c.dump(j)) == Some(j) }

  /** json.dumps gives no empty text. */
  ghost predicate NeverEmpty(c: Codec) { forall j :: c.dump(j) != "" }

  type Column = map<int, string>

  function RewrittenPlain(env: Env, value: string, src: string, dst: string): string {
    if value == "" then value else Reprefix(env, value, src, dst)
  }

  function RewrittenJson(env: Env, c: Codec, value: string, src: string, dst: string): string {
    if value == "" || c.load(value).None? then value
    else
      var node := c.load(value).value;
      if RewriteJson(env, node, src, dst) == node then value else c.dump(RewriteJson(env, node, src, dst))
  }

  /** What a stored value looks like once nothing in it points into the old home. */
  ghost predicate PlainDone(env: Env, value: string, src: string) {
    value == "" || !Under(Norm(env, value), src)
  }

  ghost predicate JsonDone(env: Env, c: Codec, value: string, src: string) {
    value == "" || c.load(value).None? || Clean(env, c.load(value).value, src)
  }

  lemma RewrittenIsDone(env: Env, c: Codec, value: string, src: string, dst: string)
    requires Sane(env) && Apart(src, dst) && RoundTrips(c)
    ensures PlainDone(env, RewrittenPlain(env, value, src, dst), src)
    ensures RewrittenPlain(env, value, src, dst) == value <==> PlainDone(env, value, src)
    ensures JsonDone(env, c, RewrittenJson(env, c, value, src, dst), src)
    ensures JsonDone(env, c, value, src) ==> RewrittenJson(env, c, value, src, dst) == value
  {
    hide Under, Norm, Apart, Reprefix, RewriteJson, Clean;
    if value != "" {
      ReprefixMovesOut(env, value, src, dst);
      if c.load(value).Some? {
        RewriteMovesOut(env, c.load(value).value, src, dst);
      }
    }
  }

  /** The same rows, each with a value that stands in the given relation to the old one. */
  ghost predicate ColumnsBecome(before: seq<Column>, after: seq<Column>, relation: (string, string) -> bool) {
    && |after| == |before|
    && (forall k | 0 <= k < |before| :: after[k].Keys == before[k].Keys)
    && (forall k, id | 0 <= k < |before| && id in before[k] :: relation(before[k][id], after[k][id]))
  }

  /**
    A stored document: nothing, or no JSON, stays; any other is relocated, and left as it is when that changes none.
   */
  ghost predicate ValueRelocated(env: Env, c: Codec, before: string, after: string, src: string, dst: string) {
    if before == "" || c.load(before).None? then after == before
    else
      && c.load(after).Some?
      && DocumentRelocated(env, c.load(before).value, c.load(after).value, src, dst)
      && (c.load(after) == c.load(before) ==> after == before)
  }

  lemma ValuesRelocate(env: Env, c: Codec, value: string, src: string, dst: string)
    requires RoundTrips(c)
    ensures value != "" ==> Relocated(env, value, RewrittenPlain(env, value, src, dst), src, dst)
    ensures ValueRelocated(env, c, value, RewrittenJson(env, c, value, src, dst), src, dst)
  {
    if value != "" && c.load(value).Some? {
      RewriteRelocates(env, c.load(value).value, src, dst);
      hide Relocated, DocumentRelocated, RewriteJson;
    }
  }

  class Database {
    /** The three columns that hold a path, and the two that hold JSON; NULLs are not kept. */
    var plain: seq<Column>
    var documents: seq<Column>

    /** rewrite_legacy_paths: nothing without the marker, else every column in turn. */
    method RewriteLegacyPaths(env: Env, c: Codec, marked: bool, src: string, dst: string) returns (changed: nat)
      requires Sane(env) && RoundTrips(c)
      modifies this
      ensures !marked || src == dst ==> changed == 0 && plain == old(plain) && documents == old(documents)
      ensures marked && src != dst ==>
                && plain == Rewritten(old(plain), v => RewrittenPlain(env, v, src, dst))
                && documents == Rewritten(old(documents), v => RewrittenJson(env, c, v, src, dst))
                && (changed == 0 <==> plain == old(plain) && documents == old(documents))
      // In plain fields: where each stored value goes.
      ensures marked && src != dst ==>
                && ColumnsBecome(old(plain), plain,
                     (v, w) => if v == "" then w == "" else Relocated(env, v, w, src, dst))
                && ColumnsBecome(old(documents), documents, (v, w) => ValueRelocated(env, c, v, w, src, dst))
    {
      if src == dst || !marked {
        return 0;
      }
      var some, more;
      plain, some := RewriteColumns(plain, v => RewrittenPlain(env, v, src, dst));
      documents, more := RewriteColumns(documents, v => RewrittenJson(env, c, v, src, dst));
      changed := some + more;
      forall v: string
        ensures v != "" ==> Relocated(env, v, RewrittenPlain(env, v, src, dst), src, dst)
        ensures ValueRelocated(env, c, v, RewrittenJson(env, c, v, src, dst), src, dst)
      {
        ValuesRelocate(env, c, v, src, dst);
      }
    }
  }

  function RewrittenColumn(column: Column, f: string -> string): Column {
    map id | id in column :: f(column[id])
  }

  function Rewritten(columns: seq<Column>, f: string -> string): (r: seq<Column>)
    ensures |r| == |columns| && forall k | 0 <= k < |columns| :: r[k] == RewrittenColumn(columns[k], f)
  {
    if columns == [] then [] else Rewritten(columns[..|columns| - 1], f) + [RewrittenColumn(columns[|columns| - 1], f)]
  }

  method RewriteColumns(columns: seq<Column>, f: string -> string) returns (r: seq<Column>, changed: nat)
    ensures r == Rewritten(columns, f)
    ensures changed == 0 <==> r == columns
  {
    r, changed := [], 0;
    for k := 0 to |columns|
      invariant r == Rewritten(columns[..k], f)
      invariant changed == 0 <==> r == columns[..k]
    {
      assert columns[..k + 1][..k] == columns[..k];
      var column, some := RewriteColumn(columns[k], f);
      assert r + [column] == columns[..k + 1] <==> r == columns[..k] && column == columns[k] by {
        assert columns[..k + 1] == columns[..k] + [columns[k]];
        assert (r + [column])[..k] == r && (r + [column])[k] == column;
      }
      r, changed := r + [column], changed + some;
    }
    assert columns[..|columns|] == columns;
  }

  /** The rows of one column: only values that change are written, and counted. */
  method RewriteColumn(column: Column, f: string -> string) returns (r: Column, changed: nat)
    ensures r == RewrittenColumn(column, f)
    ensures changed == 0 <==> r == column
  {
    var ids := Enumerate(column.Keys);
    r, changed := column, 0;
    for i := 0 to |ids|
      invariant r.Keys == column.Keys
      invariant forall j | 0 <= j < i :: r[ids[j]] == f(column[ids[j]])
      invariant forall j | i <= j < |ids| :: r[ids[j]] == column[ids[j]]
      invariant changed == 0 <==> r == column
    {
      var rewritten := f(column[ids[i]]);
      if rewritten == column[ids[i]] {
        continue;
      }
      r := r[ids[i] := rewritten];
      changed := changed + 1;
    }
  }

  /**
    After a run nothing stored points into the old home; it changes nothing exactly then, and nothing a second time.
   */
  lemma RunLeavesNothingBehind(env: Env, c: Codec, plain: seq<Column>, documents: seq<Column>, src: string, dst: string)
    requires Sane(env) && Apart(src, dst) && RoundTrips(c)
    ensures var p := Rewritten(plain, v => RewrittenPlain(env, v, src, dst));
            var d := Rewritten(documents, v => RewrittenJson(env, c, v, src, dst));
            && NothingUnder(env, c, p, d, src)
            && (NothingUnder(env, c, plain, documents, src) <==> p == plain && d == documents)
            && Rewritten(p, v => RewrittenPlain(env, v, src, dst)) == p
            && Rewritten(d, v => RewrittenJson(env, c, v, src, dst)) == d
  {
    hide RewrittenPlain, RewrittenJson, PlainDone, JsonDone, Apart;
    var f := (v: string) => RewrittenPlain(env, v, src, dst);
    var g := (v: string) => RewrittenJson(env, c, v, src, dst);
    forall v: string
      ensures PlainDone(env, f(v), src) && (PlainDone(env, v, src) ==> f(v) == v)
      ensures JsonDone(env, c, g(v), src) && (JsonDone(env, c, v, src) ==> g(v) == v)
    {
      RewrittenIsDone(env, c, v, src, dst);
    }
    RewrittenColumns(plain, f, v => PlainDone(env, v, src));
    RewrittenColumns(documents, g, v => JsonDone(env, c, v, src));
  }

  ghost predicate AllValues(columns: seq<Column>, good: string -> bool) {
    forall k, id | 0 <= k < |columns| && id in columns[k] :: good(columns[k][id])
  }

  /** A map that makes every value good and leaves good ones alone settles the columns in one run. */
  lemma RewrittenColumns(columns: seq<Column>, f: string -> string, good: string -> bool)
    requires forall v :: good(f(v)) && (good(v) ==> f(v) == v)
    ensures AllValues(Rewritten(columns, f), good)
    ensures AllValues(columns, good) ==> Rewritten(columns, f) == columns
    ensures Rewritten(Rewritten(columns, f), f) == Rewritten(columns, f)
  {
    var r := Rewritten(columns, f);
    if AllValues(columns, good) {
      forall k | 0 <= k < |columns|
        ensures RewrittenColumn(columns[k], f) == columns[k]
      {
        assert forall id | id in columns[k] :: good(columns[k][id]);
      }
    }
    forall k | 0 <= k < |columns|
      ensures RewrittenColumn(r[k], f) == r[k]
    {
    }
  }

  ghost predicate NothingUnder(env: Env, c: Codec, plain: seq<Column>, documents: seq<Column>, src: string) {
    && AllValues(plain, v => PlainDone(env, v, src))
    && AllValues(documents, v => JsonDone(env, c, v, src))
  }

  /** The run back restores what the run moved, where the new home was empty: paths come back in normal form. */
  lemma RunGoesBack(env: Env, c: Codec, plain: seq<Column>, documents: seq<Column>, src: string, dst: string)
    requires Sane(env) && Apart(src, dst) && RoundTrips(c) && NeverEmpty(c)
    requires NothingUnder(env, c, plain, documents, dst)
    ensures var p := Rewritten(plain, v => RewrittenPlain(env, v, src, dst));
            var d := Rewritten(documents, v => RewrittenJson(env, c, v, src, dst));
            && ColumnsBecome(plain, Rewritten(p, v => RewrittenPlain(env, v, dst, src)),
                 (v, w) => w == if v == "" then "" else Restored(env, v, src))
            && ColumnsBecome(documents, Rewritten(d, v => RewrittenJson(env, c, v, dst, src)),
                 (v, w) => DocumentRestored(env, c, v, w, src))
  {
    var f, f' := (v: string) => RewrittenPlain(env, v, src, dst), (v: string) => RewrittenPlain(env, v, dst, src);
    var g, g' := (v: string) => RewrittenJson(env, c, v, src, dst), (v: string) => RewrittenJson(env, c, v, dst, src);
    var same := (v: string, w: string) => w == if v == "" then "" else Restored(env, v, src);
    var alike := (v: string, w: string) => DocumentRestored(env, c, v, w, src);
    forall v: string | PlainDone(env, v, dst) ensures same(v, f'(f(v))) {
      PlainGoesBack(env, v, src, dst);
    }
    forall v: string | JsonDone(env, c, v, dst) ensures alike(v, g'(g(v))) {
      JsonGoesBack(env, c, v, src, dst);
    }
    hide RewrittenPlain, RewrittenJson, PlainDone, JsonDone, Apart, Restored, DocumentRestored;
    TwoRuns(plain, f, f', v => PlainDone(env, v, dst), same);
    TwoRuns(documents, g, g', v => JsonDone(env, c, v, dst), alike);
  }

  lemma TwoRuns(columns: seq<Column>, there: string -> string, back: string -> string,
                good: string -> bool, relation: (string, string) -> bool)
    requires AllValues(columns, good) && forall v | good(v) :: relation(v, back(there(v)))
    ensures ColumnsBecome(columns, Rewritten(Rewritten(columns, there), back), relation)
  {
  }

  ghost predicate DocumentRestored(env: Env, c: Codec, before: string, after: string, src: string) {
    if before == "" || c.load(before).None? then after == before
    else
      && c.load(after).Some?
      && var b, a := c.load(before).value, c.load(after).value;
      && Shape(a) == Shape(b) && |Strings(a)| == |Strings(b)|
      && forall i | 0 <= i < |Strings(b)| :: Strings(a)[i] == Restored(env, Strings(b)[i], src)
  }

  lemma PlainGoesBack(env: Env, value: string, src: string, dst: string)
    requires Sane(env) && Apart(src, dst) && PlainDone(env, value, dst)
    ensures RewrittenPlain(env, RewrittenPlain(env, value, src, dst), dst, src) ==
            if value == "" then "" else Restored(env, value, src)
  {
    if value != "" {
      ThereAndBack(env, value, src, dst);
      assert dst != "";
    }
  }

  lemma JsonGoesBack(env: Env, c: Codec, value: string, src: string, dst: string)
    requires Sane(env) && Apart(src, dst) && RoundTrips(c) && NeverEmpty(c) && JsonDone(env, c, value, dst)
    ensures DocumentRestored(
              env, c, value, RewrittenJson(env, c, RewrittenJson(env, c, value, src, dst), dst, src), src)
  {
    if value != "" && c.load(value).Some? {
      DocumentGoesBack(env, c.load(value).value, src, dst);
      hide RewriteJson, Strings, Shape, Restored, Apart;
    }
  }
}
