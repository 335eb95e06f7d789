/** The handoff line of server/switcher.py: what the server offers and what the switcher accepts. */
module HandoffContract {
  import opened Base

  datatype Json =
    | Null
    | Bool(b: bool)
    | Number(n: int)
    | Text(text: string)
    | List(items: seq<Json>)
    | Object(fields: map<string, Json>)

  type Detail = map<string, Json>

  datatype Handoff = Handoff(
    fromSlot: string, toSlot: string, oldSha: string, newSha: string, oldPid: int, host: string, port: int,
    dbPath: string, snapshotPath: string, serveArgv: seq<Json>, serveEnv: map<string, Json>)

  const REQUIRED: set<string> :=
    {"from_slot", "to_slot", "old_sha", "new_sha", "old_pid", "host", "port", "db_path", "snapshot_path"}

  predicate IsSlot(s: string) { s == "a" || s == "b" }

  /** Python's str and int; the second one raises on what is no number. */
  datatype Casts = Casts(str: Json -> string, toInt: Json -> Option<int>)

  ghost predicate Honest(c: Casts) {
    && (forall s :: c.str(Text(s)) == s)
    && (forall n :: c.toInt(Number(n)) == Some(n))
  }

  predicate Present(d: Detail, key: string) {
    key in d && d[key] != Null && d[key] != Text("")
  }

  /** bool(value) for `detail.get(key) or default`. */
  predicate Truthy(d: Detail, key: string) {
    key in d &&
    match d[key]
    case Null => false
    case Bool(b) => b
    case Number(n) => n != 0
    case Text(t) => t != ""
    case List(items) => items != []
    case Object(fields) => fields != map[]
  }

  function FromDetail(d: Detail, c: Casts): (h: Option<Handoff>)
    ensures h.Some? ==> Acceptable(h.value)
  {
    if exists key | key in REQUIRED :: !Present(d, key) then None
    else
      var from, to := c.str(d["from_slot"]), c.str(d["to_slot"]);
      var pid, port := c.toInt(d["old_pid"]), c.toInt(d["port"]);
      var argv := if Truthy(d, "serve_argv") then d["serve_argv"] else List([Text("serve")]);
      var env := if Truthy(d, "serve_env") then d["serve_env"] else Object(map[]);
      if !IsSlot(from) || !IsSlot(to) || from == to || pid.None? || port.None? then None
      else if pid.value <= 0 || !(0 < port.value < 65536) then None
      else if !(argv.List? && forall a | a in argv.items :: a.Text?) then None
      else if !(env.Object? && forall k | k in env.fields :: env.fields[k].Text?) then None
      else
        Some(Handoff(from, to, c.str(d["old_sha"]), c.str(d["new_sha"]), pid.value, c.str(d["host"]), port.value,
                     c.str(d["db_path"]), c.str(d["snapshot_path"]), argv.items, env.fields))
  }

  /** What lets the flips be unconditional: two different legal slots, and a real process to wait for. */
  predicate Acceptable(h: Handoff) {
    && IsSlot(h.fromSlot) && IsSlot(h.toSlot) && h.fromSlot != h.toSlot
    && h.oldPid > 0 && 0 < h.port < 65536
    && (forall a | a in h.serveArgv :: a.Text?)
    && (forall k | k in h.serveEnv :: h.serveEnv[k].Text?)
  }

  /** The detail the server writes before it spawns the switcher. */
  function Offer(h: Handoff): Detail {
    map["from_slot" := Text(h.fromSlot), "to_slot" := Text(h.toSlot), "old_sha" := Text(h.oldSha),
        "new_sha" := Text(h.newSha), "old_pid" := Number(h.oldPid), "host" := Text(h.host), "port" := Number(h.port),
        "db_path" := Text(h.dbPath), "snapshot_path" := Text(h.snapshotPath),
        "serve_argv" := List(h.serveArgv), "serve_env" := Object(h.serveEnv)]
  }

  predicate Named(h: Handoff) {
    "" !in {h.fromSlot, h.toSlot, h.oldSha, h.newSha, h.host, h.dbPath, h.snapshotPath}
  }

  /** An empty command line stands for the plain `serve`. */
  function Served(h: Handoff): Handoff {
    if h.serveArgv == [] then h.(serveArgv := [Text("serve")]) else h
  }

  lemma NamedMeansPresent(h: Handoff)
    ensures Named(h) <==> forall key | key in REQUIRED :: Present(Offer(h), key)
  {
  }

  lemma OfferedSlots(h: Handoff, c: Casts)
    requires Honest(c)
    ensures var d := Offer(h);
            && REQUIRED <= d.Keys
            && c.str(d["from_slot"]) == h.fromSlot && c.str(d["to_slot"]) == h.toSlot
            && c.str(d["old_sha"]) == h.oldSha && c.str(d["new_sha"]) == h.newSha && c.str(d["host"]) == h.host
            && c.str(d["db_path"]) == h.dbPath && c.str(d["snapshot_path"]) == h.snapshotPath
  {
  }

  lemma OfferedNumbers(h: Handoff, c: Casts)
    requires Honest(c)
    ensures var d := Offer(h);
            "old_pid" in d && "port" in d && c.toInt(d["old_pid"]) == Some(h.oldPid) &&
              c.toInt(d["port"]) == Some(h.port)
  {
  }

  lemma OfferedCommand(h: Handoff)
    ensures var d := Offer(h);
            && "serve_argv" in d && d["serve_argv"] == List(h.serveArgv) &&
              (Truthy(d, "serve_argv") <==> h.serveArgv != [])
            && "serve_env" in d && d["serve_env"] == Object(h.serveEnv) &&
              (Truthy(d, "serve_env") <==> h.serveEnv != map[])
  {
  }

  /** An offer is read back unchanged exactly when it is acceptable and names everything; otherwise it is refused. */
  lemma OfferRoundTrip(h: Handoff, c: Casts)
    requires Honest(c)
    ensures FromDetail(Offer(h), c) == if Acceptable(h) && Named(h) then Some(Served(h)) else None
  {
    NamedMeansPresent(h);
    OfferedSlots(h, c);
    OfferedNumbers(h, c);
    OfferedCommand(h);
    hide Named, Present, Truthy, Offer;
  }
}
