/** Writing a session as a JSONL transcript and reading it back (server/jsonl_writer.py, server/jsonl_parser.py). */
module Jsonl {
  import opened Base

  // ------------------------------------------------------------ messages

  datatype Role = User | Assistant | System | Tool

  /** A JSON value: null, a string, or anything else with Python's str and bool of it. */
  datatype Value = Null | Str(s: string) | Data(printed: string, truthy: bool)

  datatype Input = NoFields | Fields(n: int)

  /** `extra` stands for the fields a transcript does not carry: cost, attachments, sequence number. */
  datatype Message = Message(
    role: Role, kind: string, content: Value, toolName: Option<string>, toolInput: Option<Input>,
    toolUseId: Option<string>, isError: Option<bool>, extra: Option<int>)

  predicate Truthy(v: Value) {
    match v
    case Null => false
    case Str(s) => s != ""
    case Data(_, truthy) => truthy
  }

  function Printed(v: Value): string {
    match v
    case Null => "None"
    case Str(s) => s
    case Data(printed, _) => printed
  }

  predicate Named(id: Option<string>) { id.Some? && id.value != "" }

  function TextMessage(role: Role, content: Value): Message {
    Message(role, "text", content, None, None, None, None, None)
  }

  /** `content or ""`. */
  function OrEmpty(v: Value): Value { if Truthy(v) then v else Str("") }

  predicate IsText(m: Message) { m.kind == "text" }

  predicate IsToolUse(m: Message) { m.kind == "tool_use" }

  predicate IsResult(m: Message) { m.kind == "tool_result" }

  /** A text message carries text, if it carries anything. */
  predicate HasText(m: Message) { IsText(m) ==> OrEmpty(m.content).Str? }

  predicate AllHaveText(ms: seq<Message>) { forall i | 0 <= i < |ms| :: HasText(ms[i]) }

  // ------------------------------------------------------------ transcript lines

  datatype Block =
    | TextBlock(text: Value)
    | ResultBlock(toolUseId: Option<string>, content: Value, isError: bool)
    | UseBlock(id: Option<string>, name: Option<string>, input: Option<Input>)
    | OtherBlock

  datatype Body = Prose(text: string) | Blocks(blocks: seq<Block>) | NoBody

  datatype Wire = Wire(role: string, body: Body)

  datatype Line = Line(kind: string, message: Option<Wire>, sessionId: Option<string>, uuid: string,
    parent: Option<string>)

  /** What _message_to_jsonl_line makes of a message: the type of the line and its payload. */
  function Payload(m: Message): Option<(string, Wire)>
    requires HasText(m)
  {
    if m.role.User? && IsText(m) then Some(("user", Wire("user", Prose(OrEmpty(m.content).s))))
    else if m.role.Tool? && IsResult(m) then
      Some(("user", Wire("user", Blocks([ResultBlock(m.toolUseId, m.content, m.isError == Some(true))]))))
    else if m.role.Assistant? && IsText(m) then
      Some(("assistant", Wire("assistant", Blocks([TextBlock(OrEmpty(m.content))]))))
    else if m.role.Assistant? && IsToolUse(m) then
      Some(("assistant", Wire("assistant", Blocks(
        [UseBlock(m.toolUseId, m.toolName, if m.toolInput.Some? then m.toolInput else Some(NoFields))]))))
    else None
  }

  /** The payloads of a session, in order, with what cannot be written left out. */
  function Payloads(ms: seq<Message>): seq<(string, Wire)>
    requires AllHaveText(ms)
  {
    if ms == [] then []
    else
      var last := ms[|ms| - 1];
      Payloads(ms[..|ms| - 1]) + if Payload(last).Some? then [Payload(last).value] else []
  }

  /** Each line names the one before it as its parent. */
  predicate Chained(lines: seq<Line>) {
    && (lines != [] ==> lines[0].parent == None)
    && (forall i | 0 < i < |lines| :: lines[i].parent == Some(lines[i - 1].uuid))
  }

  /** A transcript of the messages, whatever the fresh line ids are. */
  predicate IsTranscript(lines: seq<Line>, ms: seq<Message>, sessionId: string)
    requires AllHaveText(ms)
  {
    && Chained(lines)
    && |lines| == |Payloads(ms)|
    && forall i | 0 <= i < |lines| ::
         lines[i].sessionId == Some(sessionId) &&
           (lines[i].kind, lines[i].message) == (Payloads(ms)[i].0, Some(Payloads(ms)[i].1))
  }

  method WriteJsonl(ms: seq<Message>, sessionId: string) returns (lines: seq<Line>)
    requires AllHaveText(ms)
    ensures IsTranscript(lines, ms, sessionId)
  {
    lines := [];
    var parent: Option<string> := None;
    for k := 0 to |ms|
      invariant parent == if lines == [] then None else Some(lines[|lines| - 1].uuid)
      invariant IsTranscript(lines, ms[..k], sessionId)
    {
      assert ms[..k + 1][..k] == ms[..k];
      var payload := Payload(ms[k]);
      assert Payloads(ms[..k + 1]) == Payloads(ms[..k]) + if payload.Some? then [payload.value] else [];
      if payload.Some? {
        var uuid: string := *;
        lines := lines + [Line(payload.value.0, Some(payload.value.1), Some(sessionId), uuid, parent)];
        parent := Some(uuid);
      }
    }
    assert ms[..|ms|] == ms;
  }

  // ------------------------------------------------------------ reading lines

  function FromUserBlock(b: Block): seq<Message> {
    match b
    case TextBlock(text) => [TextMessage(User, text)]
    case ResultBlock(id, content, isError) =>
      [Message(Tool, "tool_result", content, None, None, id, if isError then Some(true) else None, None)]
    case _ => []
  }

  function FromAssistantBlock(b: Block): seq<Message> {
    match b
    case TextBlock(text) => [TextMessage(Assistant, text)]
    case UseBlock(id, name, input) => [Message(Assistant, "tool_use", Null, name, input, id, None, None)]
    case _ => []
  }

  function FromBlocks(blocks: seq<Block>, user: bool): seq<Message> {
    if blocks == [] then []
    else
      var last := blocks[|blocks| - 1];
      FromBlocks(blocks[..|blocks| - 1], user) + if user then FromUserBlock(last) else FromAssistantBlock(last)
  }

  /** _convert_line; a line that is skipped gives nothing. */
  function ConvertLine(line: Line): seq<Message> {
    if line.kind !in {"user", "assistant"} || line.message.None? then []
    else
      var wire := line.message.value;
      if wire.role == "user" then
        match wire.body
        case Prose(text) => [TextMessage(User, Str(text))]
        case Blocks(blocks) => FromBlocks(blocks, true)
        case NoBody => []
      else if wire.role == "assistant" && wire.body.Blocks? then FromBlocks(wire.body.blocks, false)
      else []
  }

  function ConvertAll(lines: seq<Line>): seq<Message> {
    if lines == [] then [] else ConvertAll(lines[..|lines| - 1]) + ConvertLine(lines[|lines| - 1])
  }

  // ------------------------------------------------------------ which session the file is about

  predicate Counts(line: Line) { Named(line.sessionId) && line.kind in {"user", "assistant"} }

  function Votes(lines: seq<Line>, sid: string): nat {
    if lines == [] then 0
    else
      var last := lines[|lines| - 1];
      Votes(lines[..|lines| - 1], sid) + if Counts(last) && last.sessionId.value == sid then 1 else 0
  }

  /** The ids in the order they first count. */
  function Candidates(lines: seq<Line>): seq<string> {
    if lines == [] then []
    else
      var before, last := Candidates(lines[..|lines| - 1]), lines[|lines| - 1];
      if Counts(last) && last.sessionId.value !in before then before + [last.sessionId.value] else before
  }

  /** The hint when it counts, else the id with most lines, the earliest one of several. */
  ghost predicate IsPrimary(lines: seq<Line>, hint: Option<string>, primary: Option<string>) {
    if Candidates(lines) == [] then primary.None?
    else if Named(hint) && Votes(lines, hint.value) > 0 then primary == hint
    else
      && primary.Some?
      && exists i | 0 <= i < |Candidates(lines)| :: IsFirstMost(lines, i) && primary.value == Candidates(lines)[i]
  }

  ghost predicate IsFirstMost(lines: seq<Line>, i: nat)
    requires i < |Candidates(lines)|
  {
    var c := Candidates(lines);
    && (forall j | 0 <= j < |c| :: Votes(lines, c[j]) <= Votes(lines, c[i]))
    && (forall j | 0 <= j < i :: Votes(lines, c[j]) < Votes(lines, c[i]))
  }

  lemma {:induction false} CandidatesHaveVotes(lines: seq<Line>, sid: string)
    ensures sid in Candidates(lines) <==> Votes(lines, sid) > 0
    ensures sid in Candidates(lines) ==> exists k | 0 <= k < |lines| :: lines[k].sessionId == Some(sid)
  {
    if lines != [] {
      CandidatesHaveVotes(lines[..|lines| - 1], sid);
      if sid in Candidates(lines) && sid !in Candidates(lines[..|lines| - 1]) {
        assert lines[|lines| - 1].sessionId == Some(sid);
      }
    }
  }

  /** The lines that count for a session: those of a user or an assistant that name it. */
  predicate CountsFor(line: Line, sid: string) {
    sid != "" && line.sessionId == Some(sid) && (line.kind == "user" || line.kind == "assistant")
  }

  function LinesFor(lines: seq<Line>, sid: string): set<nat> {
    set k: nat | k < |lines| && CountsFor(lines[k], sid)
  }

  /** A session's votes are its lines that count. */
  lemma {:induction false} VotesAreLines(lines: seq<Line>, sid: string)
    ensures Votes(lines, sid) == |LinesFor(lines, sid)|
  {
    if lines == [] {
      assert LinesFor(lines, sid) == {};
    } else {
      var init, n := lines[..|lines| - 1], |lines| - 1;
      VotesAreLines(init, sid);
      assert LinesFor(lines, sid) == LinesFor(init, sid) + if CountsFor(lines[n], sid) then {n} else {};
    }
  }

  predicate FirstFor(lines: seq<Line>, k: nat, sid: string) {
    k < |lines| && CountsFor(lines[k], sid) && forall l | 0 <= l < k :: !CountsFor(lines[l], sid)
  }

  /** The candidates stand in the order of their first lines that count. */
  lemma {:induction false} CandidatesInOrder(lines: seq<Line>, a: nat, b: nat, k: nat, l: nat)
    requires a < |Candidates(lines)| && b < |Candidates(lines)|
    requires FirstFor(lines, k, Candidates(lines)[a]) && FirstFor(lines, l, Candidates(lines)[b])
    ensures a < b <==> k < l
  {
    var init, n, c := lines[..|lines| - 1], |lines| - 1, Candidates(lines);
    CandidatesAreDistinct(lines);
    CandidateHasFirst(init, c[a]);
    CandidateHasFirst(init, c[b]);
    if k < n && l < n {
      CandidatesInOrder(init, a, b, k, l);
    }
  }

  lemma {:induction false} CandidatesAreDistinct(lines: seq<Line>)
    ensures forall i, j | 0 <= i < j < |Candidates(lines)| :: Candidates(lines)[i] != Candidates(lines)[j]
  {
    if lines != [] {
      CandidatesAreDistinct(lines[..|lines| - 1]);
    }
  }

  lemma {:induction false} CandidateHasFirst(lines: seq<Line>, sid: string)
    ensures sid in Candidates(lines) <==> exists k | 0 <= k < |lines| :: CountsFor(lines[k], sid)
  {
    if lines != [] {
      CandidateHasFirst(lines[..|lines| - 1], sid);
      assert forall k | 0 <= k < |lines| - 1 :: lines[k] == lines[..|lines| - 1][k];
    }
  }

  /** Told by lines: the hint if one counts for it, else the session with most, of several the one that starts first. */
  ghost predicate PlainPrimary(lines: seq<Line>, hint: Option<string>, primary: Option<string>) {
    if forall k, sid | 0 <= k < |lines| :: !CountsFor(lines[k], sid) then primary.None?
    else if hint.Some? && exists k | 0 <= k < |lines| :: CountsFor(lines[k], hint.value) then primary == hint
    else
      && primary.Some?
      && (forall sid :: |LinesFor(lines, sid)| <= |LinesFor(lines, primary.value)|)
      && (forall sid, k, l | FirstFor(lines, k, primary.value) && FirstFor(lines, l, sid) && l < k ::
            |LinesFor(lines, sid)| < |LinesFor(lines, primary.value)|)
  }

  lemma MostLines(lines: seq<Line>, i: nat, sid: string)
    requires i < |Candidates(lines)| && IsFirstMost(lines, i)
    ensures var best := Candidates(lines)[i];
            && |LinesFor(lines, sid)| <= |LinesFor(lines, best)|
            && (forall k, l | FirstFor(lines, k, best) && FirstFor(lines, l, sid) && l < k ::
                  |LinesFor(lines, sid)| < |LinesFor(lines, best)|)
  {
    var best := Candidates(lines)[i];
    VotesAreLines(lines, sid);
    VotesAreLines(lines, best);
    CandidatesHaveVotes(lines, sid);
    if sid in Candidates(lines) {
      var j :| 0 <= j < |Candidates(lines)| && Candidates(lines)[j] == sid;
      forall k, l | FirstFor(lines, k, best) && FirstFor(lines, l, sid) && l < k ensures j < i {
        CandidatesInOrder(lines, j, i, l, k);
      }
    } else {
      CandidateHasFirst(lines, sid);
    }
  }

  lemma PrimaryIsPlain(lines: seq<Line>, hint: Option<string>, primary: Option<string>)
    requires IsPrimary(lines, hint, primary)
    ensures PlainPrimary(lines, hint, primary)
  {
    if Candidates(lines) == [] {
      forall k, sid | 0 <= k < |lines| ensures !CountsFor(lines[k], sid) {
        CandidateHasFirst(lines, sid);
      }
    } else {
      CandidateHasFirst(lines, Candidates(lines)[0]);
      if hint.Some? {
        CandidateHasFirst(lines, hint.value);
        CandidatesHaveVotes(lines, hint.value);
      }
      if !(Named(hint) && Votes(lines, hint.value) > 0) {
        var i :| 0 <= i < |Candidates(lines)| && IsFirstMost(lines, i) && primary.value == Candidates(lines)[i];
        forall sid: string {
          MostLines(lines, i, sid);
        }
      }
      hide Votes, Candidates, LinesFor, FirstFor;
    }
  }

  method FindPrimarySessionId(lines: seq<Line>, hint: Option<string>) returns (primary: Option<string>)
    ensures IsPrimary(lines, hint, primary)
    ensures PlainPrimary(lines, hint, primary)
  {
    var counts, order := Tally(lines);
    if order == [] {
      PrimaryIsPlain(lines, hint, None);
      return None;
    }
    if hint.Some? && hint.value != "" && hint.value in counts {
      CandidatesHaveVotes(lines, hint.value);
      PrimaryIsPlain(lines, hint, hint);
      return hint;
    }
    if Named(hint) {
      CandidatesHaveVotes(lines, hint.value);
    }
    var best := 0;
    for i := 1 to |order|
      invariant 0 <= best < i
      invariant forall j | 0 <= j < i :: counts[order[j]] <= counts[order[best]]
      invariant forall j | 0 <= j < best :: counts[order[j]] < counts[order[best]]
    {
      if counts[order[i]] > counts[order[best]] {
        best := i;
      }
    }
    assert IsFirstMost(lines, best);
    primary := Some(order[best]);
    PrimaryIsPlain(lines, hint, primary);
  }

  method Tally(lines: seq<Line>) returns (counts: map<string, nat>, order: seq<string>)
    ensures order == Candidates(lines)
    ensures forall sid :: sid in counts <==> sid in order
    ensures forall sid | sid in counts :: counts[sid] == Votes(lines, sid)
  {
    counts, order := map[], [];
    for k := 0 to |lines|
      invariant order == Candidates(lines[..k])
      invariant forall sid :: sid in counts <==> sid in order
      invariant forall sid | sid in counts :: counts[sid] == Votes(lines[..k], sid)
    {
      assert lines[..k + 1][..k] == lines[..k];
      if Counts(lines[k]) {
        var sid := lines[k].sessionId.value;
        CandidatesHaveVotes(lines[..k], sid);
        if sid !in counts {
          order := order + [sid];
        }
        counts := counts[sid := 1 + if sid in counts then counts[sid] else 0];
      }
    }
    assert lines[..|lines|] == lines;
  }

  function Selected(lines: seq<Line>, primary: Option<string>): seq<Line> {
    if lines == [] then []
    else
      var last := lines[|lines| - 1];
      Selected(lines[..|lines| - 1], primary) + if Named(primary) && last.sessionId != primary then [] else [last]
  }

  // ------------------------------------------------------------ consolidation

  /** The last tool result of each tool call. */
  function Results(ms: seq<Message>): map<string, Message> {
    if ms == [] then map[]
    else
      var before, last := Results(ms[..|ms| - 1]), ms[|ms| - 1];
      if IsResult(last) && Named(last.toolUseId) then before[last.toolUseId.value := last] else before
  }

  /** A result that is shown with its call instead of on its own. */
  predicate Folded(m: Message) { IsResult(m) && Named(m.toolUseId) }

  function Preview(results: map<string, Message>, id: string): Value {
    if id in results && Truthy(results[id].content) then
      var printed := Printed(results[id].content);
      var head := if |printed| <= 200 then printed else printed[..200];
      Str(if results[id].isError == Some(true) then "[error] " + head else head)
    else Null
  }

  function Shown(m: Message, results: map<string, Message>): Message {
    if IsToolUse(m) && Named(m.toolUseId) then
      Message(m.role, m.kind, Preview(results, m.toolUseId.value), m.toolName, m.toolInput, m.toolUseId, None, None)
    else m
  }

  function Visible(ms: seq<Message>, results: map<string, Message>): (shown: seq<Message>)
    ensures AllHaveText(ms) ==> AllHaveText(shown)
  {
    if ms == [] then []
    else
      var last := ms[|ms| - 1];
      Visible(ms[..|ms| - 1], results) + if Folded(last) then [] else [Shown(last, results)]
  }

  function TextOf(m: Message): string
    requires IsText(m) && HasText(m)
  {
    OrEmpty(m.content).s
  }

  predicate Joins(prev: Message, m: Message) { IsText(prev) && IsText(m) && prev.role == m.role }

  function Added(merged: seq<Message>, m: Message): (r: seq<Message>)
    requires AllHaveText(merged) && HasText(m)
    ensures AllHaveText(r)
  {
    if merged != [] && Joins(merged[|merged| - 1], m) then
      var prev := merged[|merged| - 1];
      merged[..|merged| - 1] + [TextMessage(prev.role, Str(TextOf(prev) + "\n\n" + TextOf(m)))]
    else merged + [m]
  }

  function Merged(ms: seq<Message>): (r: seq<Message>)
    requires AllHaveText(ms)
    ensures AllHaveText(r)
  {
    if ms == [] then [] else Added(Merged(ms[..|ms| - 1]), ms[|ms| - 1])
  }

  function Consolidated(ms: seq<Message>): seq<Message>
    requires AllHaveText(ms)
  {
    Merged(Visible(ms, Results(ms)))
  }

  lemma {:induction false} ResultsAreNamed(ms: seq<Message>)
    ensures forall id | id in Results(ms) :: id != ""
    ensures forall m | m in ms && Folded(m) :: m.toolUseId.value in Results(ms)
  {
    if ms != [] {
      ResultsAreNamed(ms[..|ms| - 1]);
      assert forall m | m in ms :: m in ms[..|ms| - 1] || m == ms[|ms| - 1];
    }
  }

  /** _consolidate_messages. */
  method Consolidate(ms: seq<Message>) returns (consolidated: seq<Message>)
    requires AllHaveText(ms)
    ensures consolidated == Consolidated(ms)
    ensures NoneJoins(consolidated) && CallsShown(ms, consolidated)
  {
    var resultById := CollectResults(ms);
    ResultsAreNamed(ms);
    assert Consolidated(ms) == Merged(Visible(ms, resultById));
    assert Merged(Visible(ms[..0], resultById)) == [];
    hide Visible, Merged, Results, Consolidated;
    consolidated := [];
    for k := 0 to |ms|
      invariant AllHaveText(consolidated) && AllHaveText(ms[..k])
      invariant consolidated == Merged(Visible(ms[..k], resultById))
    {
      var m := ms[k];
      VisibleStep(ms, k, resultById);
      assert m in ms;
      if IsResult(m) && m.toolUseId.Some? && m.toolUseId.value in resultById {
        continue;
      }
      if IsToolUse(m) && m.toolUseId.Some? && m.toolUseId.value != "" {
        var preview := Null;
        if m.toolUseId.value in resultById && Truthy(resultById[m.toolUseId.value].content) {
          var result := resultById[m.toolUseId.value];
          var printed := Printed(result.content);
          var head := if |printed| <= 200 then printed else printed[..200];
          preview := Str(if result.isError == Some(true) then "[error] " + head else head);
        }
        consolidated := consolidated +
          [Message(m.role, m.kind, preview, m.toolName, m.toolInput, m.toolUseId, None, None)];
        continue;
      }
      if IsText(m) && consolidated != [] && IsText(consolidated[|consolidated| - 1])
         && consolidated[|consolidated| - 1].role == m.role {
        var prev := consolidated[|consolidated| - 1];
        var text := TextOf(prev) + "\n\n" + TextOf(m);
        consolidated := consolidated[..|consolidated| - 1] + [TextMessage(prev.role, Str(text))];
        continue;
      }
      consolidated := consolidated + [m];
    }
    assert ms[..|ms|] == ms;
    MergedNeverJoins(Visible(ms, resultById));
    ConsolidatedShowsCalls(ms);
  }

  lemma VisibleStep(ms: seq<Message>, k: nat, results: map<string, Message>)
    requires AllHaveText(ms) && k < |ms|
    ensures AllHaveText(ms[..k]) && AllHaveText(ms[..k + 1]) && HasText(Shown(ms[k], results))
    ensures Merged(Visible(ms[..k + 1], results)) ==
            if Folded(ms[k]) then Merged(Visible(ms[..k], results))
            else Added(Merged(Visible(ms[..k], results)), Shown(ms[k], results))
  {
    assert ms[..k + 1][..k] == ms[..k] && ms[..k + 1][k] == ms[k];
    var before, after := Visible(ms[..k], results), Visible(ms[..k + 1], results);
    if !Folded(ms[k]) {
      assert after[..|after| - 1] == before;
    } else {
      assert after == before;
    }
  }

  method CollectResults(ms: seq<Message>) returns (resultById: map<string, Message>)
    ensures resultById == Results(ms)
  {
    resultById := map[];
    for k := 0 to |ms|
      invariant resultById == Results(ms[..k])
    {
      assert ms[..k + 1][..k] == ms[..k];
      if IsResult(ms[k]) && ms[k].toolUseId.Some? && ms[k].toolUseId.value != "" {
        resultById := resultById[ms[k].toolUseId.value := ms[k]];
      }
    }
    assert ms[..|ms|] == ms;
  }

  /** parse_jsonl_lines, after each line has been decoded. */
  method ParseJsonlLines(
    lines: seq<Line>, hint: Option<string>) returns (primary: Option<string>, messages: seq<Message>)
    requires AllHaveText(ConvertAll(lines))
    ensures IsPrimary(lines, hint, primary) && PlainPrimary(lines, hint, primary)
    ensures AllHaveText(Heard(lines, primary))
    ensures messages == Consolidated(Heard(lines, primary))
    ensures NoneJoins(messages) && CallsShown(Heard(lines, primary), messages)
  {
    primary := FindPrimarySessionId(lines, hint);
    messages := [];
    for k := 0 to |lines|
      invariant AllHaveText(messages)
      invariant messages == ConvertAll(Selected(lines[..k], primary))
    {
      assert lines[..k + 1][..k] == lines[..k];
      SelectedStep(lines, k, primary);
      if primary.Some? && primary.value != "" && lines[k].sessionId != primary {
        continue;
      }
      messages := messages + ConvertLine(lines[k]);
    }
    assert lines[..|lines|] == lines;
    messages := Consolidate(messages);
  }

  lemma SelectedStep(lines: seq<Line>, k: nat, primary: Option<string>)
    requires k < |lines| && AllHaveText(ConvertAll(lines))
    ensures AllHaveText(ConvertLine(lines[k]))
    ensures ConvertAll(Selected(lines[..k + 1], primary)) ==
            ConvertAll(Selected(lines[..k], primary)) +
            if Named(primary) && lines[k].sessionId != primary then [] else ConvertLine(lines[k])
  {
    assert lines[..k + 1][..k] == lines[..k] && lines[..k + 1][k] == lines[k];
    LineIsInside(lines, k);
    var before, after := Selected(lines[..k], primary), Selected(lines[..k + 1], primary);
    if !(Named(primary) && lines[k].sessionId != primary) {
      assert after[..|after| - 1] == before;
    } else {
      assert after == before;
    }
  }

  lemma {:induction false} LineIsInside(lines: seq<Line>, k: nat)
    requires k < |lines| && AllHaveText(ConvertAll(lines))
    ensures AllHaveText(ConvertLine(lines[k]))
    decreases |lines|
  {
    var init := lines[..|lines| - 1];
    var all, last := ConvertAll(init), ConvertLine(lines[|lines| - 1]);
    assert forall i | 0 <= i < |all| :: (all + last)[i] == all[i];
    assert forall i | 0 <= i < |last| :: (all + last)[|all| + i] == last[i];
    if k < |lines| - 1 {
      LineIsInside(init, k);
    }
  }

  // ------------------------------------------------------------ in plain fields

  /** Blocks are read one by one, in order. */
  lemma {:induction false} BlocksInOrder(a: seq<Block>, b: seq<Block>, user: bool)
    ensures FromBlocks(a + b, user) == FromBlocks(a, user) + FromBlocks(b, user)
  {
    if b == [] {
      assert a + b == a;
    } else {
      var init, last := b[..|b| - 1], b[|b| - 1];
      BlocksInOrder(a, init, user);
      assert (a + b)[..|a + b| - 1] == a + init && (a + b)[|a + b| - 1] == last;
    }
  }

  /** What each block says, by the side it stands on. */
  lemma BlockSays(text: Value, id: Option<string>, isError: bool, name: Option<string>, input: Option<Input>)
    ensures FromBlocks([TextBlock(text)], true) == [Message(User, "text", text, None, None, None, None, None)]
    ensures FromBlocks([TextBlock(text)], false) == [Message(Assistant, "text", text, None, None, None, None, None)]
    ensures FromBlocks([ResultBlock(id, text, isError)], true) ==
            [Message(Tool, "tool_result", text, None, None, id, if isError then Some(true) else None, None)]
    ensures FromBlocks([UseBlock(id, name, input)], false) ==
            [Message(Assistant, "tool_use", Null, name, input, id, None, None)]
    ensures FromBlocks([UseBlock(id, name, input)], true) == FromBlocks([ResultBlock(id, text, isError)], false) == []
    ensures FromBlocks([OtherBlock], true) == FromBlocks([OtherBlock], false) == []
  {
    forall b, user ensures FromBlocks([b], user) == if user then FromUserBlock(b) else FromAssistantBlock(b) {
      OneBlock(b, user);
    }
  }

  /** A line of several blocks is the lines of its blocks, in order; only a user's or an assistant's says anything. */
  lemma LineSays(line: Line, a: seq<Block>, b: seq<Block>)
    ensures line.kind !in {"user", "assistant"} || line.message.None? ==> ConvertLine(line) == []
    ensures line.message.Some? && line.message.value.body == Blocks(a + b) ==>
              var wire := line.message.value;
              ConvertLine(line) ==
                ConvertLine(line.(message := Some(Wire(wire.role, Blocks(a))))) +
                  ConvertLine(line.(message := Some(Wire(wire.role, Blocks(b)))))
    ensures line.kind == "user" && line.message.Some? && line.message.value.role == "user" ==>
              match line.message.value.body
              case Prose(text) => ConvertLine(line) == [Message(User, "text", Str(text), None, None, None, None, None)]
              case Blocks(blocks) => ConvertLine(line) == FromBlocks(blocks, true)
              case NoBody => ConvertLine(line) == []
    ensures line.kind == "assistant" && line.message.Some? && line.message.value.role == "assistant" ==>
              match line.message.value.body
              case Blocks(blocks) => ConvertLine(line) == FromBlocks(blocks, false)
              case _ => ConvertLine(line) == []
  {
    BlocksInOrder(a, b, true);
    BlocksInOrder(a, b, false);
  }

  /** What a line adds to the messages of its file: nothing when it is of a stray session. */
  function Said(line: Line, primary: Option<string>): seq<Message> {
    if primary.Some? && primary.value != "" && line.sessionId != primary then [] else ConvertLine(line)
  }

  /** The messages of the file before consolidation. */
  function Heard(lines: seq<Line>, primary: Option<string>): seq<Message> { ConvertAll(Selected(lines, primary)) }

  lemma HeardOneMore(lines: seq<Line>, line: Line, primary: Option<string>)
    ensures Heard(lines + [line], primary) == Heard(lines, primary) + Said(line, primary)
  {
    hide ConvertLine;
    assert (lines + [line])[..|lines|] == lines;
    var before := Selected(lines, primary);
    if Named(primary) && line.sessionId != primary {
      assert Selected(lines + [line], primary) == before + [] == before;
      assert ConvertAll(before) + [] == ConvertAll(before);
    } else {
      assert Selected(lines + [line], primary) == before + [line];
      assert (before + [line])[..|before|] == before;
    }
  }

  lemma SumsAssociate<T>(a: seq<T>, b: seq<T>, c: seq<T>)
    ensures a + (b + c) == a + b + c
  {
  }

  lemma HeardBehind(a: seq<Line>, b: seq<Line>, line: Line, primary: Option<string>)
    requires Heard(a + b, primary) == Heard(a, primary) + Heard(b, primary)
    ensures Heard(a + (b + [line]), primary) == Heard(a, primary) + Heard(b + [line], primary)
  {
    hide *;
    calc {
      Heard(a + (b + [line]), primary);
    == { SumsAssociate(a, b, [line]); }
      Heard(a + b + [line], primary);
    == { HeardOneMore(a + b, line, primary); }
      Heard(a, primary) + Heard(b, primary) + Said(line, primary);
    == { SumsAssociate(Heard(a, primary), Heard(b, primary), Said(line, primary)); }
      Heard(a, primary) + (Heard(b, primary) + Said(line, primary));
    == { HeardOneMore(b, line, primary); }
      Heard(a, primary) + Heard(b + [line], primary);
    }
  }

  lemma {:induction false} HeardInOrder(a: seq<Line>, b: seq<Line>, primary: Option<string>)
    ensures Heard(a + b, primary) == Heard(a, primary) + Heard(b, primary)
  {
    assert Heard([], primary) == [];
    hide *;
    if b == [] {
      assert a + b == a;
    } else {
      var init, last := b[..|b| - 1], b[|b| - 1];
      HeardInOrder(a, init, primary);
      HeardBehind(a, init, last, primary);
      assert b == init + [last];
    }
  }

  /** Wherever a line stands, it adds its own messages in its place, and none when it is of a stray session. */
  lemma EachLineInItsPlace(a: seq<Line>, line: Line, b: seq<Line>, primary: Option<string>)
    ensures Heard(a + [line] + b, primary) ==
            Heard(a, primary) +
            (if primary.Some? && primary.value != "" && line.sessionId != primary then [] else ConvertLine(line)) +
            Heard(b, primary)
  {
    HeardInOrder(a + [line], b, primary);
    HeardOneMore(a, line, primary);
    hide Heard, ConvertLine;
  }

  function Calls(ms: seq<Message>): seq<Message> {
    if ms == [] then []
    else Calls(ms[..|ms| - 1]) + if ms[|ms| - 1].kind == "tool_use" then [ms[|ms| - 1]] else []
  }

  predicate IsResultOf(m: Message, id: string) { m.kind == "tool_result" && m.toolUseId == Some(id) }

  /** The preview of a result: nothing for an empty one, else two hundred characters, told as an error if it was one. */
  predicate Previews(content: Value, result: Message) {
    if !Truthy(result.content) then content == Null
    else
      var printed, lead := Printed(result.content), if result.isError == Some(true) then "[error] " else "";
      content == Str(lead + if |printed| <= 200 then printed else printed[..200])
  }

  /** A call as it is shown: its own fields, and the preview of the last result that names it, if there is one. */
  ghost predicate ShowsItsResult(call: Message, shown: Message, ms: seq<Message>) {
    if call.toolUseId in {None, Some("")} then shown == call
    else
      && shown == call.(content := shown.content, isError := None, extra := None)
      && (forall j | 0 <= j < |ms| && IsResultOf(ms[j], call.toolUseId.value) ::
            (forall k | j < k < |ms| :: !IsResultOf(ms[k], call.toolUseId.value)) ==> Previews(shown.content, ms[j]))
      && ((forall j | 0 <= j < |ms| :: !IsResultOf(ms[j], call.toolUseId.value)) ==> shown.content == Null)
  }

  /** Every tool call is shown, in order, each with its own last result. */
  ghost predicate CallsShown(ms: seq<Message>, shown: seq<Message>) {
    && |Calls(shown)| == |Calls(ms)|
    && forall i | 0 <= i < |Calls(ms)| :: ShowsItsResult(Calls(ms)[i], Calls(shown)[i], ms)
  }

  lemma {:induction false} ResultsAreLast(ms: seq<Message>, id: string, j: nat)
    requires id != "" && j < |ms| && IsResultOf(ms[j], id) && forall k | j < k < |ms| :: !IsResultOf(ms[k], id)
    ensures id in Results(ms) && Results(ms)[id] == ms[j]
  {
    if j < |ms| - 1 {
      ResultsAreLast(ms[..|ms| - 1], id, j);
      assert !IsResultOf(ms[|ms| - 1], id);
    }
  }

  lemma {:induction false} NoResult(ms: seq<Message>, id: string)
    requires forall k | 0 <= k < |ms| :: !IsResultOf(ms[k], id)
    ensures id !in Results(ms)
  {
    if ms != [] {
      NoResult(ms[..|ms| - 1], id);
      assert !IsResultOf(ms[|ms| - 1], id);
    }
  }

  lemma ShownIsPlain(call: Message, ms: seq<Message>)
    requires call.kind == "tool_use"
    ensures ShowsItsResult(call, Shown(call, Results(ms)), ms)
  {
    if call.toolUseId.Some? && call.toolUseId.value != "" {
      var id := call.toolUseId.value;
      forall j | 0 <= j < |ms| && IsResultOf(ms[j], id) && forall k | j < k < |ms| :: !IsResultOf(ms[k], id)
        ensures Previews(Shown(call, Results(ms)).content, ms[j])
      {
        ResultsAreLast(ms, id, j);
        hide Results;
      }
      if forall j | 0 <= j < |ms| :: !IsResultOf(ms[j], id) {
        NoResult(ms, id);
      }
    }
  }

  ghost predicate SameCalls(ms: seq<Message>, shown: seq<Message>, results: map<string, Message>) {
    && |Calls(shown)| == |Calls(ms)|
    && forall i | 0 <= i < |Calls(ms)| ::
         Calls(shown)[i] == Shown(Calls(ms)[i], results) && Calls(ms)[i].kind == "tool_use"
  }

  lemma OneMoreVisibleCall(ms: seq<Message>, m: Message, results: map<string, Message>)
    requires SameCalls(ms, Visible(ms, results), results)
    ensures SameCalls(ms + [m], Visible(ms + [m], results), results)
  {
    VisibleOneMore(ms, m, results);
    CallsOneMore(ms, m);
    CallsAreNotFolded(m, results);
    hide Visible, Calls, Shown, Folded;
    if Folded(m) {
      assert Visible(ms, results) + [] == Visible(ms, results);
    } else {
      CallsOneMore(Visible(ms, results), Shown(m, results));
    }
  }

  lemma {:induction false} VisibleCalls(ms: seq<Message>, results: map<string, Message>)
    ensures SameCalls(ms, Visible(ms, results), results)
  {
    assert Visible([], results) == [] && Calls([]) == [];
    if ms != [] {
      hide *;
      VisibleCalls(ms[..|ms| - 1], results);
      OneMoreVisibleCall(ms[..|ms| - 1], ms[|ms| - 1], results);
      assert ms[..|ms| - 1] + [ms[|ms| - 1]] == ms;
    }
  }

  lemma CallsAreNotFolded(m: Message, results: map<string, Message>)
    ensures Shown(m, results).kind == m.kind && (Folded(m) ==> m.kind != "tool_use")
  {
  }

  lemma CallsOneMore(ms: seq<Message>, m: Message)
    ensures Calls(ms + [m]) == Calls(ms) + if m.kind == "tool_use" then [m] else []
  {
    assert (ms + [m])[..|ms|] == ms;
  }

  lemma {:induction false} MergedCalls(ms: seq<Message>)
    requires AllHaveText(ms)
    ensures Calls(Merged(ms)) == Calls(ms)
  {
    if ms != [] {
      var before, m := Merged(ms[..|ms| - 1]), ms[|ms| - 1];
      MergedCalls(ms[..|ms| - 1]);
      if before != [] && Joins(before[|before| - 1], m) {
        var init, prev := before[..|before| - 1], before[|before| - 1];
        assert before == init + [prev];
        CallsOneMore(init, prev);
        CallsOneMore(init, TextMessage(prev.role, Str(TextOf(prev) + "\n\n" + TextOf(m))));
      } else {
        CallsOneMore(before, m);
      }
      hide Merged;
    }
  }

  lemma ConsolidatedShowsCalls(ms: seq<Message>)
    requires AllHaveText(ms)
    ensures CallsShown(ms, Consolidated(ms))
  {
    var results := Results(ms);
    VisibleCalls(ms, results);
    MergedCalls(Visible(ms, results));
    hide Visible, Merged, Results;
    forall i | 0 <= i < |Calls(ms)| ensures ShowsItsResult(Calls(ms)[i], Calls(Consolidated(ms))[i], ms) {
      ShownIsPlain(Calls(ms)[i], ms);
    }
  }

  // ------------------------------------------------------------ writing and reading back

  /** What of a message a transcript keeps. */
  function Normalized(m: Message): (r: Option<Message>)
    ensures r.Some? && HasText(m) ==> HasText(r.value)
  {
    if (m.role.User? || m.role.Assistant?) && IsText(m) then Some(TextMessage(m.role, OrEmpty(m.content)))
    else if m.role.Tool? && IsResult(m) then
      Some(Message(Tool, m.kind, m.content, None, None, m.toolUseId,
                   if m.isError == Some(true) then Some(true) else None, None))
    else if m.role.Assistant? && IsToolUse(m) then
      Some(Message(Assistant, m.kind, Null, m.toolName, if m.toolInput.Some? then m.toolInput else Some(NoFields),
                   m.toolUseId, None, None))
    else None
  }

  function Normal(ms: seq<Message>): (r: seq<Message>)
    ensures AllHaveText(ms) ==> AllHaveText(r)
  {
    if ms == [] then []
    else
      var n := Normalized(ms[|ms| - 1]);
      Normal(ms[..|ms| - 1]) + if n.Some? then [n.value] else []
  }

  /** One trip through a file. */
  function Trip(ms: seq<Message>): (r: seq<Message>)
    requires AllHaveText(ms)
    ensures AllHaveText(r)
  {
    Consolidated(Normal(ms))
  }

  lemma OneBlock(b: Block, user: bool)
    ensures FromBlocks([b], user) == if user then FromUserBlock(b) else FromAssistantBlock(b)
  {
    assert [b][..0] == [] && FromBlocks([], user) == [];
  }

  lemma BlockLine(line: Line, role: string, b: Block)
    requires role in {"user", "assistant"} && line.kind == role && line.message == Some(Wire(role, Blocks([b])))
    ensures ConvertLine(line) == if role == "user" then FromUserBlock(b) else FromAssistantBlock(b)
  {
    OneBlock(b, role == "user");
    hide FromBlocks, FromUserBlock, FromAssistantBlock;
  }

  lemma PayloadConverts(m: Message, line: Line)
    requires HasText(m)
    ensures Payload(m).Some? <==> Normalized(m).Some?
    ensures Payload(m).Some? && line.kind == Payload(m).value.0 && line.message == Some(Payload(m).value.1) ==>
              ConvertLine(line) == [Normalized(m).value]
  {
    hide FromBlocks;
    if Payload(m).Some? && line.kind == Payload(m).value.0 && line.message == Some(Payload(m).value.1) {
      var body := Payload(m).value.1.body;
      if body.Blocks? {
        BlockLine(line, line.kind, body.blocks[0]);
        hide ConvertLine;
        assert ConvertLine(line) == [Normalized(m).value];
      }
    }
  }

  /** Field by field: which messages can be written, and what their line gives back. */
  lemma LineKeeps(m: Message, line: Line)
    requires HasText(m)
    ensures Payload(m).Some? <==>
              || (m.role in {User, Assistant} && m.kind == "text")
              || (m.role == Assistant && m.kind == "tool_use") || (m.role == Tool && m.kind == "tool_result")
    ensures Payload(m).Some? && (line.kind, line.message) == (Payload(m).value.0, Some(Payload(m).value.1)) ==>
              var c := if m.content == Null || m.content.Data? then Str("") else m.content;
              ConvertLine(line) ==
                [if m.kind == "text" then Message(m.role, "text", c, None, None, None, None, None)
                 else if m.kind == "tool_result" then
                   Message(Tool, "tool_result", m.content, None, None, m.toolUseId,
                           if m.isError == Some(true) then Some(true) else None, None)
                 else
                   Message(Assistant, "tool_use", Null, m.toolName,
                           if m.toolInput.Some? then m.toolInput else Some(NoFields), m.toolUseId, None, None)]
  {
    PayloadConverts(m, line);
    hide ConvertLine;
  }

  lemma {:induction false} LinesConvert(lines: seq<Line>, ms: seq<Message>)
    requires AllHaveText(ms) && |lines| == |Payloads(ms)|
    requires forall i | 0 <= i < |lines| ::
               (lines[i].kind, lines[i].message) == (Payloads(ms)[i].0, Some(Payloads(ms)[i].1))
    ensures ConvertAll(lines) == Normal(ms)
    decreases |ms|
  {
    if ms != [] {
      var init, last := ms[..|ms| - 1], ms[|ms| - 1];
      if Payload(last).Some? {
        PayloadConverts(last, lines[|lines| - 1]);
        LinesConvert(lines[..|lines| - 1], init);
      } else {
        PayloadConverts(last, Line("", None, None, "", None));
        LinesConvert(lines, init);
      }
    }
  }

  lemma {:induction false} AllSelected(lines: seq<Line>, sid: string, primary: Option<string>)
    requires forall i | 0 <= i < |lines| :: lines[i].sessionId == Some(sid)
    requires Named(primary) ==> primary == Some(sid)
    ensures Selected(lines, primary) == lines
  {
    if lines != [] {
      AllSelected(lines[..|lines| - 1], sid, primary);
    }
  }

  lemma PrimaryIsOfALine(lines: seq<Line>, hint: Option<string>, primary: Option<string>)
    requires IsPrimary(lines, hint, primary) && primary.Some?
    ensures exists k | 0 <= k < |lines| :: lines[k].sessionId == primary
  {
    CandidatesHaveVotes(lines, primary.value);
  }

  /** Writing a session and parsing the file is consolidating what of its messages can be written, whatever the hint. */
  lemma WriteThenParse(lines: seq<Line>, ms: seq<Message>, sid: string, hint: Option<string>, primary: Option<string>)
    requires AllHaveText(ms) && IsTranscript(lines, ms, sid) && IsPrimary(lines, hint, primary)
    ensures ConvertAll(Selected(lines, primary)) == Normal(ms)
    ensures Consolidated(ConvertAll(Selected(lines, primary))) == Trip(ms)
  {
    if primary.Some? {
      PrimaryIsOfALine(lines, hint, primary);
    }
    AllSelected(lines, sid, primary);
    LinesConvert(lines, ms);
  }

  // ------------------------------------------------------------ no adjacent texts, no text lost

  ghost predicate NoneJoins(ms: seq<Message>) {
    forall i | 0 < i < |ms| :: !Joins(ms[i - 1], ms[i])
  }

  lemma {:induction false} MergedNeverJoins(ms: seq<Message>)
    requires AllHaveText(ms)
    ensures NoneJoins(Merged(ms))
  {
    if ms != [] {
      MergedNeverJoins(ms[..|ms| - 1]);
    }
  }

  /** The runs of messages that end up in one: neighbours that join. */
  function Runs(ms: seq<Message>): seq<seq<Message>> {
    if ms == [] then []
    else
      var runs, m := Runs(ms[..|ms| - 1]), ms[|ms| - 1];
      if |ms| > 1 && Joins(ms[|ms| - 2], m) && runs != [] then runs[..|runs| - 1] + [runs[|runs| - 1] + [m]]
      else runs + [[m]]
  }

  function Flattened(runs: seq<seq<Message>>): seq<Message> {
    if runs == [] then [] else Flattened(runs[..|runs| - 1]) + runs[|runs| - 1]
  }

  /** The texts of a run with a blank line between each two. */
  function JoinedText(run: seq<Message>): string
    requires forall i | 0 <= i < |run| :: IsText(run[i]) && HasText(run[i])
  {
    if run == [] then ""
    else if |run| == 1 then TextOf(run[0])
    else JoinedText(run[..|run| - 1]) + "\n\n" + TextOf(run[|run| - 1])
  }

  /** What one run becomes: a lone message as it is, several texts of a role as one. */
  ghost predicate FusedFrom(m: Message, run: seq<Message>) {
    || run == [m]
    || (&& |run| > 1
        && (forall i | 0 <= i < |run| :: IsText(run[i]) && HasText(run[i]) && run[i].role == run[0].role)
        && m == TextMessage(run[0].role, Str(JoinedText(run))))
  }

  ghost predicate FusedAll(merged: seq<Message>, runs: seq<seq<Message>>) {
    |merged| == |runs| && forall i | 0 <= i < |runs| :: FusedFrom(merged[i], runs[i])
  }

  lemma FuseOneMore(prev: Message, run: seq<Message>, m: Message)
    requires FusedFrom(prev, run) && HasText(prev) && HasText(m) && Joins(prev, m)
    ensures FusedFrom(TextMessage(prev.role, Str(TextOf(prev) + "\n\n" + TextOf(m))), run + [m])
  {
  }

  lemma {:induction false} RunsEnd(ms: seq<Message>)
    requires ms != []
    ensures var runs := Runs(ms);
            runs != [] && runs[|runs| - 1] != [] && runs[|runs| - 1][|runs[|runs| - 1]| - 1] == ms[|ms| - 1]
  {
  }

  /** The runs are the messages, cut but not changed. */
  lemma {:induction false} RunsKeepAll(ms: seq<Message>)
    ensures Flattened(Runs(ms)) == ms
  {
    if ms != [] {
      var init, m := ms[..|ms| - 1], ms[|ms| - 1];
      RunsKeepAll(init);
      var before, runs := Runs(init), Runs(ms);
      hide Joins;
      if |ms| > 1 && Joins(ms[|ms| - 2], m) && before != [] {
        assert runs == before[..|before| - 1] + [before[|before| - 1] + [m]];
        assert runs[..|runs| - 1] == before[..|before| - 1];
      } else {
        assert runs == before + [[m]];
        assert runs[..|runs| - 1] == before;
      }
      assert init + [m] == ms;
    }
  }

  lemma FusedTextKeepsRole(m: Message, run: seq<Message>)
    requires FusedFrom(m, run)
    ensures run != [] && m.role == run[|run| - 1].role && (IsText(m) <==> IsText(run[|run| - 1]))
  {
  }

  lemma FusedWithOneMore(merged: seq<Message>, runs: seq<seq<Message>>, last: Message, m: Message)
    requires FusedAll(merged, runs) && AllHaveText(merged) && HasText(m) && HasText(last)
    requires runs != [] && runs[|runs| - 1] != [] && runs[|runs| - 1][|runs[|runs| - 1]| - 1] == last
    ensures FusedAll(Added(merged, m),
                     if Joins(last, m) then runs[..|runs| - 1] + [runs[|runs| - 1] + [m]] else runs + [[m]])
  {
    var prev, run := merged[|merged| - 1], runs[|runs| - 1];
    assert FusedFrom(prev, run);
    FusedTextKeepsRole(prev, run);
    if Joins(last, m) {
      FuseOneMore(prev, run, m);
    } else {
      assert FusedFrom(m, [m]);
    }
  }

  /** Merging loses no text and adds none: each message out is one run of neighbours, fused with blank lines. */
  lemma {:induction false} NoTextIsLost(ms: seq<Message>)
    requires AllHaveText(ms)
    ensures FusedAll(Merged(ms), Runs(ms))
  {
    if |ms| == 1 {
      assert Merged(ms[..0]) == [] && Runs(ms[..0]) == [];
      assert FusedFrom(ms[0], [ms[0]]);
    } else if ms != [] {
      var init := ms[..|ms| - 1];
      NoTextIsLost(init);
      RunsEnd(init);
      FusedWithOneMore(Merged(init), Runs(init), init[|init| - 1], ms[|ms| - 1]);
    }
  }

  // ------------------------------------------------------------ more trips

  /** A message without the preview of its result. */
  function Bare(m: Message): Message {
    if IsToolUse(m) then m.(content := Null) else m
  }

  function Bares(ms: seq<Message>): (r: seq<Message>)
    ensures |r| == |ms| && forall i | 0 <= i < |ms| :: r[i] == Bare(ms[i])
  {
    if ms == [] then [] else Bares(ms[..|ms| - 1]) + [Bare(ms[|ms| - 1])]
  }

  /** The messages a trip can end with. */
  predicate IsOutput(m: Message) {
    && m.extra.None?
    && match m.role
       case Tool =>
         IsResult(m) && !Named(m.toolUseId) && m.toolName.None? && m.toolInput.None? &&
           (m.isError.Some? ==> m.isError.value)
       case System => false
       case User => IsText(m) && m == TextMessage(User, m.content) && m.content.Str?
       case Assistant =>
         if IsText(m) then m == TextMessage(Assistant, m.content) && m.content.Str?
         else IsToolUse(m) && m.toolInput.Some? && m.isError.None?
  }

  predicate AllOutput(ms: seq<Message>) { forall i | 0 <= i < |ms| :: IsOutput(ms[i]) }

  lemma ShownIsOutput(m: Message, results: map<string, Message>)
    requires HasText(m) && Normalized(m).Some? && !Folded(Normalized(m).value)
    ensures IsOutput(Shown(Normalized(m).value, results))
  {
  }

  lemma {:induction false} VisibleIsOutput(ms: seq<Message>, results: map<string, Message>)
    requires AllHaveText(ms)
    ensures AllOutput(Visible(Normal(ms), results))
  {
    assert Normal([]) == [] && Visible([], results) == [];
    hide IsOutput, Normalized, Normal, Visible, Shown, Folded;
    if ms != [] {
      var init, n := ms[..|ms| - 1], Normalized(ms[|ms| - 1]);
      VisibleIsOutput(init, results);
      NormalStep(ms);
      if n.Some? {
        VisibleOneMore(Normal(init), n.value, results);
        if !Folded(n.value) {
          ShownIsOutput(ms[|ms| - 1], results);
        }
      }
    }
  }

  lemma NormalStep(ms: seq<Message>)
    requires ms != []
    ensures var init, n := ms[..|ms| - 1], Normalized(ms[|ms| - 1]);
            Normal(ms) == if n.Some? then Normal(init) + [n.value] else Normal(init)
  {
  }

  lemma VisibleOneMore(ms: seq<Message>, m: Message, results: map<string, Message>)
    ensures Visible(ms + [m], results) == Visible(ms, results) + if Folded(m) then [] else [Shown(m, results)]
  {
  }

  lemma {:induction false} MergedIsOutput(ms: seq<Message>)
    requires AllHaveText(ms) && AllOutput(ms)
    ensures AllOutput(Merged(ms))
  {
    hide Added, IsOutput, HasText;
    if ms != [] {
      MergedIsOutput(ms[..|ms| - 1]);
      AddedIsOutput(Merged(ms[..|ms| - 1]), ms[|ms| - 1]);
    }
  }

  lemma AddedIsOutput(merged: seq<Message>, m: Message)
    requires AllHaveText(merged) && HasText(m) && AllOutput(merged) && IsOutput(m)
    ensures AllOutput(Added(merged, m))
  {
  }

  lemma OutputStep(m: Message)
    requires IsOutput(m)
    ensures Normalized(m) == Some(Bare(m)) && !Folded(Bare(m)) && Shown(Bare(m), map[]) == Bare(m)
    ensures IsOutput(Bare(m)) && HasText(Bare(m)) && Bare(Bare(m)) == Bare(m)
  {
  }

  lemma {:induction false} OutputIsNormal(ms: seq<Message>)
    requires AllOutput(ms)
    ensures Normal(ms) == Bares(ms)
  {
    if ms != [] {
      OutputIsNormal(ms[..|ms| - 1]);
      OutputStep(ms[|ms| - 1]);
    }
  }

  lemma {:induction false} OutputIsVisible(ms: seq<Message>)
    requires AllOutput(ms)
    ensures Results(Bares(ms)) == map[] && Visible(Bares(ms), map[]) == Bares(ms)
  {
    if ms != [] {
      var bares := Bares(ms);
      assert bares[..|bares| - 1] == Bares(ms[..|ms| - 1]);
      OutputIsVisible(ms[..|ms| - 1]);
      OutputStep(ms[|ms| - 1]);
      hide IsOutput, Folded, Shown, Bares;
    }
  }

  lemma {:induction false} MergedIsStable(ms: seq<Message>)
    requires AllHaveText(ms) && NoneJoins(ms)
    ensures Merged(ms) == ms
  {
    if ms != [] {
      MergedIsStable(ms[..|ms| - 1]);
    }
  }

  lemma BaresOfOutput(ms: seq<Message>)
    requires AllOutput(ms) && NoneJoins(ms)
    ensures AllOutput(Bares(ms)) && AllHaveText(Bares(ms)) && NoneJoins(Bares(ms)) && Bares(Bares(ms)) == Bares(ms)
  {
    forall i | 0 <= i < |ms|
      ensures IsOutput(Bares(ms)[i]) && HasText(Bares(ms)[i]) && Bares(Bares(ms))[i] == Bares(ms)[i]
    {
      OutputStep(ms[i]);
    }
  }

  lemma TripOfOutput(ms: seq<Message>)
    requires AllHaveText(ms) && AllOutput(ms) && NoneJoins(ms)
    ensures Trip(ms) == Bares(ms)
  {
    hide IsOutput;
    OutputIsNormal(ms);
    OutputIsVisible(ms);
    BaresOfOutput(ms);
    hide *;
    MergedIsStable(Bares(ms));
    assert Trip(ms) == Consolidated(Bares(ms)) by { TripUnfolds(ms); }
    ConsolidatedUnfolds(Bares(ms));
  }

  lemma TripUnfolds(ms: seq<Message>)
    requires AllHaveText(ms)
    ensures AllHaveText(Normal(ms)) && Trip(ms) == Consolidated(Normal(ms))
  {
  }

  lemma ConsolidatedUnfolds(ms: seq<Message>)
    requires AllHaveText(ms)
    ensures Consolidated(ms) == Merged(Visible(ms, Results(ms)))
  {
  }

  lemma TripIsOutput(ms: seq<Message>)
    requires AllHaveText(ms)
    ensures AllOutput(Trip(ms)) && NoneJoins(Trip(ms))
  {
    var visible := Visible(Normal(ms), Results(Normal(ms)));
    VisibleIsOutput(ms, Results(Normal(ms)));
    MergedIsOutput(visible);
    MergedNeverJoins(visible);
  }

  /** Previews appear on the first trip and are dropped on the second; after that a trip changes nothing. */
  lemma TripsSettle(ms: seq<Message>)
    requires AllHaveText(ms)
    ensures NoneJoins(Trip(ms))
    ensures Trip(Trip(ms)) == Bares(Trip(ms))
    ensures Trip(Trip(Trip(ms))) == Trip(Trip(ms))
    ensures Trip(Trip(ms)) == Trip(ms) <==>
            forall i | 0 <= i < |Trip(ms)| && IsToolUse(Trip(ms)[i]) :: Trip(ms)[i].content == Null
  {
    var once := Trip(ms);
    TripIsOutput(ms);
    BaresOfOutput(once);
    TripOfOutput(once);
    TripOfOutput(Bares(once));
    hide AllOutput, NoneJoins, AllHaveText, Trip, Bares, IsToolUse;
  }
}
