/**
  The switcher's append-only journal (server/switcher.py): one rendered record
  per line, written and read as UTF-8, and split the way Python's splitlines does.
 */
module Journal {
  import opened Base
  import opened Utf8

  // ------------------------------------------------------------ text

  /** str.splitlines; "\r\n" only adds a blank piece here, and blank pieces are skipped. */
  predicate IsBreak(c: char) {
    c in {'\n', '\r', '\U{0B}', '\U{0C}', '\U{1C}', '\U{1D}', '\U{1E}', '\U{85}', '\U{2028}', '\U{2029}'}
  }

  predicate IsBlank(c: char) {
    IsBreak(c) || c in {' ', '\t', '\U{1F}', '\U{A0}', '\U{1680}', '\U{202F}', '\U{205F}', '\U{3000}'}
    || '\U{2000}' <= c <= '\U{200A}'
  }

  predicate Unbroken(text: string) {
    forall c | c in text :: !IsBreak(c)
  }

  function BreakAt(text: string): (n: nat)
    ensures n <= |text| && Unbroken(text[..n])
    ensures n < |text| ==> IsBreak(text[n])
  {
    if text == [] || IsBreak(text[0]) then 0
    else
      var n := 1 + BreakAt(text[1..]);
      assert text[..n] == [text[0]] + text[1..][..n - 1];
      n
  }

  function Lines(text: string): seq<string> {
    var n := BreakAt(text);
    if n == |text| then [text] else [text[..n]] + Lines(text[n + 1..])
  }

  function Strip(text: string): string {
    if text != [] && IsBlank(text[0]) then Strip(text[1..])
    else if text != [] && IsBlank(text[|text| - 1]) then Strip(text[..|text| - 1])
    else text
  }

  // ------------------------------------------------------------ codec

  /** json.dumps with ensure_ascii=False, json.loads keeping objects that name an op, and that name. */
  datatype Codec<!R> = Codec(render: R -> string, parse: string -> Option<R>, op: R -> string)

  /** What JSON gives: `{...}` round-trips, and no text cut inside a record or glued to another is a record. */
  ghost predicate Good<R(!new)>(c: Codec<R>) {
    && (forall r :: |c.render(r)| >= 2 && !IsBlank(c.render(r)[0]) && !IsBlank(c.render(r)[|c.render(r)| - 1]))
    && (forall r :: c.parse(c.render(r)) == Some(r))
    && (forall r, k | 0 <= k < |c.render(r)| :: c.parse(Strip(c.render(r)[..k])) == None)
    && (forall r, line | line in Lines(c.render(r)) && !Unbroken(c.render(r)) :: c.parse(Strip(line)) == None)
    && (forall r, k, q, line | 0 < k <= |c.render(r)| && Unbroken(c.render(r)) &&
      line in Lines(c.render(r)[..k] + c.render(q)) ::
          c.parse(Strip(line)) == None)
  }

  // ------------------------------------------------------------ reading and writing

  function ReadLine<R>(c: Codec<R>, line: string, op: string): seq<R> {
    var raw := Strip(line);
    if raw == [] then []
    else
      var record := c.parse(raw);
      if record.Some? && c.op(record.value) == op then [record.value] else []
  }

  function ReadLines<R>(c: Codec<R>, lines: seq<string>, op: string): seq<R> {
    if lines == [] then [] else ReadLines(c, lines[..|lines| - 1], op) + ReadLine(c, lines[|lines| - 1], op)
  }

  function EntriesOf<R>(c: Codec<R>, text: string, op: string): seq<R> {
    ReadLines(c, Lines(text), op)
  }

  function Written<R>(c: Codec<R>, records: seq<R>): string {
    if records == [] then "" else Written(c, records[..|records| - 1]) + c.render(records[|records| - 1]) + "\n"
  }

  /** The records of `op` whose rendered text has no line break in it, in order. */
  function Readable<R>(c: Codec<R>, records: seq<R>, op: string): seq<R> {
    if records == [] then []
    else
      var last := records[|records| - 1];
      Readable(c, records[..|records| - 1], op) + if c.op(last) == op && Unbroken(c.render(last)) then [last] else []
  }

  /** The file decoded and read; undecodable bytes make read_text raise, and no record of any op is read. */
  function Read<R>(c: Codec<R>, bytes: Bytes, op: string): Option<seq<R>> {
    var text := Decode(bytes);
    if text.None? then None else Some(EntriesOf(c, text.value, op))
  }

  predicate WholeLines(text: string) {
    text == "" || text[|text| - 1] == '\n'
  }

  /** Readable, and ending where a line ends. */
  predicate Complete(bytes: Bytes) {
    Decode(bytes).Some? && WholeLines(Decode(bytes).value)
  }

  class JournalFile<R(!new)> {
    var bytes: Bytes

    constructor Holding(bytes: Bytes)
      ensures this.bytes == bytes
    {
      this.bytes := bytes;
    }

    /** One record more for its op, at the end of a file of whole lines, if its text has no line break. */
    method Append(c: Codec<R>, record: R)
      requires Good(c)
      modifies this
      ensures bytes == old(bytes) + Encode(c.render(record) + "\n")
      ensures Complete(old(bytes)) ==> Complete(bytes)
      ensures forall op :: Complete(old(bytes)) ==>
                Read(c, bytes, op) == Some(Read(c, old(bytes), op).value + Readable(c, [record], op))
    {
      if Complete(bytes) {
        forall op
          ensures Read(c, bytes + Encode(c.render(record) + "\n"), op) ==
                  Some(Read(c, bytes, op).value + Readable(c, [record], op))
        {
          AppendIsRead(c, bytes, [record], op);
          assert Written(c, [record]) == c.render(record) + "\n" by { OneLine(c, record); }
        }
        AppendIsComplete(c, bytes, record);
      }
      bytes := bytes + Encode(c.render(record) + "\n");
    }

    /** None when the file cannot be decoded. */
    method Entries(c: Codec<R>, op: string) returns (records: Option<seq<R>>)
      ensures records == Read(c, bytes, op)
    {
      var text := Decode(bytes);
      if text.None? {
        return None;
      }
      var found := [];
      var lines := Lines(text.value);
      for k := 0 to |lines|
        invariant found == ReadLines(c, lines[..k], op)
      {
        assert lines[..k + 1][..k] == lines[..k];
        var raw := Strip(lines[k]);
        if raw == "" {
          continue;
        }
        var record := c.parse(raw);
        if record.Some? && c.op(record.value) == op {
          found := found + [record.value];
        }
      }
      assert lines[..|lines|] == lines;
      records := Some(found);
    }
  }

  // ------------------------------------------------------------ splitting at a newline

  lemma {:induction false} LinesSplit(a: string, b: string)
    ensures Lines(a + "\n" + b) == Lines(a) + Lines(b)
    decreases |a|
  {
    var whole := a + "\n" + b;
    var n := BreakAt(a);
    BreakAtPrefix(a, "\n" + b);
    assert whole == a + ("\n" + b);
    if n == |a| {
      assert whole[..n] == a && whole[n + 1..] == b;
    } else {
      assert whole[n + 1..] == a[n + 1..] + "\n" + b;
      assert whole[..n] == a[..n];
      LinesSplit(a[n + 1..], b);
    }
  }

  lemma {:induction false} BreakAtPrefix(a: string, b: string)
    requires b != [] && IsBreak(b[0])
    ensures BreakAt(a + b) == BreakAt(a)
  {
    if a != [] && !IsBreak(a[0]) {
      assert (a + b)[1..] == a[1..] + b;
      BreakAtPrefix(a[1..], b);
    } else {
      assert a == [] ==> a + b == b;
    }
  }

  lemma {:induction false} ReadLinesSplit<R(!new)>(c: Codec<R>, a: seq<string>, b: seq<string>, op: string)
    ensures ReadLines(c, a + b, op) == ReadLines(c, a, op) + ReadLines(c, b, op)
  {
    if b == [] {
      assert a + b == a;
    } else {
      assert (a + b)[..|a + b| - 1] == a + b[..|b| - 1];
      ReadLinesSplit(c, a, b[..|b| - 1], op);
    }
  }

  lemma EntriesSplit<R(!new)>(c: Codec<R>, a: string, b: string, op: string)
    ensures EntriesOf(c, a + "\n" + b, op) == EntriesOf(c, a, op) + EntriesOf(c, b, op)
  {
    LinesSplit(a, b);
    ReadLinesSplit(c, Lines(a), Lines(b), op);
  }

  lemma {:induction false} UnbrokenIsOneLine(text: string)
    ensures Unbroken(text) <==> Lines(text) == [text]
    ensures Unbroken(text) <==> BreakAt(text) == |text|
  {
  }

  lemma {:induction false} NoRecordIn<R(!new)>(c: Codec<R>, lines: seq<string>, op: string)
    requires forall line | line in lines :: c.parse(Strip(line)) == None
    ensures ReadLines(c, lines, op) == []
  {
    if lines != [] {
      NoRecordIn(c, lines[..|lines| - 1], op);
    }
  }

  lemma OneRecord<R(!new)>(c: Codec<R>, r: R, op: string)
    requires Good(c)
    ensures EntriesOf(c, c.render(r), op) == if c.op(r) == op && Unbroken(c.render(r)) then [r] else []
  {
    var line := c.render(r);
    UnbrokenIsOneLine(line);
    if Unbroken(line) {
      assert Strip(line) == line;
      assert ReadLines(c, [line], op) == ReadLines(c, [], op) + ReadLine(c, line, op) by {
        assert [line][..0] == [];
      }
    } else {
      NoRecordIn(c, Lines(line), op);
    }
  }

  lemma Regroup(a: string, b: string, nl: string, rest: string)
    ensures a + b + nl + rest == a + (b + nl + rest)
  {
  }

  lemma LastRecord<R(!new)>(c: Codec<R>, records: seq<R>, op: string)
    requires records != []
    ensures var init, last := records[..|records| - 1], records[|records| - 1];
            && Written(c, records) == Written(c, init) + c.render(last) + "\n"
            && Readable(c, records, op) ==
               Readable(c, init, op) + if c.op(last) == op && Unbroken(c.render(last)) then [last] else []
  {
  }

  // ------------------------------------------------------------ what survives

  /** Reading back gives exactly the op's records whose text has no line break: U+2028 in a detail loses its record. */
  lemma {:induction false} ReadBack<R(!new)>(c: Codec<R>, records: seq<R>, tail: string, op: string)
    requires Good(c)
    ensures EntriesOf(c, Written(c, records) + tail, op) == Readable(c, records, op) + EntriesOf(c, tail, op)
  {
    hide *;
    if records == [] {
      NothingWritten(c, tail, op);
    } else {
      var init, last := records[..|records| - 1], records[|records| - 1];
      LastRecord(c, records, op);
      Regroup(Written(c, init), c.render(last), "\n", tail);
      ReadBack(c, init, c.render(last) + "\n" + tail, op);
      EntriesSplit(c, c.render(last), tail, op);
      OneRecord(c, last, op);
      var read := if c.op(last) == op && Unbroken(c.render(last)) then [last] else [];
      JoinEntries(Readable(c, init, op), read, EntriesOf(c, tail, op));
    }
  }

  lemma NothingWritten<R(!new)>(c: Codec<R>, tail: string, op: string)
    ensures EntriesOf(c, Written(c, []) + tail, op) == Readable(c, [], op) + EntriesOf(c, tail, op)
  {
    assert Written(c, []) + tail == tail;
  }

  lemma JoinEntries<R>(a: seq<R>, b: seq<R>, d: seq<R>)
    ensures a + (b + d) == a + b + d
  {
  }

  lemma NothingInEmptyText<R(!new)>(c: Codec<R>, op: string)
    ensures EntriesOf(c, "", op) == []
  {
    var lines := Lines("");
    assert BreakAt("") == 0;
    assert lines == [""] && lines[..0] == [];
    assert ReadLines(c, lines, op) == ReadLines(c, lines[..0], op) + ReadLine(c, lines[0], op);
  }

  /** Text cut inside its last line: that line hides only its own record, unless just its newline is missing. */
  lemma TornTextIsHarmless<R(!new)>(c: Codec<R>, records: seq<R>, torn: R, k: nat, op: string)
    requires Good(c) && k <= |c.render(torn)| && Unbroken(c.render(torn))
    ensures EntriesOf(c, Written(c, records) + c.render(torn)[..k], op) ==
            Readable(c, records, op) + if k == |c.render(torn)| && c.op(torn) == op then [torn] else []
  {
    var tail := c.render(torn)[..k];
    ReadBack(c, records, tail, op);
    if k == |c.render(torn)| {
      assert tail == c.render(torn);
      OneRecord(c, torn, op);
    } else {
      CutLineHoldsNothing(c, torn, k, op);
    }
  }

  /** Without line breaks in the details, every completed append is read back in order. */
  lemma {:induction false} AllReadable<R(!new)>(c: Codec<R>, records: seq<R>, op: string)
    requires forall r | r in records :: Unbroken(c.render(r))
    ensures Readable(c, records, op) == OfOp(c, records, op)
  {
    if records != [] {
      AllReadable(c, records[..|records| - 1], op);
    }
  }

  function OfOp<R>(c: Codec<R>, records: seq<R>, op: string): seq<R> {
    if records == [] then []
    else
      var last := records[|records| - 1];
      OfOp(c, records[..|records| - 1], op) + if c.op(last) == op then [last] else []
  }

  /** Text appended after a torn line is glued to it, and its record is lost. */
  lemma GluedTextIsLost<R(!new)>(c: Codec<R>, records: seq<R>, torn: R, k: nat, next: R, later: seq<R>, op: string)
    requires Good(c) && 0 < k <= |c.render(torn)| && Unbroken(c.render(torn))
    ensures EntriesOf(c, Written(c, records) + (c.render(torn)[..k] + c.render(next) + "\n" + Written(c, later)), op) ==
            Readable(c, records, op) + Readable(c, later, op)
  {
    hide *;
    var glued := c.render(torn)[..k] + c.render(next);
    GluedHoldsNothing(c, torn, k, next, op);
    ReadBack(c, records, glued + "\n" + Written(c, later), op);
    EntriesSplit(c, glued, Written(c, later), op);
    AllRead(c, later, op);
  }

  lemma AllRead<R(!new)>(c: Codec<R>, records: seq<R>, op: string)
    requires Good(c)
    ensures EntriesOf(c, Written(c, records), op) == Readable(c, records, op)
  {
    hide *;
    ReadBack(c, records, "", op);
    NothingInEmptyText(c, op);
    assert Written(c, records) + "" == Written(c, records);
  }

  lemma GluedHoldsNothing<R(!new)>(c: Codec<R>, torn: R, k: nat, next: R, op: string)
    requires Good(c) && 0 < k <= |c.render(torn)| && Unbroken(c.render(torn))
    ensures EntriesOf(c, c.render(torn)[..k] + c.render(next), op) == []
  {
    hide Lines, Strip, BreakAt;
    NoRecordIn(c, Lines(c.render(torn)[..k] + c.render(next)), op);
  }

  // ------------------------------------------------------------ the file

  lemma OneLine<R(!new)>(c: Codec<R>, record: R)
    ensures Written(c, [record]) == c.render(record) + "\n"
  {
    assert [record][..0] == [] && Written(c, [record][..0]) == "";
    assert "" + c.render(record) == c.render(record);
  }

  lemma AppendText(bytes: Bytes, more: string)
    requires Decode(bytes).Some?
    ensures Decode(bytes + Encode(more)) == Some(Decode(bytes).value + more)
  {
    hide Decode, Encode;
    DecodeInverse(bytes);
    DecodeAfter(Decode(bytes).value, Encode(more));
    DecodeText(more);
  }

  lemma TextAfterLines<R(!new)>(c: Codec<R>, text: string, more: string, op: string)
    requires WholeLines(text)
    ensures EntriesOf(c, text + more, op) == EntriesOf(c, text, op) + EntriesOf(c, more, op)
  {
    hide EntriesOf;
    NothingInEmptyText(c, op);
    if text == "" {
      assert text + more == more;
    } else {
      var line := text[..|text| - 1];
      assert text == line + "\n" + "" && text + more == line + "\n" + more;
      EntriesSplit(c, line, "", op);
      EntriesSplit(c, line, more, op);
    }
  }

  /** What follows a file of whole lines is read after it. */
  lemma AppendIsRead<R(!new)>(c: Codec<R>, bytes: Bytes, records: seq<R>, op: string)
    requires Good(c) && Complete(bytes)
    ensures Read(c, bytes + Encode(Written(c, records)), op) ==
            Some(Read(c, bytes, op).value + Readable(c, records, op))
  {
    hide Good, EntriesOf, Decode, Encode, Written, Readable, WholeLines;
    AppendText(bytes, Written(c, records));
    TextAfterLines(c, Decode(bytes).value, Written(c, records), op);
    AllRead(c, records, op);
  }

  lemma AppendIsComplete<R(!new)>(c: Codec<R>, bytes: Bytes, record: R)
    requires Complete(bytes)
    ensures Complete(bytes + Encode(c.render(record) + "\n"))
  {
    hide Decode, Encode;
    AppendText(bytes, c.render(record) + "\n");
  }

  lemma FullCut(s: string, j: nat)
    requires j <= |s|
    ensures |Encode(s[..j])| == |Encode(s)| <==> j == |s|
    ensures |Encode(s[..j])| == 0 <==> j == 0
  {
    EncodeConcat(s[..j], s[j..]);
    assert s[..j] + s[j..] == s;
  }

  /**
    A crash inside an append leaves the line cut at some byte. Between two characters the torn line hides only its own
    record; inside one the file cannot be decoded, and no record of any op is read.
   */
  lemma TornTailIsHarmless<R(!new)>(c: Codec<R>, records: seq<R>, torn: R, k: nat, op: string)
    requires Good(c) && Unbroken(c.render(torn)) && k <= |Encode(c.render(torn))|
    ensures Read(c, Encode(Written(c, records)) + Encode(c.render(torn))[..k], op) ==
            if OnBoundary(c.render(torn), k) then
              Some(Readable(c, records, op) + if k == |Encode(c.render(torn))| && c.op(torn) == op then [torn] else [])
            else None
  {
    hide Good, EntriesOf, Decode, Encode, Written, Readable, Unbroken, OnBoundary;
    var line, before := c.render(torn), Written(c, records);
    var j := CutText(before, line, k, "");
    EncodeNothing();
    assert Encode(before) + Encode(line)[..k] + [] == Encode(before) + Encode(line)[..k];
    if OnBoundary(line, k) {
      FullCut(line, j);
      TornTextIsHarmless(c, records, torn, j, op);
      assert before + line[..j] + "" == before + line[..j];
    }
  }

  /** The same behind any file of whole lines. */
  lemma TornAfterFile<R(!new)>(c: Codec<R>, bytes: Bytes, torn: R, k: nat, op: string)
    requires Good(c) && Complete(bytes) && Unbroken(c.render(torn)) && k < |Encode(c.render(torn))|
    ensures Read(c, bytes + Encode(c.render(torn))[..k], op) ==
            if OnBoundary(c.render(torn), k) then Read(c, bytes, op) else None
  {
    hide Good, EntriesOf, Decode, Encode, Written, Readable, Unbroken, OnBoundary, WholeLines;
    var line, text := c.render(torn), Decode(bytes).value;
    DecodeInverse(bytes);
    var j := CutText(text, line, k, "");
    EncodeNothing();
    assert bytes + Encode(line)[..k] + [] == bytes + Encode(line)[..k];
    if OnBoundary(line, k) {
      FullCut(line, j);
      CutLineHoldsNothing(c, torn, j, op);
      TextAfterLines(c, text, line[..j], op);
      assert text + line[..j] + "" == text + line[..j];
      assert EntriesOf(c, text, op) + [] == EntriesOf(c, text, op);
    }
  }

  lemma CutLineHoldsNothing<R(!new)>(c: Codec<R>, torn: R, j: nat, op: string)
    requires Good(c) && Unbroken(c.render(torn)) && j < |c.render(torn)|
    ensures EntriesOf(c, c.render(torn)[..j], op) == []
  {
    var tail := c.render(torn)[..j];
    assert forall ch | ch in tail :: ch in c.render(torn);
    UnbrokenIsOneLine(tail);
    NoRecordIn(c, [tail], op);
  }

  /**
    The limit of the tolerance: what is appended after a torn line is glued to it. Between two characters one record is
    lost with it; inside one the whole file stays unreadable, whatever is appended later.
   */
  lemma AppendAfterTornIsLost<R(!new)>(
    c: Codec<R>, records: seq<R>, torn: R, k: nat, next: R, later: seq<R>, op: string)
    requires Good(c) && Unbroken(c.render(torn)) && 0 < k <= |Encode(c.render(torn))|
    ensures Read(c, Encode(Written(c, records)) + Encode(c.render(torn))[..k] +
                    Encode(c.render(next) + "\n" + Written(c, later)), op) ==
            if OnBoundary(c.render(torn), k) then Some(Readable(c, records, op) + Readable(c, later, op)) else None
  {
    hide Good, EntriesOf, Decode, Encode, Written, Readable, Unbroken, OnBoundary;
    var line, before, after := c.render(torn), Written(c, records), c.render(next) + "\n" + Written(c, later);
    var j := CutText(before, line, k, after);
    if OnBoundary(line, k) {
      FullCut(line, j);
      GluedTextIsLost(c, records, torn, j, next, later, op);
      RegroupGlued(before, line[..j], c.render(next), "\n", Written(c, later));
    }
  }

  lemma RegroupGlued(a: string, b: string, d: string, nl: string, e: string)
    ensures a + b + (d + nl + e) == a + (b + d + nl + e)
  {
  }
}
