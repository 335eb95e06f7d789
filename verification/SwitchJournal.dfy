/**
  The switch driven by its journal file (server/switcher.py): what a reader of the
  file learns after a crash, down to the byte at which the last line was cut.
 */
module SwitchJournal {
  import opened Base
  import opened HandoffContract
  import opened Utf8
  import J = Journal
  import S = Switcher

  type Codec = J.Codec<S.Record>

  ghost predicate Faithful(c: Codec) {
    J.Good(c) && forall r :: c.op(r) == r.opId
  }

  /** The records a switch that started in `start` has added by `w`. */
  function Added(start: S.World, w: S.World): seq<S.Record>
    requires start.journal <= w.journal
  {
    w.journal[|start.journal|..]
  }

  /** The file at that point: what it was, and a line for each of them. */
  function FileAt(c: Codec, given: Bytes, start: S.World, w: S.World): Bytes
    requires start.journal <= w.journal
  {
    given + Encode(J.Written(c, Added(start, w)))
  }

  predicate Plain(c: Codec, records: seq<S.Record>) {
    forall r | r in records :: J.Unbroken(c.render(r))
  }

  /** The world the switch starts in has read its journal from the file. */
  ghost predicate ReadFrom(c: Codec, given: Bytes, op: string, start: S.World) {
    J.Complete(given) && J.Read(c, given, op) == Some(start.journal)
  }

  lemma {:induction false} AllOfOp(c: Codec, records: seq<S.Record>, op: string)
    requires forall r | r in records :: c.op(r) == op
    ensures J.OfOp(c, records, op) == records
  {
    if records != [] {
      AllOfOp(c, records[..|records| - 1], op);
    }
  }

  /** The file of any state of the switch reads back as exactly that state's journal. */
  lemma FileReadsBack(c: Codec, given: Bytes, op: string, h: Handoff, start: S.World, w: S.World)
    requires Faithful(c) && ReadFrom(c, given, op, start) && S.CrashSafe(op, h, start, w) && Plain(c, Added(start, w))
    ensures J.Read(c, FileAt(c, given, start, w), op) == Some(w.journal)
  {
    hide J.Good, J.Read, J.Readable, J.Written, Encode, J.Complete, S.Promise, S.Reached;
    var added := Added(start, w);
    AddedAreOfOp(c, op, h, start, w);
    assert start.journal + added == w.journal;
    AddedAreRead(c, added, op);
    FileReads(c, given, op, start.journal, added);
  }

  lemma AddedAreRead(c: Codec, added: seq<S.Record>, op: string)
    requires Plain(c, added) && forall r | r in added :: c.op(r) == op
    ensures J.Readable(c, added, op) == added
  {
    AllOfOp(c, added, op);
    J.AllReadable(c, added, op);
  }

  lemma FileReads(c: Codec, given: Bytes, op: string, before: seq<S.Record>, added: seq<S.Record>)
    requires J.Good(c) && J.Complete(given) && J.Read(c, given, op) == Some(before) && J.Readable(c, added, op) == added
    ensures J.Read(c, given + Encode(J.Written(c, added)), op) == Some(before + added)
  {
    hide *;
    J.AppendIsRead(c, given, added, op);
  }

  lemma AddedAreOfOp(c: Codec, op: string, h: Handoff, start: S.World, w: S.World)
    requires Faithful(c) && S.CrashSafe(op, h, start, w)
    ensures forall r | r in Added(start, w) :: c.op(r) == op
  {
    hide S.Promise, J.Good;
  }

  lemma {:induction false} WrittenIsWhole(c: Codec, records: seq<S.Record>)
    ensures J.WholeLines(J.Written(c, records))
  {
  }

  lemma FileIsComplete(c: Codec, given: Bytes, records: seq<S.Record>)
    requires J.Complete(given)
    ensures J.Complete(given + Encode(J.Written(c, records)))
  {
    hide Encode, Decode;
    WrittenIsWhole(c, records);
    J.AppendText(given, J.Written(c, records));
  }

  /**
    A crash between two effects, or inside the append of `next` at any byte: whoever reads the file finds the phase the
    switch was in, and slot, database and snapshot are as that phase promises; unless the cut lies inside a character,
    and then nothing is read at all.
   */
  lemma CrashIsToldByTheFile(
    c: Codec, given: Bytes, op: string, h: Handoff, start: S.World, w: S.World, next: S.Record, k: nat)
    requires Faithful(c) && ReadFrom(c, given, op, start) && S.CrashSafe(op, h, start, w) && Plain(c, Added(start, w))
    requires J.Unbroken(c.render(next)) && k < |Encode(c.render(next))|
    ensures var found := J.Read(c, FileAt(c, given, start, w) + Encode(c.render(next))[..k], op);
            && (found.Some? <==> OnBoundary(c.render(next), k))
            && (found.Some? ==>
                  && S.Reached(start.journal, found.value) == S.Reached(start.journal, w.journal)
                  && S.Promise(S.Reached(start.journal, found.value), h, start, w))
  {
    FileReadsBack(c, given, op, h, start, w);
    FileIsComplete(c, given, Added(start, w));
    hide J.Good, J.Complete, J.Read, S.Promise, S.Reached, OnBoundary;
    J.TornAfterFile(c, FileAt(c, given, start, w), next, k, op);
  }

  /** The world a switch starts in once it has read the file. */
  function Started(c: Codec, given: Bytes, op: string, world: S.World): S.World
    requires J.Read(c, given, op).Some?
  {
    world.(journal := J.Read(c, given, op).value)
  }

  /** run_switch on the file: it raises before anything else if the file cannot be decoded. */
  method RunOnFile(c: Codec, given: Bytes, op: string, world: S.World, casts: Casts,
                   switchTimeout: int, healthTimeout: int, grace: int)
    returns (code: S.ExitCode, file: Bytes, end: S.World, ghost history: seq<S.World>)
    requires J.Read(c, given, op).Some? ==>
               var h := S.Contract(Started(c, given, op, world), op, casts);
               h.Some? ==> world.current == h.value.fromSlot && world.alive <= {h.value.oldPid}
    ensures J.Read(c, given, op).None? ==> code == S.Raised && file == given && end == world
    ensures J.Read(c, given, op).None? ==> history == [world]
    ensures J.Read(c, given, op).Some? ==>
              var start := Started(c, given, op, world);
              && start.journal <= end.journal && file == FileAt(c, given, start, end)
              && (S.Contract(start, op, casts).Some? && !code.Raised? ==>
                    var phase := S.Reached(start.journal, end.journal); S.Final(phase) && code == S.CodeOf(phase))
    ensures J.Read(c, given, op).Some? ==>
              && history != [] && history[|history| - 1] == end
              && forall h, v | S.Contract(Started(c, given, op, world), op, casts) == Some(h) && v in history ::
                    S.CrashSafe(op, h, Started(c, given, op, world), v)
  {
    hide S.Contract, J.Good, S.CrashSafe, J.Complete, S.Reached;
    var journal := new J.JournalFile<S.Record>.Holding(given);
    var entries := journal.Entries(c, op);
    if entries.None? {
      return S.Raised, given, world, [world];
    }
    var start := world.(journal := entries.value);
    code, end, history := S.RunSwitch(op, start, casts, switchTimeout, healthTimeout, grace);
    assert start.journal <= end.journal by { EndGrows(op, start, end, code, S.Contract(start, op, casts)); }
    file := given + Encode(J.Written(c, end.journal[|start.journal|..]));
  }

  lemma EndGrows(op: string, start: S.World, end: S.World, code: S.ExitCode, h: Option<Handoff>)
    requires if h.None? then end in {S.Logged(start, op, S.SwitchError), start}
            else S.CrashSafe(op, h.value, start, end)
    ensures start.journal <= end.journal
  {
  }
}
