/**
  run_switch of server/switcher.py: the journaled switch and its rollback,
  against an environment that may do anything a live server may do, and a crash
  between any two effects.
 */
module Switcher {
  import opened Base
  import opened HandoffContract

  // ------------------------------------------------------------ journal and disk

  datatype Stage = PortNotFreed | OldServerUnhealthy

  datatype Entry =
    | HandedOff(detail: Detail)
    | SwitchError
    | OldWontDie
    | FlipDone
    | SwitchedOk(pid: nat)
    | RollbackBegin
    | RolledBack(oldPid: nat)
    | RollbackIncomplete(stage: Stage)

  datatype Record = Record(opId: string, entry: Entry)

  /** File contents; a copy in progress leaves a torn file. */
  datatype Content = Version(n: int) | Torn

  datatype DbFile = DbFile(content: Content, wal: bool, shm: bool)

  /** A server started by the switcher: from which slot, on which database. */
  datatype Boot = Boot(pid: nat, slot: string, db: DbFile)

  /** A /health answer received while the process was seen alive. */
  datatype Sighting = Sighting(pid: nat, sha: string)

  /** Everything durable, and what the switcher has done and seen so far. */
  datatype World = World(
    journal: seq<Record>,
    current: string,
    slots: set<string>,
    db: DbFile,
    snapshot: Option<int>,
    alive: set<nat>,      // servers that can still run code
    dbWrites: nat,        // effects of the switcher on the database files
    boots: seq<Boot>,
    sightings: set<Sighting>)

  function Logged(w: World, op: string, e: Entry): World {
    w.(journal := w.journal + [Record(op, e)])
  }

  // ------------------------------------------------------------ what a journal tail promises

  /** How far a switch got, read off the words it added to the journal. */
  datatype Phase =
    | Waiting | Refused | OldAlive | Flipping | Switched(pid: nat)
    | RollingBack | Restored(pid: nat) | Stuck(stage: Stage) | Illegal

  function Advance(p: Phase, e: Entry): Phase {
    match (p, e)
    case (Waiting, SwitchError) => Refused
    case (Waiting, OldWontDie) => OldAlive
    case (Waiting, FlipDone) => Flipping
    case (Flipping, SwitchedOk(pid)) => Switched(pid)
    case (Flipping, RollbackBegin) => RollingBack
    case (RollingBack, RolledBack(pid)) => Restored(pid)
    case (RollingBack, RollbackIncomplete(stage)) => Stuck(stage)
    case _ => Illegal
  }

  function PhaseOf(records: seq<Record>): Phase {
    if records == [] then Waiting else Advance(PhaseOf(records[..|records| - 1]), records[|records| - 1].entry)
  }

  predicate Final(p: Phase) {
    p.Refused? || p.OldAlive? || p.Switched? || p.Restored? || p.Stuck?
  }

  /** The phase of the records this switch has added to the journal it was given. */
  function Reached(given: seq<Record>, journal: seq<Record>): Phase {
    if |journal| < |given| then Illegal else PhaseOf(journal[|given|..])
  }

  // The words an uninterrupted switch may add.
  predicate Word(records: seq<Record>) {
    || (|records| == 1 && (records[0].entry.SwitchError? || records[0].entry.OldWontDie?))
    || (|records| == 2 && records[0].entry.FlipDone? && records[1].entry.SwitchedOk?)
    || (|records| == 3 && records[0].entry.FlipDone? && records[1].entry.RollbackBegin? &&
        (records[2].entry.RolledBack? || records[2].entry.RollbackIncomplete?))
  }

  /** A journal has reached a final phase exactly when this switch added one whole word to it. */
  lemma {:induction false} FinalMeansOneWord(records: seq<Record>)
    ensures Final(PhaseOf(records)) <==> Word(records)
    ensures PhaseOf(records).Waiting? <==> records == []
    ensures PhaseOf(records).Flipping? <==> |records| == 1 && records[0].entry.FlipDone?
    ensures PhaseOf(records).RollingBack? <==>
              |records| == 2 && records[0].entry.FlipDone? && records[1].entry.RollbackBegin?
  {
    if records != [] {
      FinalMeansOneWord(records[..|records| - 1]);
    }
  }

  predicate Untouched(start: World, w: World) {
    w.current == start.current && w.dbWrites == start.dbWrites && w.boots == start.boots
  }

  /** The last server was started from `slot` and answered with `sha`. */
  ghost predicate Runs(w: World, pid: nat, slot: string, sha: string) {
    && w.boots != []
    && w.boots[|w.boots| - 1].pid == pid && w.boots[|w.boots| - 1].slot == slot
    && Sighting(pid, sha) in w.sightings
  }

  /** The last server booted on exactly the snapshot, with no stale sidecar. */
  predicate BootedOnSnapshot(w: World, slot: string) {
    && w.boots != [] && w.snapshot.Some?
    && w.boots[|w.boots| - 1].slot == slot
    && w.boots[|w.boots| - 1].db == DbFile(Version(w.snapshot.value), false, false)
  }

  predicate MayHaveFlipped(p: Phase) {
    p.Flipping? || p.Switched? || p.RollingBack? || p.Restored? || p.Stuck?
  }

  /** What the disk and the processes look like in each phase; no flip without both slots. */
  ghost predicate Promise(p: Phase, h: Handoff, start: World, w: World) {
    && (MayHaveFlipped(p) ==> {h.fromSlot, h.toSlot} <= w.slots)
    && match p
    case Waiting => Untouched(start, w)
    case Refused => Untouched(start, w)
    case OldAlive => Untouched(start, w)
    case Flipping => w.current in {h.fromSlot, h.toSlot} && w.dbWrites == start.dbWrites
    case Switched(pid) => w.current == h.toSlot && w.dbWrites == start.dbWrites && Runs(w, pid, h.toSlot, h.newSha)
    case RollingBack => w.current == h.fromSlot || (w.current == h.toSlot && w.dbWrites == start.dbWrites)
    case Restored(pid) =>
      w.current == h.fromSlot && BootedOnSnapshot(w, h.fromSlot) && Runs(w, pid, h.fromSlot, h.oldSha)
    case Stuck(stage) =>
      if stage.PortNotFreed? then w.current == h.toSlot && w.dbWrites == start.dbWrites
      else w.current == h.fromSlot && BootedOnSnapshot(w, h.fromSlot)
    case Illegal => false
  }

  /** The journal only grew, by records of this switch; snapshot and slots are as they were. */
  predicate Grown(op: string, start: World, w: World) {
    && start.journal <= w.journal
    && (forall k | |start.journal| <= k < |w.journal| :: w.journal[k].opId == op)
    && w.snapshot == start.snapshot && w.slots == start.slots
  }

  /** Every state a crash may leave, told by the words this switch added to the journal. */
  ghost predicate CrashSafe(op: string, h: Handoff, start: World, w: World) {
    Grown(op, start, w) && Promise(Reached(start.journal, w.journal), h, start, w)
  }

  /** In every state of a switch that began with a real current slot, `current` names a real slot. */
  lemma CurrentIsReal(op: string, h: Handoff, start: World, w: World)
    requires start.current in start.slots && CrashSafe(op, h, start, w)
    ensures w.current in w.slots
  {
    var p := Reached(start.journal, w.journal);
    if !MayHaveFlipped(p) {
      assert Untouched(start, w);
    }
  }

  // ------------------------------------------------------------ what the environment may do

  /** Servers may write the database while any is alive, and only die; nothing else on disk is theirs. */
  ghost predicate Quiet(v: World, w: World) {
    && w == v.(db := w.db, alive := w.alive, sightings := w.sightings)
    && w.alive <= v.alive
    && (v.alive == {} ==> w.db == v.db)
    && v.sightings <= w.sightings
  }

  lemma QuietKeepsCrashSafe(op: string, h: Handoff, start: World, v: World, w: World)
    requires CrashSafe(op, h, start, v) && Quiet(v, w)
    ensures CrashSafe(op, h, start, w)
  {
  }

  /** A record may be written exactly when its phase's promise already holds. */
  lemma LogKeepsCrashSafe(op: string, h: Handoff, start: World, w: World, e: Entry)
    requires CrashSafe(op, h, start, w)
    ensures Reached(start.journal, Logged(w, op, e).journal) == Advance(Reached(start.journal, w.journal), e)
    ensures CrashSafe(op, h, start, Logged(w, op, e)) <==>
            Promise(Advance(Reached(start.journal, w.journal), e), h, start, w)
  {
    PhaseOfLogged(start.journal, w.journal, Record(op, e));
    PromiseIgnoresJournal(Advance(Reached(start.journal, w.journal), e), h, start, w, Logged(w, op, e));
    hide Promise, Reached, Advance;
    assert Grown(op, start, Logged(w, op, e));
  }

  lemma PhaseOfLogged(given: seq<Record>, journal: seq<Record>, r: Record)
    requires |given| <= |journal|
    ensures Reached(given, journal + [r]) == Advance(Reached(given, journal), r.entry)
  {
    var added := journal[|given|..];
    assert (journal + [r])[|given|..] == added + [r];
    assert (added + [r])[..|added|] == added;
  }

  lemma PromiseIgnoresJournal(p: Phase, h: Handoff, start: World, w: World, v: World)
    requires v == w.(journal := v.journal)
    ensures Promise(p, h, start, v) <==> Promise(p, h, start, w)
  {
  }

  // ------------------------------------------------------------ the switch

  datatype Reason = NewProcessExited | HealthTimeout

  /** `Raised` is an exception out of an effect: the journal, the flip, the copy or the spawn. */
  datatype ExitCode = ExitOk | ExitFailed | ExitError | Raised

  /** The exit code says how the journal ended. */
  function CodeOf(p: Phase): ExitCode {
    if p.Refused? then ExitError else if p.Switched? then ExitOk else ExitFailed
  }

  // The three words of records a switch can end with, beside a lone switch_error or old_wont_die.
  function SwitchedWord(op: string, pid: nat): seq<Record> {
    [Record(op, FlipDone), Record(op, SwitchedOk(pid))]
  }

  function RollbackWord(op: string, last: Entry): seq<Record> {
    [Record(op, FlipDone), Record(op, RollbackBegin), Record(op, last)]
  }

  ghost predicate SeenWith(w: World, sha: string) {
    exists pid :: Sighting(pid, sha) in w.sightings
  }

  /** What an exit code tells whoever reads it, told without the phases. */
  ghost predicate PlainExit(code: ExitCode, op: string, h: Handoff, start: World, end: World) {
    match code
    case ExitError =>
      && end.journal == start.journal + [Record(op, SwitchError)]
      && end.current == start.current && end.dbWrites == start.dbWrites && end.boots == start.boots
    case ExitOk =>
      exists pid | end.journal == start.journal + SwitchedWord(op, pid) ::
        && end.current == h.toSlot && end.dbWrites == start.dbWrites && Sighting(pid, h.newSha) in end.sightings
        && end.boots != [] && end.boots[|end.boots| - 1].pid == pid && end.boots[|end.boots| - 1].slot == h.toSlot
    case ExitFailed =>
      || (&& end.journal == start.journal + [Record(op, OldWontDie)]
          && end.current == start.current && end.dbWrites == start.dbWrites && end.boots == start.boots)
      || (&& end.journal == start.journal + RollbackWord(op, RollbackIncomplete(PortNotFreed))
          && end.current == h.toSlot && end.dbWrites == start.dbWrites)
      || (&& end.journal == start.journal + RollbackWord(op, RollbackIncomplete(OldServerUnhealthy))
          && end.current == h.fromSlot && OnSnapshot(end, h.fromSlot))
      || (exists pid | end.journal == start.journal + RollbackWord(op, RolledBack(pid)) ::
            && end.current == h.fromSlot && OnSnapshot(end, h.fromSlot)
            && end.boots[|end.boots| - 1].pid == pid && Sighting(pid, h.oldSha) in end.sightings)
    case Raised => true
  }

  predicate OnSnapshot(w: World, slot: string) {
    && w.boots != [] && w.snapshot.Some? && w.boots[|w.boots| - 1].slot == slot
    && w.boots[|w.boots| - 1].db == DbFile(Version(w.snapshot.value), false, false)
  }

  /** The records of a final phase, one by one. */
  predicate Spelled(p: Phase, records: seq<Record>, op: string) {
    match p
    case Refused => records == [Record(op, SwitchError)]
    case OldAlive => records == [Record(op, OldWontDie)]
    case Switched(pid) => records == SwitchedWord(op, pid)
    case Restored(pid) => records == RollbackWord(op, RolledBack(pid))
    case Stuck(stage) => records == RollbackWord(op, RollbackIncomplete(stage))
    case _ => true
  }

  lemma PhaseOfOneMore(records: seq<Record>, r: Record)
    ensures PhaseOf(records + [r]) == Advance(PhaseOf(records), r.entry)
  {
    assert (records + [r])[..|records|] == records;
  }

  lemma PhaseOfTwo(a: Record, b: Record)
    ensures PhaseOf([a]) == Advance(Waiting, a.entry)
    ensures PhaseOf([a, b]) == Advance(Advance(Waiting, a.entry), b.entry)
  {
    PhaseOfOneMore([], a);
    PhaseOfOneMore([a], b);
    assert [] + [a] == [a] && [a] + [b] == [a, b];
  }

  lemma WordsAreSpelled(records: seq<Record>, op: string)
    requires Word(records) && forall k | 0 <= k < |records| :: records[k].opId == op
    ensures Spelled(PhaseOf(records), records, op)
  {
    hide PhaseOf;
    if |records| == 1 {
      PhaseOfTwo(records[0], records[0]);
      assert records == [records[0]];
    } else if |records| == 2 {
      PhaseOfTwo(records[0], records[1]);
      assert records == [records[0], records[1]];
    } else {
      RollbackIsSpelled(records[0], records[1], records[2], op);
      assert records == [records[0], records[1], records[2]];
    }
  }

  lemma RollbackIsSpelled(a: Record, b: Record, c: Record, op: string)
    requires a == Record(op, FlipDone) && b == Record(op, RollbackBegin) && c.opId == op
    requires c.entry.RolledBack? || c.entry.RollbackIncomplete?
    ensures Spelled(PhaseOf([a, b, c]), [a, b, c], op)
  {
    hide PhaseOf;
    PhaseOfTwo(a, b);
    PhaseOfOneMore([a, b], c);
    assert [a, b] + [c] == [a, b, c];
  }

  lemma ExitIsPlain(code: ExitCode, op: string, h: Handoff, start: World, end: World)
    requires CrashSafe(op, h, start, end)
    requires var phase := Reached(start.journal, end.journal);
             if code.Raised? then !Final(phase) else Final(phase) && code == CodeOf(phase)
    ensures PlainExit(code, op, h, start, end)
  {
    var records := end.journal[|start.journal|..];
    assert end.journal == start.journal + records;
    if !code.Raised? {
      FinalMeansOneWord(records);
      WordsAreSpelled(records, op);
      hide PhaseOf, Word;
    }
  }

  class Switch {
    const opId: string
    const handoff: Handoff
    ghost const start: World
    var w: World
    var now: int
    /** Every world a crash could have left behind, oldest first. */
    ghost var history: seq<World>

    constructor (opId: string, handoff: Handoff, w: World)
      ensures this.opId == opId && this.handoff == handoff && start == w && this.w == w && history == [w]
    {
      this.opId, this.handoff, this.start, this.w := opId, handoff, w, w;
      now := 0;
      history := [w];
    }

    ghost predicate Safe() reads this {
      && history != [] && history[|history| - 1] == w
      && CrashSafe(opId, handoff, start, w)
      && forall v | v in history :: CrashSafe(opId, handoff, start, v)
    }

    ghost function Phase(): Phase reads this { Reached(start.journal, w.journal) }

    /** One more state a crash may find. */
    ghost method Expose()
      requires history != [] && forall v | v in history :: CrashSafe(opId, handoff, start, v)
      requires CrashSafe(opId, handoff, start, w)
      modifies this`history
      ensures Safe() && old(history) <= history
    {
      history := history + [w];
    }

    /** Time passes and anything outside the switcher happens. */
    method Elapse()
      requires Safe()
      modifies this`w, this`now, this`history
      ensures Safe() && Quiet(old(w), w) && now > old(now) && w.sightings == old(w).sightings
      ensures old(history) <= history
    {
      ghost var before := w;
      var survivors :| survivors <= w.alive;
      if w.alive != {} {
        var db: DbFile := *;
        w := w.(db := db);
      }
      w := w.(alive := survivors);
      var later :| later > now;
      now := later;
      QuietKeepsCrashSafe(opId, handoff, start, before, w);
      Expose();
    }

    /** Journal.append: durable before the action it announces, or no record when writing raises. */
    method Append(e: Entry) returns (ok: bool)
      requires Safe() && Promise(Advance(Phase(), e), handoff, start, w)
      modifies this`w, this`history
      ensures Safe() && old(history) <= history
      ensures ok ==> w == Logged(old(w), opId, e) && Phase() == Advance(old(Phase()), e)
      ensures !ok ==> w == old(w)
    {
      ok := *;
      if ok {
        LogKeepsCrashSafe(opId, handoff, start, w, e);
        w := Logged(w, opId, e);
        Expose();
      }
    }

    /** The flip of `current`, one atomic rename; it raises on a directory in its way. */
    method Flip(slot: string) returns (ok: bool)
      requires Safe() && slot in w.slots
      requires (Phase() == Flipping && slot == handoff.toSlot) || (Phase() == RollingBack && slot == handoff.fromSlot)
      modifies this`w, this`history
      ensures Safe() && old(history) <= history
      ensures w == if ok then old(w).(current := slot) else old(w)
    {
      ok := *;
      if ok {
        w := w.(current := slot);
        Expose();
      }
    }

    /** A detached server started through `current`; without its pid read back it may be running all the same. */
    method Spawn() returns (started: Option<nat>)
      requires Safe() && (Phase() == Flipping || Phase() == RollingBack)
      modifies this`w, this`history
      ensures Safe() && old(history) <= history
      ensures w == old(w).(alive := w.alive, boots := w.boots)
      ensures started.Some? ==>
                && w.alive == old(w).alive + {started.value} && started.value !in old(w).alive
                && w.boots == old(w).boots + [Boot(started.value, old(w).current, old(w).db)]
    {
      var pid := FreshPid(w.alive);
      var forked: bool, known: bool := *, *;
      if forked {
        w := w.(alive := w.alive + {pid}, boots := w.boots + [Boot(pid, w.current, w.db)]);
        Expose();
      }
      started := if forked && known then Some(pid) else None;
    }

    /** _wait_old_gone (with a pid) and _wait_port_free: poll until seen or past the deadline; nothing is signalled. */
    method WaitGone(pid: Option<nat>, timeout: int) returns (gone: bool)
      requires Safe()
      modifies this`w, this`now, this`history
      ensures Safe() && Quiet(old(w), w) && w.sightings == old(w).sightings && old(history) <= history
      ensures gone && pid.Some? ==> pid.value !in w.alive
    {
      hide CrashSafe;
      var deadline := now + timeout;
      while now < deadline
        invariant Safe() && Quiet(old(w), w) && w.sightings == old(w).sightings && old(history) <= history
        decreases deadline - now
      {
        var portFree: bool := *;
        if (pid.None? || pid.value !in w.alive) && portFree {
          return true;
        }
        Elapse();
      }
      gone := false;
    }

    /** _poll_health: None only after the process, seen alive, reported the wanted sha. */
    method PollHealth(pid: nat, wanted: string, timeout: int) returns (failure: Option<Reason>)
      requires Safe()
      modifies this`w, this`now, this`history
      ensures Safe() && Quiet(old(w), w) && old(history) <= history
      ensures failure.None? ==> Sighting(pid, wanted) in w.sightings
      ensures failure == Some(NewProcessExited) ==> pid !in w.alive
      ensures failure.Some? ==> w.sightings == old(w).sightings
    {
      hide CrashSafe;
      var deadline := now + timeout;
      while now < deadline
        invariant Safe() && Quiet(old(w), w) && w.sightings == old(w).sightings && old(history) <= history
        decreases deadline - now
      {
        if pid !in w.alive {
          return Some(NewProcessExited);
        }
        var answer: Option<string> := *;
        if answer == Some(wanted) {
          See(Sighting(pid, wanted));
          return None;
        }
        Elapse();
      }
      failure := Some(HealthTimeout);
    }

    method See(s: Sighting)
      requires Safe()
      modifies this`w, this`history
      ensures Safe() && w == old(w).(sightings := old(w).sightings + {s}) && old(history) <= history
    {
      QuietKeepsCrashSafe(opId, handoff, start, w, w.(sightings := w.sightings + {s}));
      w := w.(sightings := w.sightings + {s});
      Expose();
    }

    /** SIGTERM, then SIGKILL after the grace: a killed server runs no more code. Only ever used on the new server. */
    method Terminate(pid: nat, grace: int)
      requires Safe()
      modifies this`w, this`now, this`history
      ensures Safe() && Quiet(old(w), w) && w.sightings == old(w).sightings && old(history) <= history
      ensures pid !in w.alive
    {
      hide CrashSafe;
      var deadline := now + grace;
      while now < deadline && pid in w.alive
        invariant Safe() && Quiet(old(w), w) && w.sightings == old(w).sightings && old(history) <= history
        decreases deadline - now
      {
        Elapse();
      }
      QuietKeepsCrashSafe(opId, handoff, start, w, w.(alive := w.alive - {pid}));
      w := w.(alive := w.alive - {pid});
      Expose();
    }

    /**
      _restore_snapshot: a copy that may tear, then the sidecars; it may raise in between, the snapshot is only read.
     */
    method RestoreSnapshot() returns (ok: bool)
      requires Safe() && Phase() == RollingBack && w.current == handoff.fromSlot && w.snapshot.Some?
      modifies this`w, this`history
      ensures Safe() && old(history) <= history
      ensures w == old(w).(db := w.db, dbWrites := w.dbWrites)
      ensures ok ==> w.db == DbFile(Version(old(w).snapshot.value), false, false)
    {
      hide CrashSafe, Reached;
      var steps: nat := *;
      ok := false;
      if steps == 0 {
        return;
      }
      WriteDb(w.db.(content := Torn));
      if steps == 1 {
        return;
      }
      WriteDb(w.db.(content := Version(w.snapshot.value)));
      if steps == 2 {
        return;
      }
      WriteDb(w.db.(wal := false));
      if steps == 3 {
        return;
      }
      WriteDb(w.db.(shm := false));
      ok := true;
    }

    method WriteDb(db: DbFile)
      requires Safe() && Phase() == RollingBack && w.current == handoff.fromSlot
      modifies this`w, this`history
      ensures Safe() && w == old(w).(db := db, dbWrites := old(w).dbWrites + 1) && old(history) <= history
    {
      w := w.(db := db, dbWrites := w.dbWrites + 1);
      Expose();
    }

    /** The switch of an accepted handoff: wait, flip, spawn, health-check, and roll back when the check fails. */
    method Run(switchTimeout: int, healthTimeout: int, grace: int) returns (code: ExitCode)
      requires Safe() && w == start && Phase() == Waiting
      requires Acceptable(handoff) && w.current == handoff.fromSlot && w.alive <= {handoff.oldPid}
      modifies this`w, this`now, this`history
      ensures Safe() && old(history) <= history
      ensures if code.Raised? then !Final(Phase()) else Final(Phase()) && code == CodeOf(Phase())
      ensures Phase() == Stuck(PortNotFreed) ==> w.sightings == start.sightings
      ensures !code.Raised? ==>
                (Phase().Refused? <==>
                 handoff.toSlot !in start.slots || handoff.fromSlot !in start.slots || start.snapshot.None?)
    {
      hide CrashSafe, Reached;
      if handoff.toSlot !in w.slots || handoff.fromSlot !in w.slots || w.snapshot.None? {
        var refused := Append(SwitchError);
        return if refused then ExitError else Raised;
      }
      var gone := WaitGone(Some(handoff.oldPid), switchTimeout);
      if !gone {
        var told := Append(OldWontDie);
        return if told then ExitFailed else Raised;
      }
      var announced := Append(FlipDone);
      if !announced {
        return Raised;
      }
      code := FlipAndCheck(switchTimeout, healthTimeout, grace);
    }

    /** Steps 2 to 5, with nothing of the old server left. */
    method FlipAndCheck(switchTimeout: int, healthTimeout: int, grace: int) returns (code: ExitCode)
      requires Safe() && Phase() == Flipping && w.dbWrites == start.dbWrites && w.alive == {}
      requires {handoff.toSlot, handoff.fromSlot} <= w.slots && w.snapshot.Some?
      modifies this`w, this`now, this`history
      ensures Safe() && old(history) <= history
      ensures Phase() == Stuck(PortNotFreed) ==> w.sightings == old(w).sightings
      ensures if code.Raised? then Phase().Flipping? || Phase().RollingBack?
              else (Phase().Switched? || Phase().Restored? || Phase().Stuck?) && code == CodeOf(Phase())
    {
      hide CrashSafe, Reached;
      var flipped := Flip(handoff.toSlot);
      if !flipped {
        return Raised;
      }
      var newPid := Spawn();
      if newPid.None? {
        return Raised;
      }
      var reason := PollHealth(newPid.value, handoff.newSha, healthTimeout);
      if reason.None? {
        var done := Append(SwitchedOk(newPid.value));
        return if done then ExitOk else Raised;
      }
      var announced := Append(RollbackBegin);
      if !announced {
        return Raised;
      }
      code := RollBack(newPid.value, switchTimeout, healthTimeout, grace);
    }

    /** Step 6: every dimension of the rollback is checked, or it is reported incomplete. */
    method RollBack(newPid: nat, switchTimeout: int, healthTimeout: int, grace: int) returns (code: ExitCode)
      requires Safe() && Phase() == RollingBack && w.current == handoff.toSlot && w.dbWrites == start.dbWrites
      requires w.snapshot.Some? && {handoff.toSlot, handoff.fromSlot} <= w.slots && w.alive <= {newPid}
      modifies this`w, this`now, this`history
      ensures Safe() && old(history) <= history
      ensures Phase() == Stuck(PortNotFreed) ==> w.sightings == old(w).sightings
      ensures if code.Raised? then Phase().RollingBack? else (Phase().Restored? || Phase().Stuck?) && code == ExitFailed
    {
      hide CrashSafe, Reached;
      Terminate(newPid, grace);
      var freed := WaitGone(None, switchTimeout);
      if !freed {
        var told := Append(RollbackIncomplete(PortNotFreed));
        return if told then ExitFailed else Raised;
      }
      var oldPid := RestoreAndRestart();
      if oldPid.None? {
        return Raised;
      }
      var health := PollHealth(oldPid.value, handoff.oldSha, healthTimeout);
      var told := Append(if health.Some? then RollbackIncomplete(OldServerUnhealthy) else RolledBack(oldPid.value));
      code := if told then ExitFailed else Raised;
    }

    /** Back to the old slot and the snapshot, and the old server on it. */
    method RestoreAndRestart() returns (oldPid: Option<nat>)
      requires Safe() && Phase() == RollingBack && w.snapshot.Some? && handoff.fromSlot in w.slots && w.alive == {}
      modifies this`w, this`history
      ensures Safe() && old(history) <= history && Phase() == RollingBack && w.slots == old(w).slots
      ensures oldPid.Some? ==>
                w.current == handoff.fromSlot && BootedOnSnapshot(w, handoff.fromSlot) &&
                  w.boots[|w.boots| - 1].pid == oldPid.value
    {
      hide CrashSafe, Reached;
      var flipped := Flip(handoff.fromSlot);
      if !flipped {
        return None;
      }
      var restored := RestoreSnapshot();
      if !restored {
        return None;
      }
      oldPid := Spawn();
    }
  }

  method FreshPid(alive: set<nat>) returns (pid: nat)
    ensures pid !in alive
  {
    pid := 0;
    var rest := alive;
    while pid in rest
      invariant rest <= alive && forall p | p in alive && p !in rest :: p < pid
      decreases rest
    {
      rest := rest - {pid};
      pid := pid + 1;
    }
  }

  // ------------------------------------------------------------ reading the handoff

  predicate IsHandoff(r: Record, op: string) { r.opId == op && r.entry.HandedOff? }

  /** The detail of the last handoff record of the op. */
  function LastHandoff(records: seq<Record>, op: string): Option<Detail> {
    if records == [] then None
    else
      var last := records[|records| - 1];
      if last.opId == op && last.entry.HandedOff? then Some(last.entry.detail)
      else LastHandoff(records[..|records| - 1], op)
  }

  method ReadHandoff(records: seq<Record>, op: string) returns (detail: Option<Detail>)
    ensures detail == LastHandoff(records, op)
    ensures detail.None? <==> forall j | 0 <= j < |records| :: !IsHandoff(records[j], op)
    ensures detail.Some? ==>
              exists j | 0 <= j < |records| && IsHandoff(records[j], op) ::
                detail.value == records[j].entry.detail && forall i | j < i < |records| :: !IsHandoff(records[i], op)
  {
    detail := None;
    for k := 0 to |records|
      invariant detail == LastHandoff(records[..k], op)
      invariant detail.None? <==> forall j | 0 <= j < k :: !IsHandoff(records[j], op)
      invariant detail.Some? ==>
                  exists j | 0 <= j < k && IsHandoff(records[j], op) ::
                    detail.value == records[j].entry.detail && forall i | j < i < k :: !IsHandoff(records[i], op)
    {
      assert records[..k + 1][..k] == records[..k];
      if records[k].opId == op && records[k].entry.HandedOff? {
        detail := Some(records[k].entry.detail);
      }
    }
    assert records[..|records|] == records;
  }

  /** The contract the switch runs under, if the journal holds an acceptable one. */
  function Contract(w: World, op: string, casts: Casts): Option<Handoff> {
    var detail := LastHandoff(w.journal, op);
    if detail.None? then None else FromDetail(detail.value, casts)
  }

  /** run_switch: without an acceptable handoff, one switch_error record and nothing else. */
  method RunSwitch(op: string, world: World, casts: Casts, switchTimeout: int, healthTimeout: int, grace: int)
    returns (code: ExitCode, end: World, ghost history: seq<World>)
    requires var h := Contract(world, op, casts);
             h.Some? ==> world.current == h.value.fromSlot && world.alive <= {h.value.oldPid}
    ensures var h := Contract(world, op, casts);
            if h.None? then
              (code == ExitError && end == Logged(world, op, SwitchError)) || (code == Raised && end == world)
            else
              var phase := Reached(world.journal, end.journal);
              && CrashSafe(op, h.value, world, end)
              && (if code.Raised? then !Final(phase) else Final(phase) && code == CodeOf(phase))
              // In plain fields: what each exit code says about journal, slot, database and servers.
              && PlainExit(code, op, h.value, world, end)
              && (!code.Raised? && world.sightings == {} ==>
                    (code == ExitOk <==> end.current == h.value.toSlot && SeenWith(end, h.value.newSha)))
    ensures history != [] && history[0] == world && history[|history| - 1] == end
    ensures var h := Contract(world, op, casts);
            if h.None? then history in {[world, end], [world]}
            else forall v | v in history :: CrashSafe(op, h.value, world, v)
    ensures world.current in world.slots ==> forall v | v in history :: v.current in v.slots
  {
    hide CrashSafe, FromDetail, LastHandoff;
    var detail := ReadHandoff(world.journal, op);
    var accepted := if detail.None? then None else FromDetail(detail.value, casts);
    if accepted.None? {
      var written: bool := *;
      if !written {
        return Raised, world, [world];
      }
      end := Logged(world, op, SwitchError);
      return ExitError, end, [world, end];
    }
    StartIsSafe(op, accepted.value, world);
    var s := new Switch(op, accepted.value, world);
    code := s.Run(switchTimeout, healthTimeout, grace);
    end, history := s.w, s.history;
    ExitIsPlain(code, op, accepted.value, world, end);
    forall v | v in history && world.current in world.slots
      ensures v.current in v.slots
    {
      CurrentIsReal(op, accepted.value, world, v);
    }
  }

  lemma StartIsSafe(op: string, h: Handoff, w: World)
    ensures CrashSafe(op, h, w, w) && Reached(w.journal, w.journal) == Waiting
  {
  }
}
