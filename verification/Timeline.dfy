/** Merging the recorded events of a session into one timeline with gap markers (server/replay.py). */
module Timeline {
  import opened Base

  /** A created_at column: missing, there but not a timestamp, or an instant in microseconds. */
  datatype Stamp = Absent | Unreadable | At(time: int)

  datatype Event = Event(id: int, stamp: Stamp, seqNo: Option<int>)

  datatype Item = Shown(event: Event) | Gap(duration: int, before: Event, after: Event)

  predicate IsAbsent(e: Event) { e.stamp.Absent? }
  predicate IsStamped(e: Event) { !e.stamp.Absent? }
  predicate IsTimed(e: Event) { e.stamp.At? }
  predicate IsUnreadable(e: Event) { e.stamp.Unreadable? }
  predicate IsUntimed(e: Event) { !e.stamp.At? }

  function Select(s: seq<Event>, keep: Event -> bool): (r: seq<Event>)
    ensures forall e | e in r :: keep(e)
  {
    if s == [] then [] else Select(s[..|s| - 1], keep) + if keep(s[|s| - 1]) then [s[|s| - 1]] else []
  }

  // ------------------------------------------------------------ the three-way partition

  function PrefixLength(messages: seq<Event>): (n: nat)
    ensures n <= |messages|
    ensures forall k | 0 <= k < n :: messages[k].stamp.Absent?
    ensures n < |messages| ==> !messages[n].stamp.Absent?
  {
    if messages == [] || !messages[0].stamp.Absent? then 0 else 1 + PrefixLength(messages[1..])
  }

  lemma {:induction false} PrefixGrows(messages: seq<Event>, m: Event)
    ensures PrefixLength(messages + [m]) ==
            PrefixLength(messages) + if PrefixLength(messages) == |messages| && m.stamp.Absent? then 1 else 0
  {
    if messages != [] && messages[0].stamp.Absent? {
      assert (messages + [m])[1..] == messages[1..] + [m];
      PrefixGrows(messages[1..], m);
    }
  }

  datatype Parts = Parts(prefix: seq<Event>, anomalies: seq<Event>, timed: seq<Event>)

  function PartsOf(messages: seq<Event>): Parts {
    if messages == [] then Parts([], [], [])
    else
      var p, m := PartsOf(messages[..|messages| - 1]), messages[|messages| - 1];
      if !m.stamp.Absent? then p.(timed := p.timed + [m])
      else if p.timed == [] then p.(prefix := p.prefix + [m])
      else p.(anomalies := p.anomalies + [m])
  }

  /** Leading messages from before timestamps were kept, later ones without a timestamp, and the rest. */
  method Partition(messages: seq<Event>) returns (prefix: seq<Event>, anomalies: seq<Event>, timed: seq<Event>)
    ensures prefix == messages[..PrefixLength(messages)]
    ensures anomalies == Select(messages[PrefixLength(messages)..], IsAbsent)
    ensures timed == Select(messages, IsStamped)
  {
    prefix, anomalies, timed := [], [], [];
    var inPrefix := true;
    for k := 0 to |messages|
      invariant inPrefix <==> timed == []
      invariant Parts(prefix, anomalies, timed) == PartsOf(messages[..k])
    {
      assert messages[..k + 1][..k] == messages[..k];
      if !messages[k].stamp.Absent? {
        inPrefix := false;
        timed := timed + [messages[k]];
      } else if inPrefix {
        prefix := prefix + [messages[k]];
      } else {
        anomalies := anomalies + [messages[k]];
      }
    }
    assert messages[..|messages|] == messages;
    PartsMean(messages);
  }

  lemma {:induction false} PartsMean(messages: seq<Event>)
    ensures var n := PrefixLength(messages);
            PartsOf(messages) == Parts(messages[..n], Select(messages[n..], IsAbsent), Select(messages, IsStamped))
    ensures Select(messages, IsStamped) == [] <==> PrefixLength(messages) == |messages|
  {
    assert PrefixLength([]) == 0 && Select([], IsAbsent) == [] && Select([], IsStamped) == [];
    hide Select, PrefixLength, IsAbsent, IsStamped;
    if messages != [] {
      var k := |messages| - 1;
      var n := PrefixLength(messages[..k]);
      PartsMean(messages[..k]);
      PartitionStep(messages, k);
      assert messages[..k + 1] == messages;
      assert messages[..k][..n] == messages[..n] && messages[..k][n..] == messages[n..k];
    }
  }

  lemma PartitionStep(messages: seq<Event>, k: nat)
    requires k < |messages|
    ensures var n, m := PrefixLength(messages[..k]), messages[k];
            var n' := PrefixLength(messages[..k + 1]);
            && n' == n + (if n == k && m.stamp.Absent? then 1 else 0)
            && messages[..n'] == messages[..n] + (if n' > n then [m] else [])
            && Select(messages[..k + 1], IsStamped) ==
               Select(messages[..k], IsStamped) + (if m.stamp.Absent? then [] else [m])
            && Select(messages[n'..k + 1], IsAbsent) ==
               Select(messages[n..k], IsAbsent) + (if m.stamp.Absent? && n' == n then [m] else [])
  {
    var n := PrefixLength(messages[..k]);
    assert messages[..k + 1] == messages[..k] + [messages[k]];
    PrefixGrows(messages[..k], messages[k]);
    hide PrefixLength;
    assert messages[..k + 1][..k] == messages[..k];
    assert messages[n..k + 1][..k - n] == messages[n..k];
  }

  // ------------------------------------------------------------ the stable sort

  datatype Key = Key(time: int, seqNo: int)

  /** What the sort compares: the instant, then the sequence number, -1 when there is none. */
  function KeyOf(e: Event): Key
    requires IsTimed(e)
  {
    Key(e.stamp.time, if e.seqNo.Some? then e.seqNo.value else -1)
  }

  predicate Le(a: Key, b: Key) {
    a.time < b.time || (a.time == b.time && a.seqNo <= b.seqNo)
  }

  predicate AllTimed(s: seq<Event>) { forall e | e in s :: IsTimed(e) }

  ghost predicate Sorted(s: seq<Event>)
    requires AllTimed(s)
  {
    forall i, j | 0 <= i < j < |s| :: Le(KeyOf(s[i]), KeyOf(s[j]))
  }

  function WithKey(s: seq<Event>, k: Key): seq<Event>
    requires AllTimed(s)
  {
    if s == [] then []
    else
      var last := s[|s| - 1];
      assert last in s;
      WithKey(s[..|s| - 1], k) + if KeyOf(last) == k then [last] else []
  }

  /** Sorted, with the events of each key exactly those of the input and in the input's order. */
  ghost predicate IsStableSort(input: seq<Event>, output: seq<Event>) {
    && AllTimed(input) && AllTimed(output) && Sorted(output)
    && forall k :: WithKey(output, k) == WithKey(input, k)
  }

  function Insert(s: seq<Event>, e: Event): (r: seq<Event>)
    requires AllTimed(s) && IsTimed(e)
    ensures AllTimed(r)
  {
    if s == [] || Le(KeyOf(s[|s| - 1]), KeyOf(e)) then s + [e]
    else Insert(s[..|s| - 1], e) + [s[|s| - 1]]
  }

  function Sort(s: seq<Event>): (r: seq<Event>)
    requires AllTimed(s)
    ensures AllTimed(r)
  {
    if s == [] then [] else Insert(Sort(s[..|s| - 1]), s[|s| - 1])
  }

  lemma {:induction false} InsertElements(s: seq<Event>, e: Event)
    requires AllTimed(s) && IsTimed(e)
    ensures forall x | x in Insert(s, e) :: x == e || x in s
  {
    if s != [] && !Le(KeyOf(s[|s| - 1]), KeyOf(e)) {
      InsertElements(s[..|s| - 1], e);
    }
  }

  lemma {:induction false} InsertKeepsSorted(s: seq<Event>, e: Event)
    requires AllTimed(s) && IsTimed(e) && Sorted(s)
    ensures Sorted(Insert(s, e))
  {
    if s != [] && !Le(KeyOf(s[|s| - 1]), KeyOf(e)) {
      var init, last := s[..|s| - 1], s[|s| - 1];
      InsertKeepsSorted(init, e);
      InsertElements(init, e);
      var r := Insert(init, e);
      forall i | 0 <= i < |r|
        ensures Le(KeyOf(r[i]), KeyOf(last))
      {
        assert r[i] in r;
      }
    }
  }

  lemma {:induction false} InsertIsStable(s: seq<Event>, e: Event, k: Key)
    requires AllTimed(s) && IsTimed(e) && Sorted(s)
    ensures WithKey(Insert(s, e), k) == WithKey(s, k) + if KeyOf(e) == k then [e] else []
  {
    if s == [] || Le(KeyOf(s[|s| - 1]), KeyOf(e)) {
      assert (s + [e])[..|s|] == s;
    } else {
      var init, last := s[..|s| - 1], s[|s| - 1];
      InsertIsStable(init, e, k);
      var r := Insert(init, e);
      assert (r + [last])[..|r|] == r;
    }
  }

  lemma {:induction false} SortIsStable(s: seq<Event>)
    requires AllTimed(s)
    ensures IsStableSort(s, Sort(s))
  {
    if s != [] {
      var init, last := s[..|s| - 1], s[|s| - 1];
      SortIsStable(init);
      InsertKeepsSorted(Sort(init), last);
      forall k
        ensures WithKey(Sort(s), k) == WithKey(s, k)
      {
        InsertIsStable(Sort(init), last, k);
      }
    }
  }

  lemma {:induction false} WithKeyMembers(s: seq<Event>, k: Key)
    requires AllTimed(s)
    ensures forall e | e in WithKey(s, k) :: e in s && KeyOf(e) == k
  {
    if s != [] {
      WithKeyMembers(s[..|s| - 1], k);
    }
  }

  /** Sorted sequences end in their greatest key, so equal keys agree at the end. */
  lemma LastKeyIsGreatest(a: seq<Event>, b: seq<Event>)
    requires AllTimed(a) && AllTimed(b) && Sorted(b) && a != []
    requires forall k :: WithKey(a, k) == WithKey(b, k)
    ensures b != [] && Le(KeyOf(a[|a| - 1]), KeyOf(b[|b| - 1]))
  {
    var k := KeyOf(a[|a| - 1]);
    assert WithKey(a, k) != [];
    WithKeyMembers(b, k);
    var e := WithKey(b, k)[0];
    assert e in WithKey(b, k);
    var i :| 0 <= i < |b| && b[i] == e;
  }

  /** There is only one stable sort. */
  lemma {:induction false} StableSortIsUnique(a: seq<Event>, b: seq<Event>)
    requires AllTimed(a) && AllTimed(b) && Sorted(a) && Sorted(b)
    requires forall k :: WithKey(a, k) == WithKey(b, k)
    ensures a == b
  {
    if a == [] || b == [] {
      if a != [] {
        LastKeyIsGreatest(a, b);
      } else if b != [] {
        LastKeyIsGreatest(b, a);
      }
    } else {
      LastKeyIsGreatest(a, b);
      LastKeyIsGreatest(b, a);
      var k := KeyOf(a[|a| - 1]);
      assert WithKey(a, k) == WithKey(b, k);
      assert a[|a| - 1] == WithKey(a, k)[|WithKey(a, k)| - 1];
      var initA, initB := a[..|a| - 1], b[..|b| - 1];
      forall q
        ensures WithKey(initA, q) == WithKey(initB, q)
      {
        assert WithKey(a, q) == WithKey(b, q);
        assert WithKey(a, q)[..|WithKey(initA, q)|] == WithKey(initA, q);
        assert WithKey(b, q)[..|WithKey(initB, q)|] == WithKey(initB, q);
      }
      StableSortIsUnique(initA, initB);
    }
  }

  /** Earlier events come first; at one instant lower numbers do, and unnumbered events before numbered ones. */
  lemma ReadsInOrder(input: seq<Event>, output: seq<Event>, i: nat, j: nat)
    requires IsStableSort(input, output) && i < |output| && j < |output|
    ensures output[i].stamp.At? && output[j].stamp.At?
    ensures output[i].stamp.time < output[j].stamp.time ==> i < j
    ensures output[i].stamp == output[j].stamp && output[j].seqNo.Some? && output[j].seqNo.value >= 0 ==>
              (output[i].seqNo.None? || output[i].seqNo.value < output[j].seqNo.value ==> i < j)
  {
    assert output[i] in output && output[j] in output;
    if j < i {
      assert Le(KeyOf(output[j]), KeyOf(output[i]));
    }
  }

  // ------------------------------------------------------------ gap markers

  function Delta(a: Event, b: Event): int
    requires IsTimed(a) && IsTimed(b)
  {
    b.stamp.time - a.stamp.time
  }

  /** The last timed event so far, which the next one is measured from. */
  function LastTimed(events: seq<Event>): (last: Option<Event>)
    ensures last.Some? ==> IsTimed(last.value)
  {
    if events == [] then None
    else if IsTimed(events[|events| - 1]) then Some(events[|events| - 1])
    else LastTimed(events[..|events| - 1])
  }

  function GapBefore(prev: Option<Event>, e: Event, threshold: int): seq<Item>
    requires prev.Some? ==> IsTimed(prev.value)
  {
    if prev.Some? && IsTimed(e) && Delta(prev.value, e) > threshold then [Gap(Delta(prev.value, e), prev.value, e)]
    else []
  }

  function WithGaps(events: seq<Event>, threshold: int): seq<Item> {
    if events == [] then []
    else
      var init, last := events[..|events| - 1], events[|events| - 1];
      WithGaps(init, threshold) + GapBefore(LastTimed(init), last, threshold) + [Shown(last)]
  }

  /** _insert_gaps. */
  method InsertGaps(events: seq<Event>, threshold: int) returns (out: seq<Item>)
    ensures out == WithGaps(events, threshold)
  {
    out := [];
    var prev: Option<Event> := None;
    for k := 0 to |events|
      invariant out == WithGaps(events[..k], threshold)
      invariant prev == LastTimed(events[..k])
    {
      var e := events[k];
      assert events[..k + 1][..k] == events[..k];
      if prev.Some? && e.stamp.At? {
        var delta := e.stamp.time - prev.value.stamp.time;
        if delta > threshold {
          out := out + [Gap(delta, prev.value, e)];
        }
      }
      out := out + [Shown(e)];
      if e.stamp.At? {
        prev := Some(e);
      }
    }
    assert events[..|events|] == events;
  }

  function Erase(items: seq<Item>): seq<Event> {
    if items == [] then []
    else Erase(items[..|items| - 1]) + if items[|items| - 1].Shown? then [items[|items| - 1].event] else []
  }

  lemma EraseAppend(items: seq<Item>, i: Item)
    ensures Erase(items + [i]) == Erase(items) + if i.Shown? then [i.event] else []
  {
  }

  /** Taking the markers out again gives the events, whatever their stamps. */
  lemma {:induction false} ErasingGapsRestores(events: seq<Event>, threshold: int)
    ensures Erase(WithGaps(events, threshold)) == events
  {
    if events == [] {
    } else {
      hide Erase, LastTimed, IsTimed, Delta;
      var init, last := events[..|events| - 1], events[|events| - 1];
      ErasingGapsRestores(init, threshold);
      var before := WithGaps(init, threshold);
      var gap := GapBefore(LastTimed(init), last, threshold);
      if gap != [] {
        EraseAppend(before, gap[0]);
        assert before + gap == before + [gap[0]];
      } else {
        assert before + gap == before;
      }
      EraseAppend(before + gap, Shown(last));
    }
  }

  /** Every marker stands between the two events it names, and stands wherever two neighbours are too far apart. */
  ghost predicate GapsExact(items: seq<Item>, threshold: int) {
    && (forall j | 0 <= j < |items| && items[j].Gap? ::
          && 0 < j < |items| - 1
          && items[j - 1] == Shown(items[j].before) && items[j + 1] == Shown(items[j].after)
          && IsTimed(items[j].before) && IsTimed(items[j].after)
          && items[j].duration == Delta(items[j].before, items[j].after) > threshold)
    && (forall j | 0 < j < |items| && items[j - 1].Shown? && items[j].Shown? ::
          IsTimed(items[j - 1].event) && IsTimed(items[j].event) ==>
            Delta(items[j - 1].event, items[j].event) <= threshold)
  }

  lemma {:induction false} GapsAreExact(events: seq<Event>, threshold: int)
    requires AllTimed(events)
    ensures GapsExact(WithGaps(events, threshold), threshold)
    ensures events != [] ==> WithGaps(events, threshold) != [] &&
                             WithGaps(events, threshold)[|WithGaps(events, threshold)| - 1] ==
                               Shown(events[|events| - 1])
  {
    if events != [] {
      var init, last := events[..|events| - 1], events[|events| - 1];
      assert last in events;
      GapsAreExact(init, threshold);
      if init != [] {
        assert init[|init| - 1] in events;
        assert LastTimed(init) == Some(init[|init| - 1]);
      }
      assert WithGaps(events, threshold) ==
             WithGaps(init, threshold) + GapBefore(LastTimed(init), last, threshold) + [Shown(last)];
      assert init == [] ==> WithGaps(init, threshold) == [] && LastTimed(init) == None;
      hide WithGaps, LastTimed, GapBefore, GapsExact;
      GapsOneMore(WithGaps(init, threshold), LastTimed(init), last, threshold);
    }
  }

  lemma GapsOneMore(before: seq<Item>, prev: Option<Event>, e: Event, threshold: int)
    requires IsTimed(e) && GapsExact(before, threshold)
    requires if prev.None? then before == []
             else IsTimed(prev.value) && before != [] && before[|before| - 1] == Shown(prev.value)
    ensures GapsExact(before + GapBefore(prev, e, threshold) + [Shown(e)], threshold)
  {
    if prev.Some? && Delta(prev.value, e) > threshold {
      MarkerThenEvent(before, prev.value, e, threshold);
      var gap := Gap(Delta(prev.value, e), prev.value, e);
      assert before + [gap] + [Shown(e)] == before + [gap, Shown(e)];
    } else {
      assert before + [] == before;
    }
  }

  lemma MarkerThenEvent(before: seq<Item>, prev: Event, e: Event, threshold: int)
    requires IsTimed(prev) && IsTimed(e) && Delta(prev, e) > threshold && GapsExact(before, threshold)
    requires before != [] && before[|before| - 1] == Shown(prev)
    ensures GapsExact(before + [Gap(Delta(prev, e), prev, e), Shown(e)], threshold)
  {
  }

  // ------------------------------------------------------------ the whole timeline

  method ParseAll(events: seq<Event>) returns (parsed: seq<Event>)
    ensures parsed == Select(events, IsTimed)
  {
    parsed := [];
    for k := 0 to |events|
      invariant parsed == Select(events[..k], IsTimed)
    {
      assert events[..k + 1][..k] == events[..k];
      if events[k].stamp.At? {
        parsed := parsed + [events[k]];
      }
    }
    assert events[..|events|] == events;
  }

  /** assemble_session_replay, from the messages in sequence order and the events of the other tables. */
  method Assemble(messages: seq<Event>, others: seq<Event>, threshold: int)
    returns (prefix: seq<Event>, anomalies: seq<Event>, timeline: seq<Item>)
    ensures prefix == messages[..PrefixLength(messages)]
    ensures anomalies == Select(messages[PrefixLength(messages)..], IsAbsent)
    ensures IsStableSort(Select(Select(messages, IsStamped) + others, IsTimed), Erase(timeline))
    ensures GapsExact(timeline, threshold)
  {
    var timed;
    prefix, anomalies, timed := Partition(messages);
    var parsed := ParseAll(timed + others);
    var sorted := Sort(parsed);
    timeline := InsertGaps(sorted, threshold);
    SortIsStable(parsed);
    ErasingGapsRestores(sorted, threshold);
    GapsAreExact(sorted, threshold);
  }

  // ------------------------------------------------------------ nothing lost, nothing invented

  lemma {:induction false} SelectConcat(a: seq<Event>, b: seq<Event>, keep: Event -> bool)
    ensures Select(a + b, keep) == Select(a, keep) + Select(b, keep)
  {
    if b == [] {
      assert a + b == a;
    } else {
      assert (a + b)[..|a + b| - 1] == a + b[..|b| - 1];
      SelectConcat(a, b[..|b| - 1], keep);
    }
  }

  lemma SelectStep(s: seq<Event>, keep: Event -> bool)
    requires s != []
    ensures Select(s, keep) == Select(s[..|s| - 1], keep) + if keep(s[|s| - 1]) then [s[|s| - 1]] else []
  {
  }

  lemma {:induction false} SelectSplits(s: seq<Event>, keep: Event -> bool, rest: Event -> bool)
    requires forall e :: keep(e) <==> !rest(e)
    ensures multiset(s) == multiset(Select(s, keep)) + multiset(Select(s, rest))
  {
    assert Select([], keep) == [] && Select([], rest) == [];
    hide Select;
    if s != [] {
      var init, last := s[..|s| - 1], s[|s| - 1];
      SelectSplits(init, keep, rest);
      SelectStep(s, keep);
      SelectStep(s, rest);
      assert s == init + [last];
      if keep(last) {
        assert Select(s, rest) == Select(init, rest) + [];
      } else {
        assert Select(s, keep) == Select(init, keep) + [];
      }
    }
  }

  lemma {:induction false} SelectTwice(s: seq<Event>, first: Event -> bool, second: Event -> bool, both: Event -> bool)
    requires forall e :: both(e) <==> first(e) && second(e)
    ensures Select(Select(s, first), second) == Select(s, both)
  {
    if s != [] {
      var init, last := s[..|s| - 1], s[|s| - 1];
      SelectTwice(init, first, second, both);
      SelectConcat(Select(init, first), if first(last) then [last] else [], second);
      assert [last][..0] == [];
    }
  }

  lemma {:induction false} SelectNone(s: seq<Event>, keep: Event -> bool)
    requires forall e | e in s :: !keep(e)
    ensures Select(s, keep) == []
  {
    if s != [] {
      SelectNone(s[..|s| - 1], keep);
    }
  }

  lemma {:induction false} InsertPermutes(s: seq<Event>, e: Event)
    requires AllTimed(s) && IsTimed(e)
    ensures multiset(Insert(s, e)) == multiset(s) + multiset{e}
  {
    if s != [] && !Le(KeyOf(s[|s| - 1]), KeyOf(e)) {
      InsertPermutes(s[..|s| - 1], e);
      assert s == s[..|s| - 1] + [s[|s| - 1]];
    }
  }

  lemma {:induction false} SortPermutes(s: seq<Event>)
    requires AllTimed(s)
    ensures multiset(Sort(s)) == multiset(s)
  {
    if s != [] {
      SortPermutes(s[..|s| - 1]);
      InsertPermutes(Sort(s[..|s| - 1]), s[|s| - 1]);
      assert s == s[..|s| - 1] + [s[|s| - 1]];
      hide Insert, IsTimed;
    }
  }

  lemma StableSortPermutes(input: seq<Event>, output: seq<Event>)
    requires IsStableSort(input, output)
    ensures multiset(output) == multiset(input)
  {
    SortIsStable(input);
    StableSortIsUnique(output, Sort(input));
    SortPermutes(input);
  }

  lemma MessagesPartition(messages: seq<Event>)
    ensures var n := PrefixLength(messages);
            multiset(messages) == multiset(messages[..n]) + multiset(Select(messages[n..], IsAbsent)) +
                                  multiset(Select(messages, IsTimed)) + multiset(Select(messages, IsUnreadable))
  {
    hide *;
    var n := PrefixLength(messages);
    StampedComeAfterPrefix(messages);
    assert messages == messages[..n] + messages[n..];
    StampedAreTimedOrUnreadable(messages);
  }

  lemma StampedComeAfterPrefix(messages: seq<Event>)
    ensures var n := PrefixLength(messages);
            multiset(messages[n..]) == multiset(Select(messages[n..], IsAbsent)) + multiset(Select(messages, IsStamped))
  {
    hide Select;
    var n := PrefixLength(messages);
    var head, tail := messages[..n], messages[n..];
    assert messages == head + tail;
    SelectSplits(tail, IsAbsent, IsStamped);
    SelectConcat(head, tail, IsStamped);
    SelectNone(head, IsStamped);
    assert Select(messages, IsStamped) == Select(tail, IsStamped);
  }

  lemma StampedAreTimedOrUnreadable(messages: seq<Event>)
    ensures multiset(Select(messages, IsStamped)) ==
            multiset(Select(messages, IsTimed)) + multiset(Select(messages, IsUnreadable))
  {
  }

  /**
    Everything recorded is shown exactly once, except messages whose timestamp is there but cannot be read,
    and events of the other tables without a readable one.
   */
  lemma NothingElseIsLost(
    messages: seq<Event>, others: seq<Event>, prefix: seq<Event>, anomalies: seq<Event>, timeline: seq<Item>)
    requires prefix == messages[..PrefixLength(messages)]
    requires anomalies == Select(messages[PrefixLength(messages)..], IsAbsent)
    requires IsStableSort(Select(Select(messages, IsStamped) + others, IsTimed), Erase(timeline))
    ensures multiset(messages) + multiset(others) ==
            multiset(prefix) + multiset(anomalies) + multiset(Erase(timeline)) +
            multiset(Select(messages, IsUnreadable)) + multiset(Select(others, IsUntimed))
  {
    StableSortPermutes(Select(Select(messages, IsStamped) + others, IsTimed), Erase(timeline));
    SelectConcat(Select(messages, IsStamped), others, IsTimed);
    SelectTwice(messages, IsStamped, IsTimed, IsTimed);
    SelectSplits(others, IsTimed, IsUntimed);
    MessagesPartition(messages);
  }
}
