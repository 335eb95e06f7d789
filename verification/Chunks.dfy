/**
  Splitting a long reply for delivery (server/bridges/feishu.py): never over the limit, at a line end when one is
  near.
 */
module Chunks {

  /** Position of the last newline before `end`, or -1. */
  function LastNewline(text: string, end: nat): (at: int)
    requires end <= |text|
    ensures -1 <= at < end
    ensures at >= 0 ==> text[at] == '\n'
  {
    if end == 0 then -1 else if text[end - 1] == '\n' then end - 1 else LastNewline(text, end - 1)
  }

  lemma {:induction false} NoneIsLater(text: string, end: nat, k: nat)
    requires end <= |text| && LastNewline(text, end) < k < end
    ensures text[k] != '\n'
    decreases end
  {
    if k < end - 1 {
      NoneIsLater(text, end - 1, k);
    }
  }

  /** str.lstrip of newlines. */
  function StripNewlines(text: string): (rest: string)
    ensures |rest| <= |text| && (text != "" && text[0] == '\n' ==> |rest| < |text|)
    ensures rest != "" ==> rest[0] != '\n'
  {
    if text != "" && text[0] == '\n' then StripNewlines(text[1..]) else text
  }

  function CutAt(text: string, limit: nat): (cut: nat)
    requires 1 <= limit < |text|
    ensures limit / 2 <= cut <= limit
    ensures cut < limit ==> text[cut] == '\n'
  {
    var at := LastNewline(text, limit);
    if at == -1 || at < limit / 2 then limit else at
  }

  /** A chunk and the number of newlines dropped after it. */
  datatype Piece = Piece(chunk: string, dropped: nat)

  function Rest(text: string, limit: nat): (rest: string)
    requires 1 <= limit < |text|
    ensures |rest| < |text|
  {
    var cut := CutAt(text, limit);
    StripNewlines(text[cut..])
  }

  /** The pieces the loop cuts off, one after the other. */
  function Split(text: string, limit: nat): seq<Piece>
    requires limit >= 1
    decreases |text|
  {
    if |text| <= limit then [Piece(text, 0)]
    else
      var rest := Rest(text, limit);
      var cut := CutAt(text, limit);
      [Piece(text[..cut], |text| - cut - |rest|)] + if rest == "" then [] else Split(rest, limit)
  }

  function ChunksOf(pieces: seq<Piece>): (chunks: seq<string>)
    ensures |chunks| == |pieces|
    ensures forall k | 0 <= k < |pieces| :: chunks[k] == pieces[k].chunk
  {
    if pieces == [] then [] else [pieces[0].chunk] + ChunksOf(pieces[1..])
  }

  function ChunksLeft(text: string, limit: nat): seq<string>
    requires limit >= 1
  {
    if text == "" then [] else ChunksOf(Split(text, limit))
  }

  lemma NextChunk(text: string, limit: nat)
    requires 1 <= limit < |text|
    ensures ChunksLeft(text, limit) == [text[..CutAt(text, limit)]] + ChunksLeft(Rest(text, limit), limit)
  {
  }

  lemma LastChunk(text: string, limit: nat)
    requires limit >= 1 && 0 < |text| <= limit
    ensures ChunksLeft(text, limit) == [text]
  {
  }

  /** _split_chars. */
  method SplitChars(text: string, limit: nat) returns (chunks: seq<string>)
    requires limit >= 1
    ensures chunks == ChunksOf(Split(text, limit))
  {
    if |text| <= limit {
      return [text];
    }
    hide ChunksOf, Split, LastNewline, StripNewlines;
    assert ChunksLeft(text, limit) == ChunksOf(Split(text, limit));
    hide ChunksLeft;
    chunks := [];
    var left := text;
    while left != ""
      invariant chunks + ChunksLeft(left, limit) == ChunksLeft(text, limit)
      decreases |left|
    {
      if |left| <= limit {
        LastChunk(left, limit);
        chunks := chunks + [left];
        return;
      }
      NextChunk(left, limit);
      var splitAt := LastNewline(left, limit);
      if splitAt == -1 || splitAt < limit / 2 {
        splitAt := limit;
      }
      Grouped(chunks, [left[..splitAt]], ChunksLeft(Rest(left, limit), limit));
      chunks := chunks + [left[..splitAt]];
      left := StripNewlines(left[splitAt..]);
    }
  }

  lemma Grouped<T>(a: seq<T>, b: seq<T>, c: seq<T>)
    ensures a + (b + c) == a + b + c
  {
  }

  // ------------------------------------------------------------ what the pieces are

  function Newlines(n: nat): (s: string)
    ensures |s| == n
  {
    if n == 0 then "" else "\n" + Newlines(n - 1)
  }

  function Joined(pieces: seq<Piece>): string {
    if pieces == [] then "" else pieces[0].chunk + Newlines(pieces[0].dropped) + Joined(pieces[1..])
  }

  lemma SplitStep(text: string, limit: nat)
    requires 1 <= limit < |text|
    ensures var cut, rest := CutAt(text, limit), Rest(text, limit);
            Split(text, limit) ==
            [Piece(text[..cut], |text| - cut - |rest|)] + if rest == "" then [] else Split(rest, limit)
  {
    hide CutAt, Rest;
  }

  lemma {:induction false} DroppedAreNewlines(tail: string, rest: string)
    requires rest == StripNewlines(tail)
    ensures tail == Newlines(|tail| - |rest|) + rest
  {
    if tail != "" && tail[0] == '\n' {
      DroppedAreNewlines(tail[1..], rest);
      Grouped("\n", Newlines(|tail| - 1 - |rest|), rest);
    }
  }

  lemma FirstPiece(text: string, limit: nat)
    requires 1 <= limit < |text|
    ensures var cut, rest := CutAt(text, limit), Rest(text, limit);
            var p := Piece(text[..cut], |text| - cut - |rest|);
            && Split(text, limit) == [p] + (if rest == "" then [] else Split(rest, limit))
            && limit / 2 <= |p.chunk| <= limit && (|p.chunk| < limit ==> p.dropped > 0)
            && (rest != "" ==> rest[0] != '\n')
            && text == p.chunk + Newlines(p.dropped) + rest
  {
    SplitStep(text, limit);
    var cut, rest := CutAt(text, limit), Rest(text, limit);
    hide Split, CutAt, LastNewline, StripNewlines, Newlines;
    var tail := text[cut..];
    assert rest == StripNewlines(tail);
    hide Rest;
    assert tail[0] == text[cut];
    DroppedAreNewlines(tail, rest);
    assert text == text[..cut] + tail;
    Grouped(text[..cut], Newlines(|text| - cut - |rest|), rest);
  }

  lemma FirstIsPrefix(text: string, limit: nat)
    requires limit >= 1
    ensures var pieces := Split(text, limit);
            pieces != [] && pieces[0].chunk <= text && (|text| <= limit ==> pieces == [Piece(text, 0)])
  {
  }

  lemma JoinedStep(p: Piece, more: seq<Piece>)
    ensures Joined([p] + more) == p.chunk + Newlines(p.dropped) + Joined(more)
  {
  }

  /** Only newlines between chunks are dropped: put back, they give the text. */
  lemma {:induction false} SplitLosesOnlyNewlines(text: string, limit: nat)
    requires limit >= 1
    ensures Joined(Split(text, limit)) == text
    decreases |text|
  {
    assert Joined([]) == "" && Newlines(0) == "";
    FirstIsPrefix(text, limit);
    hide Split, CutAt, Rest, Joined, Newlines;
    if |text| <= limit {
      JoinedStep(Piece(text, 0), []);
      assert [Piece(text, 0)] + [] == [Piece(text, 0)];
    } else {
      var cut, rest := CutAt(text, limit), Rest(text, limit);
      FirstPiece(text, limit);
      JoinedStep(Piece(text[..cut], |text| - cut - |rest|), if rest == "" then [] else Split(rest, limit));
      if rest != "" {
        SplitLosesOnlyNewlines(rest, limit);
      }
    }
  }

  /** No line end between the cut and the limit was passed over, unless it would leave less than half. */
  lemma CutIsLatest(text: string, limit: nat, k: nat)
    requires 1 <= limit < |text| && limit / 2 <= k < limit && text[k] == '\n'
    ensures k <= CutAt(text, limit) < limit
  {
    if LastNewline(text, limit) < k {
      NoneIsLater(text, limit, k);
    }
  }

  /** Every chunk fits; all but the last are at least half the limit, and short ones stop at a line end. */
  ghost predicate Fits(pieces: seq<Piece>, limit: nat) {
    && (forall k | 0 <= k < |pieces| :: |pieces[k].chunk| <= limit)
    && (forall k | 0 <= k < |pieces| - 1 :: limit / 2 <= |pieces[k].chunk|)
    && (forall k | 0 <= k < |pieces| - 1 :: |pieces[k].chunk| < limit ==> pieces[k].dropped > 0)
    && (forall k | 0 < k < |pieces| :: pieces[k].chunk != "" ==> pieces[k].chunk[0] != '\n')
  }

  lemma FitsOneMore(p: Piece, more: seq<Piece>, limit: nat)
    requires Fits(more, limit) && |p.chunk| <= limit
    requires more != [] ==>
               && limit / 2 <= |p.chunk| && (|p.chunk| < limit ==> p.dropped > 0)
               && (more[0].chunk != "" ==> more[0].chunk[0] != '\n')
    ensures Fits([p] + more, limit)
  {
  }

  lemma {:induction false} ChunksFit(text: string, limit: nat)
    requires limit >= 1
    ensures Split(text, limit) != [] && Fits(Split(text, limit), limit)
    decreases |text|
  {
    FirstIsPrefix(text, limit);
    assert |text| <= limit ==> Fits([Piece(text, 0)], limit);
    assert Fits([], limit);
    hide Split, CutAt, Rest, Fits, Newlines;
    if |text| > limit {
      var cut, rest := CutAt(text, limit), Rest(text, limit);
      FirstPiece(text, limit);
      var p := Piece(text[..cut], |text| - cut - |rest|);
      if rest == "" {
        FitsOneMore(p, [], limit);
      } else {
        ChunksFit(rest, limit);
        FirstIsPrefix(rest, limit);
        FitsOneMore(p, Split(rest, limit), limit);
      }
    }
  }

  /** The number of chunks: at most one more than the text holds half-limits. */
  lemma {:induction false} ChunkCount(text: string, limit: nat)
    requires limit >= 2
    ensures (|Split(text, limit)| - 1) * (limit / 2) <= |text|
    decreases |text|
  {
    FirstIsPrefix(text, limit);
    hide Split, CutAt;
    if |text| <= limit {
      assert |Split(text, limit)| - 1 == 0;
    } else {
      var rest := Rest(text, limit);
      NextCount(text, limit);
      hide Rest;
      if rest == "" {
        assert |Split(text, limit)| - 1 == 0;
      } else {
        ChunkCount(rest, limit);
        OneHalfMore(|Split(rest, limit)|, limit / 2, |rest|, |text|);
      }
    }
  }

  lemma NextCount(text: string, limit: nat)
    requires 1 <= limit < |text|
    ensures var rest := Rest(text, limit);
            && |Split(text, limit)| == 1 + (if rest == "" then 0 else |Split(rest, limit)|)
            && |rest| + limit / 2 <= |text|
  {
    SplitStep(text, limit);
    hide Split, LastNewline, StripNewlines;
  }

  lemma OneHalfMore(n: int, half: int, rest: int, whole: int)
    requires (n - 1) * half <= rest && rest + half <= whole
    ensures n * half <= whole
  {
    assert n * half == (n - 1) * half + half;
  }
}
