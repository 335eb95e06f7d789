/** Capturing the output of a background command (server/bg_tasks.py): the cap on a stream keeps its tail. */
module Capture {

  type Bytes = seq<bv8>

  const MAX_STREAM_BYTES: nat := 200 * 1024

  /** "…[truncated; tail bytes shown]\n" in UTF-8. */
  const TRUNC_MARKER: Bytes :=
    [0xe2, 0x80, 0xa6, 0x5b, 0x74, 0x72, 0x75, 0x6e, 0x63, 0x61, 0x74, 0x65, 0x64, 0x3b, 0x20, 0x74, 0x61,
     0x69, 0x6c, 0x20, 0x62, 0x79, 0x74, 0x65, 0x73, 0x20, 0x73, 0x68, 0x6f, 0x77, 0x6e, 0x5d, 0x0a]

  function Concat(chunks: seq<Bytes>): Bytes {
    if chunks == [] then [] else Concat(chunks[..|chunks| - 1]) + chunks[|chunks| - 1]
  }

  function Tail<T>(s: seq<T>, n: nat): seq<T> {
    if |s| <= n then s else s[|s| - n..]
  }

  /** Trimming as the bytes arrive keeps the tail of the whole stream. */
  lemma TailOfTail<T>(s: seq<T>, more: seq<T>, n: nat)
    ensures Tail(Tail(s, n) + more, n) == Tail(s + more, n)
  {
  }

  class StreamBuffer {
    var buf: Bytes
    var truncated: bool

    constructor ()
      ensures buf == [] && !truncated
    {
      buf, truncated := [], false;
    }

    /** What the buffer holds after a stream has sent these bytes so far. */
    ghost predicate Holds(stream: Bytes)
      reads this
    {
      buf == Tail(stream, MAX_STREAM_BYTES) && (truncated <==> |stream| > MAX_STREAM_BYTES)
    }

    method Extend(chunk: Bytes, ghost stream: Bytes)
      requires Holds(stream)
      modifies this
      ensures Holds(stream + chunk)
    {
      TailOfTail(stream, chunk, MAX_STREAM_BYTES);
      buf := buf + chunk;
      if |buf| > MAX_STREAM_BYTES {
        var drop := |buf| - MAX_STREAM_BYTES;
        buf := buf[drop..];
        truncated := true;
      }
    }

    /** The reader loop, up to the first empty read; it may also be cancelled before any read. */
    method Read(pieces: seq<Bytes>) returns (taken: nat)
      requires Holds([])
      modifies this
      ensures taken <= |pieces| && forall k | 0 <= k < taken :: pieces[k] != []
      ensures Holds(Concat(pieces[..taken]))
    {
      taken := 0;
      while taken < |pieces|
        invariant taken <= |pieces| && forall k | 0 <= k < taken :: pieces[k] != []
        invariant Holds(Concat(pieces[..taken]))
      {
        var cancelled: bool := *;
        if cancelled || pieces[taken] == [] {
          return;
        }
        assert pieces[..taken + 1][..taken] == pieces[..taken];
        Extend(pieces[taken], Concat(pieces[..taken]));
        taken := taken + 1;
      }
    }

    /** _finalize_stream: what is stored for a stream that sent `stream`. */
    method Finalize(ghost stream: Bytes) returns (out: Bytes)
      requires Holds(stream)
      modifies this
      ensures |out| <= MAX_STREAM_BYTES
      ensures out == if |stream| <= MAX_STREAM_BYTES then stream
                     else TRUNC_MARKER + Tail(stream, MAX_STREAM_BYTES - |TRUNC_MARKER|)
    {
      if !truncated {
        return buf;
      }
      if |buf| + |TRUNC_MARKER| > MAX_STREAM_BYTES {
        var drop := |buf| + |TRUNC_MARKER| - MAX_STREAM_BYTES;
        if drop < |buf| {
          buf := buf[drop..];
        }
      }
      out := TRUNC_MARKER + buf;
    }
  }

  /** What reaches the database for a stream. */
  function Stored(stream: Bytes): Bytes {
    if |stream| <= MAX_STREAM_BYTES then stream else TRUNC_MARKER + Tail(stream, MAX_STREAM_BYTES - |TRUNC_MARKER|)
  }

  /** One capture from start to finish, however the pipe cuts the output into reads. */
  method CaptureStream(pieces: seq<Bytes>) returns (out: Bytes, taken: nat)
    ensures taken <= |pieces| && out == Stored(Concat(pieces[..taken]))
    ensures |out| <= MAX_STREAM_BYTES
  {
    var b := new StreamBuffer();
    taken := b.Read(pieces);
    out := b.Finalize(Concat(pieces[..taken]));
  }

  /** Nothing is cut out of the middle: what is stored is the stream, or the marker before a proper suffix of it. */
  lemma StoredIsStreamOrMarkedSuffix(stream: Bytes)
    ensures Stored(stream) == stream <==> |stream| <= MAX_STREAM_BYTES
    ensures |stream| > MAX_STREAM_BYTES ==>
              exists k | 0 < k < |stream| ::
                Stored(stream) == TRUNC_MARKER + stream[k..] && |Stored(stream)| == MAX_STREAM_BYTES
  {
  }
}
