/** UTF-8 as Python's strict codec writes and reads it (RFC 3629). */
module Utf8 {
  import opened Base

  newtype Byte = x: int | 0 <= x < 256

  type Bytes = seq<Byte>

  predicate IsScalar(n: int) { 0 <= n < 0xD800 || 0xE000 <= n < 0x11_0000 }

  function EncodeChar(c: char): (bs: Bytes)
    ensures 1 <= |bs| <= 4
  {
    var n := c as int;
    if n < 0x80 then [n as Byte]
    else if n < 0x800 then [(0xC0 + n / 64) as Byte, (0x80 + n % 64) as Byte]
    else if n < 0x1_0000 then [(0xE0 + n / 4096) as Byte, (0x80 + n / 64 % 64) as Byte, (0x80 + n % 64) as Byte]
    else [(0xF0 + n / 262144) as Byte, (0x80 + n / 4096 % 64) as Byte, (0x80 + n / 64 % 64) as Byte,
      (0x80 + n % 64) as Byte]
  }

  function Encode(s: string): Bytes {
    if s == "" then [] else EncodeChar(s[0]) + Encode(s[1..])
  }

  /** How many bytes the first one announces. */
  function Announced(lead: Byte): nat {
    if lead < 0xC0 then 1 else if lead < 0xE0 then 2 else if lead < 0xF0 then 3 else 4
  }

  function Rest(b: Byte): int { b as int - 0x80 }

  /** The number an announced number of bytes spells. */
  function Value(e: Bytes): int
    requires 1 <= |e| <= 4
  {
    var lead := e[0] as int;
    if |e| == 1 then lead
    else if |e| == 2 then (lead - 0xC0) * 64 + Rest(e[1])
    else if |e| == 3 then (lead - 0xE0) * 4096 + Rest(e[1]) * 64 + Rest(e[2])
    else (lead - 0xF0) * 262144 + Rest(e[1]) * 4096 + Rest(e[2]) * 64 + Rest(e[3])
  }

  /** The first character, when the bytes start with exactly its encoding: no other form is accepted. */
  function DecodeChar(bs: Bytes): (r: Option<char>)
    requires bs != []
    ensures r.Some? ==> EncodeChar(r.value) <= bs
  {
    var k := Announced(bs[0]);
    if |bs| < k then None
    else
      var n := Value(bs[..k]);
      if IsScalar(n) && EncodeChar(n as char) == bs[..k] then Some(n as char) else None
  }

  /** bytes.decode: the whole text, or an error. */
  function Decode(bs: Bytes): Option<string> {
    if bs == [] then Some("")
    else
      var c := DecodeChar(bs);
      if c.None? then None
      else
        var rest := Decode(bs[|EncodeChar(c.value)|..]);
        if rest.None? then None else Some([c.value] + rest.value)
  }

  lemma Digits(n: nat)
    ensures n == n / 64 * 64 + n % 64
    ensures n == n / 4096 * 4096 + n / 64 % 64 * 64 + n % 64
    ensures n == n / 262144 * 262144 + n / 4096 % 64 * 4096 + n / 64 % 64 * 64 + n % 64
  {
    var m, q := n / 64, n / 4096;
    assert n == m * 64 + n % 64;
    assert m / 64 == q && m == q * 64 + m % 64;
    assert q / 64 == n / 262144 && q == q / 64 * 64 + q % 64;
  }

  lemma ValueOfChar(c: char)
    ensures Value(EncodeChar(c)) == c as int
  {
    Digits(c as int);
  }

  /** Only the first byte of a character is no continuation byte, and it announces the length. */
  lemma CharShape(c: char)
    ensures var e := EncodeChar(c);
            && !IsContinuation(e[0]) && Announced(e[0]) == |e|
            && forall i | 0 < i < |e| :: IsContinuation(e[i])
  {
  }

  lemma CharRoundTrip(c: char, rest: Bytes)
    ensures DecodeChar(EncodeChar(c) + rest) == Some(c)
  {
    var e := EncodeChar(c);
    CharShape(c);
    ValueOfChar(c);
    hide EncodeChar, Value, Announced;
    assert (e + rest)[0] == e[0] && (e + rest)[..|e|] == e;
  }

  lemma DecodeStep(c: char, more: Bytes)
    ensures Decode(EncodeChar(c) + more) == if Decode(more).Some? then Some([c] + Decode(more).value) else None
  {
    CharRoundTrip(c, more);
    hide DecodeChar, EncodeChar;
    assert (EncodeChar(c) + more)[|EncodeChar(c)|..] == more;
  }

  lemma {:induction false} EncodeConcat(a: string, b: string)
    ensures Encode(a + b) == Encode(a) + Encode(b)
  {
    if a == "" {
      assert a + b == b;
    } else {
      assert (a + b)[1..] == a[1..] + b;
      EncodeConcat(a[1..], b);
    }
  }

  /** A text is read off the front, and what follows it decides the rest. */
  lemma {:induction false} DecodeAfter(s: string, rest: Bytes)
    ensures Decode(Encode(s) + rest) ==
            if Decode(rest).Some? then Some(s + Decode(rest).value) else None
  {
    hide Decode, EncodeChar;
    if s == "" {
      assert Encode(s) + rest == rest;
      assert Decode(rest).Some? ==> "" + Decode(rest).value == Decode(rest).value;
    } else {
      var more := Encode(s[1..]) + rest;
      assert Encode(s) + rest == EncodeChar(s[0]) + more;
      DecodeStep(s[0], more);
      DecodeAfter(s[1..], rest);
      assert Decode(rest).Some? ==> [s[0]] + (s[1..] + Decode(rest).value) == s + Decode(rest).value;
    }
  }

  /** Where a cut through an encoded text falls. */
  predicate OnBoundary(s: string, k: nat) {
    exists j | 0 <= j <= |s| :: |Encode(s[..j])| == k
  }

  predicate IsContinuation(b: Byte) { 0x80 <= b < 0xC0 }

  lemma NotACharacter(d: char, e: Bytes, i: nat)
    requires 0 < i < |e| && !IsContinuation(e[i])
    ensures EncodeChar(d) != e
  {
    CharShape(d);
  }

  /** A cut character is not decoded, whatever text comes after it. */
  lemma CutCharFails(c: char, k: nat, s: string)
    requires 0 < k < |EncodeChar(c)|
    ensures DecodeChar(EncodeChar(c)[..k] + Encode(s)) == None
  {
    var bs := EncodeChar(c)[..k] + Encode(s);
    CharShape(c);
    assert bs[0] == EncodeChar(c)[0];
    if s != "" {
      CharShape(s[0]);
      assert bs[k] == EncodeChar(s[0])[0];
    }
    hide EncodeChar, Value, Announced, IsContinuation;
    var n := Announced(bs[0]);
    if |bs| >= n {
      assert s != "" by { assert |bs| > k; }
      assert bs[..n][k] == bs[k];
      forall d: char
        ensures EncodeChar(d) != bs[..n]
      {
        NotACharacter(d, bs[..n], k);
      }
    }
  }

  /** The characters before a cut, and how far it goes into the next one. */
  lemma {:induction false} CutPoint(s: string, k: nat) returns (j: nat, into: nat)
    requires k <= |Encode(s)|
    ensures j <= |s| && (j == |s| ==> into == 0) && (j < |s| ==> into < |EncodeChar(s[j])|)
    ensures Encode(s)[..k] == Encode(s[..j]) + if into == 0 then [] else EncodeChar(s[j])[..into]
    ensures OnBoundary(s, k) <==> into == 0
  {
    hide EncodeChar, OnBoundary;
    if s == "" {
      j, into := 0, 0;
      EmptyCut(k);
    } else if k < |EncodeChar(s[0])| {
      j, into := 0, k;
      assert s[..0] == "" && Encode("") == [];
      assert Encode(s)[..k] == EncodeChar(s[0])[..k];
      BoundariesAreSpaced(s, k);
    } else {
      var first := |EncodeChar(s[0])|;
      var j1, into1 := CutPoint(s[1..], k - first);
      j, into := j1 + 1, into1;
      CutFurther(s, k, j1);
      BoundaryShifts(s, k);
    }
  }

  lemma EmptyCut(k: nat)
    requires k <= |Encode("")|
    ensures Encode("")[..k] == Encode(""[..0]) + [] && OnBoundary("", k)
  {
    assert ""[..0] == "";
  }

  /** Past the first character a cut is one of the rest of the text. */
  lemma CutFurther(s: string, k: nat, j: nat)
    requires s != "" && |EncodeChar(s[0])| <= k <= |Encode(s)| && j <= |s| - 1
    ensures Encode(s)[..k] == EncodeChar(s[0]) + Encode(s[1..])[..k - |EncodeChar(s[0])|]
    ensures Encode(s[..j + 1]) == EncodeChar(s[0]) + Encode(s[1..][..j])
  {
    hide EncodeChar;
    assert s[..j + 1][1..] == s[1..][..j];
  }

  lemma {:induction false} PrefixLength(s: string, j: nat)
    requires 0 < j <= |s|
    ensures |Encode(s[..j])| == |EncodeChar(s[0])| + |Encode(s[1..][..j - 1])|
  {
    assert s[..j][1..] == s[1..][..j - 1];
  }

  lemma BoundariesAreSpaced(s: string, k: nat)
    requires s != "" && k < |EncodeChar(s[0])|
    ensures OnBoundary(s, k) <==> k == 0
  {
    forall j | 0 < j <= |s|
      ensures |Encode(s[..j])| > k
    {
      PrefixLength(s, j);
    }
    assert s[..0] == "" && |Encode("")| == 0;
  }

  lemma BoundaryShifts(s: string, k: nat)
    requires s != "" && k >= |EncodeChar(s[0])|
    ensures OnBoundary(s, k) <==> OnBoundary(s[1..], k - |EncodeChar(s[0])|)
  {
    var first := |EncodeChar(s[0])|;
    assert s[..0] == "" && |Encode(s[..0])| == 0;
    if OnBoundary(s, k) {
      var j :| 0 < j <= |s| && |Encode(s[..j])| == k;
      PrefixLength(s, j);
      assert |Encode(s[1..][..j - 1])| == k - first;
    }
    if OnBoundary(s[1..], k - first) {
      var j :| 0 <= j <= |s[1..]| && |Encode(s[1..][..j])| == k - first;
      PrefixLength(s, j + 1);
      assert |Encode(s[..j + 1])| == k;
    }
  }

  /** Text cut anywhere, with more text after it, is readable if and only if the cut is between characters. */
  lemma CutText(before: string, s: string, k: nat, after: string) returns (j: nat)
    requires k <= |Encode(s)|
    ensures j <= |s|
    ensures Decode(Encode(before) + Encode(s)[..k] + Encode(after)) ==
            if OnBoundary(s, k) then Some(before + s[..j] + after) else None
    ensures OnBoundary(s, k) ==> |Encode(s[..j])| == k
  {
    hide EncodeChar, OnBoundary, Decode, Encode;
    var into;
    j, into := CutPoint(s, k);
    var rest := (if into == 0 then [] else EncodeChar(s[j])[..into]) + Encode(after);
    assert Encode(before) + Encode(s)[..k] + Encode(after) == Encode(before) + (Encode(s[..j]) + rest);
    DecodeAfter(before, Encode(s[..j]) + rest);
    DecodeAfter(s[..j], rest);
    if into == 0 {
      DecodeText(after);
      assert rest == Encode(after);
      assert before + (s[..j] + after) == before + s[..j] + after;
    } else {
      CutCharFails(s[j], into, after);
      UndecodableStart(rest);
    }
  }

  lemma UndecodableStart(bs: Bytes)
    requires bs != [] && DecodeChar(bs).None?
    ensures Decode(bs) == None
  {
  }

  lemma EncodeCons(c: char, s: string)
    ensures Encode([c] + s) == EncodeChar(c) + Encode(s)
  {
    assert ([c] + s)[1..] == s;
  }

  /** What can be read is exactly what was written. */
  lemma {:induction false} DecodeInverse(bs: Bytes)
    requires Decode(bs).Some?
    ensures Encode(Decode(bs).value) == bs
  {
    hide EncodeChar, DecodeChar, Encode;
    if bs == [] {
      EncodeNothing();
    } else {
      var c := DecodeChar(bs).value;
      var rest := bs[|EncodeChar(c)|..];
      DecodeInverse(rest);
      EncodeCons(c, Decode(rest).value);
      assert bs == EncodeChar(c) + rest;
    }
  }

  lemma EncodeNothing()
    ensures Encode("") == []
  {
  }

  /** What is written is read back. */
  lemma DecodeText(s: string)
    ensures Decode(Encode(s)) == Some(s)
  {
    DecodeAfter(s, []);
    assert Encode(s) + [] == Encode(s) && s + "" == s;
  }

  lemma PrefixGrows(s: string, i: nat, j: nat)
    requires i < j <= |s|
    ensures |Encode(s[..i])| + |EncodeChar(s[i])| <= |Encode(s[..j])|
  {
    hide EncodeChar;
    EncodeConcat(s[..i], s[i..j]);
    assert s[..i] + s[i..j] == s[..j];
    assert s[i..j][0] == s[i];
  }

  lemma {:induction false} AsciiLength(s: string)
    requires forall i | 0 <= i < |s| :: s[i] as int < 0x80
    ensures |Encode(s)| == |s|
  {
    if s != "" {
      AsciiLength(s[1..]);
    }
  }

  /** Every cut is harmless exactly for ASCII text. */
  lemma CutsAreCleanForAscii(s: string)
    ensures (forall k: nat | k <= |Encode(s)| :: OnBoundary(s, k)) <==> (forall i | 0 <= i < |s| :: s[i] as int < 0x80)
  {
    if forall i | 0 <= i < |s| :: s[i] as int < 0x80 {
      AsciiLength(s);
      forall k: nat | k <= |Encode(s)|
        ensures OnBoundary(s, k)
      {
        AsciiLength(s[..k]);
      }
    } else {
      var i :| 0 <= i < |s| && s[i] as int >= 0x80;
      InsideIsOff(s, i);
    }
  }

  lemma InsideIsOff(s: string, i: nat)
    requires i < |s| && s[i] as int >= 0x80
    ensures |Encode(s[..i])| + 1 <= |Encode(s)| && !OnBoundary(s, |Encode(s[..i])| + 1)
  {
    var k := |Encode(s[..i])| + 1;
    assert |EncodeChar(s[i])| >= 2;
    hide EncodeChar;
    PrefixGrows(s, i, |s|);
    assert s[..|s|] == s;
    forall j | 0 <= j <= |s|
      ensures |Encode(s[..j])| != k
    {
      if j > i {
        PrefixGrows(s, i, j);
      } else if j < i {
        PrefixGrows(s, j, i);
      }
    }
  }
}
