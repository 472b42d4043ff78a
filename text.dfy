/**
 * The pieces of Go's `strings` and `regexp` packages the receipt code uses:
 * white-space trimming, the byte length `len` gives a string, and the removal
 * of every character outside [a-zA-Z0-9].
 */
module Text {

  /** Go's unicode.IsSpace: the characters with the Unicode White_Space property. */
  predicate IsSpace(c: char) {
    ('\t' <= c <= '\r') || c == ' ' || c == '\U{85}' || c == '\U{A0}' || c == '\U{1680}'
    || ('\U{2000}' <= c <= '\U{200A}') || c == '\U{2028}' || c == '\U{2029}'
    || c == '\U{202F}' || c == '\U{205F}' || c == '\U{3000}'
  }

  /** The number of white-space characters at the front of s. */
  function LeadingSpaces(s: string): (k: nat)
    ensures k <= |s|
    ensures forall i :: 0 <= i < k ==> IsSpace(s[i])
    ensures k < |s| ==> !IsSpace(s[k])
  {
    if s != [] && IsSpace(s[0]) then 1 + LeadingSpaces(s[1..]) else 0
  }

  /** The number of white-space characters at the back of s. */
  function TrailingSpaces(s: string): (k: nat)
    ensures k <= |s|
    ensures forall i :: |s| - k <= i < |s| ==> IsSpace(s[i])
    ensures k < |s| ==> !IsSpace(s[|s| - 1 - k])
  {
    if s != [] && IsSpace(s[|s| - 1]) then 1 + TrailingSpaces(s[..|s| - 1]) else 0
  }

  /**
   * strings.TrimSpace: the part of s between its leading and its trailing
   * white space. It is empty exactly when s is all white space, and otherwise
   * it starts and ends with a character that is not white space.
   */
  function TrimSpace(s: string): (r: string)
    ensures |r| <= |s|
    ensures r == [] <==> forall i :: 0 <= i < |s| ==> IsSpace(s[i])
    ensures r != [] ==> !IsSpace(r[0]) && !IsSpace(r[|r| - 1])
    ensures var front := LeadingSpaces(s);
            front + |r| <= |s| && r == s[front..front + |r|] &&
            forall i :: front + |r| <= i < |s| ==> IsSpace(s[i])
  {
    var front := LeadingSpaces(s);
    var rest := s[front..];
    rest[..|rest| - TrailingSpaces(rest)]
  }

  /** When s is `front` spaces, a text that starts and ends with a non-space, then `back` spaces, trimming leaves the text. */
  lemma {:induction false} TrimSpaceBetween(s: string, front: nat, back: nat)
    requires front + back < |s|
    requires forall i :: 0 <= i < front ==> IsSpace(s[i])
    requires forall i :: |s| - back <= i < |s| ==> IsSpace(s[i])
    requires !IsSpace(s[front]) && !IsSpace(s[|s| - back - 1])
    ensures TrimSpace(s) == s[front..|s| - back]
  {
    assert LeadingSpaces(s) == front;
    var r := TrimSpace(s);
    assert r != [];
    assert front + |r| == |s| - back;
  }

  /** s is nothing but white space: the blank-field test of the validator. */
  predicate IsBlank(s: string) {
    s == [] || (IsSpace(s[0]) && IsBlank(s[1..]))
  }

  /** A field is blank exactly when `strings.TrimSpace` leaves nothing of it. */
  lemma {:induction false} BlankIsTrimmedEmpty(s: string)
    ensures IsBlank(s) <==> TrimSpace(s) == ""
  {
    if s != [] {
      BlankIsTrimmedEmpty(s[1..]);
      var t := TrimSpace(s[1..]);
      if IsSpace(s[0]) && IsBlank(s[1..]) {
        forall i | 0 <= i < |s| ensures IsSpace(s[i]) {
          if i > 0 { assert s[i] == s[1..][i - 1]; }
        }
      } else if IsSpace(s[0]) {
        assert t != [];
        var i :| 0 <= i < |s[1..]| && !IsSpace(s[1..][i]);
        assert !IsSpace(s[i + 1]);
      }
    }
  }

  /** The number of bytes UTF-8 spends on c. */
  function Utf8Length(c: char): (n: nat)
    ensures 1 <= n <= 4
    ensures n == 1 <==> c as int < 0x80
  {
    if c as int < 0x80 then 1
    else if c as int < 0x800 then 2
    else if c as int < 0x1_0000 then 3
    else 4
  }

  /** Go's `len` of a string: its length in UTF-8 bytes, which is its length in characters when it is ASCII. */
  function ByteLength(s: string): (n: nat)
    ensures |s| <= n <= 4 * |s|
    ensures (forall i :: 0 <= i < |s| ==> s[i] as int < 0x80) ==> n == |s|
  {
    if s == [] then 0 else Utf8Length(s[0]) + ByteLength(s[1..])
  }

  predicate IsAsciiAlnum(c: char) {
    ('a' <= c <= 'z') || ('A' <= c <= 'Z') || ('0' <= c <= '9')
  }

  /** regexp `[^a-zA-Z0-9]+` replaced by "": the alphanumeric characters of s, in order. */
  function StripNonAlnum(s: string): (r: string)
    ensures |r| <= |s|
    ensures forall i :: 0 <= i < |r| ==> IsAsciiAlnum(r[i])
  {
    if s == [] then []
    else StripNonAlnum(s[..|s| - 1]) + (if IsAsciiAlnum(s[|s| - 1]) then [s[|s| - 1]] else [])
  }

  /** The replacement works piece by piece: stripping a + b strips a, then b. */
  lemma {:induction false} StripNonAlnumAppend(a: string, b: string)
    ensures StripNonAlnum(a + b) == StripNonAlnum(a) + StripNonAlnum(b)
  {
    if b == [] {
      assert a + b == a;
    } else {
      var init := b[..|b| - 1];
      assert (a + b)[..|a + b| - 1] == a + init;
      assert (a + b)[|a + b| - 1] == b[|b| - 1];
      StripNonAlnumAppend(a, init);
    }
  }

  /** A run of alphanumeric characters is kept whole; a run of other characters is dropped. */
  lemma {:induction false} StripNonAlnumRun(s: string)
    requires (forall i :: 0 <= i < |s| ==> IsAsciiAlnum(s[i])) || (forall i :: 0 <= i < |s| ==> !IsAsciiAlnum(s[i]))
    ensures StripNonAlnum(s) == if s != [] && IsAsciiAlnum(s[0]) then s else []
  {
    if s != [] {
      var init := s[..|s| - 1];
      StripNonAlnumRun(init);
      if init != [] {
        assert init[0] == s[0];
      }
      assert init + [s[|s| - 1]] == s;
    }
  }

  /** The positions of s that hold an alphanumeric character. */
  function AlnumPositions(s: string): set<nat> {
    set i: nat | i < |s| && IsAsciiAlnum(s[i])
  }

  /** Stripping keeps exactly one character per alphanumeric position of s. */
  lemma {:induction false} StripNonAlnumCounts(s: string)
    ensures |StripNonAlnum(s)| == |AlnumPositions(s)|
  {
    if s != [] {
      var init := s[..|s| - 1];
      StripNonAlnumCounts(init);
      var last := if IsAsciiAlnum(s[|s| - 1]) then {|s| - 1} else {};
      assert AlnumPositions(s) == AlnumPositions(init) + last;
      assert |s| - 1 !in AlnumPositions(init);
    }
  }
}
