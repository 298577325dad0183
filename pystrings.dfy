/** The pieces of Python's `str` behaviour the model relies on: `isspace`, `strip`, slicing. */
module PyStrings {

  /** Python's `str.isspace` for one character (the Unicode White_Space set Python uses). */
  predicate IsSpace(c: char)
  {
    || c == ' ' || c == '\t' || c == '\n' || c == '\r' || c == '\U{B}' || c == '\U{C}'
    || ('\U{1C}' <= c <= '\U{1F}') || c == '\U{85}' || c == '\U{A0}' || c == '\U{1680}'
    || ('\U{2000}' <= c <= '\U{200A}') || c == '\U{2028}' || c == '\U{2029}'
    || c == '\U{202F}' || c == '\U{205F}' || c == '\U{3000}'
  }

  predicate IsDigit(c: char)
  {
    '0' <= c <= '9'
  }

  /** The number a decimal digit stands for, as `int` reads it. */
  function DigitValue(c: char): (n: int)
    requires IsDigit(c)
    ensures 0 <= n <= 9
  {
    (c as int) - ('0' as int)
  }

  /** No whitespace at either end: what `strip` leaves behind. */
  predicate Stripped(s: string)
  {
    s == [] || (!IsSpace(s[0]) && !IsSpace(s[|s| - 1]))
  }

  /** `s.lstrip()`: drops the leading whitespace. */
  function LStrip(s: string): (r: string)
    ensures |r| <= |s| && r == s[|s| - |r|..]
    ensures forall i :: 0 <= i < |s| - |r| ==> IsSpace(s[i])
    ensures r == [] || !IsSpace(r[0])
  {
    if s == [] || !IsSpace(s[0]) then s else LStrip(s[1..])
  }

  /** `s.rstrip()`: drops the trailing whitespace. */
  function RStrip(s: string): (r: string)
    ensures |r| <= |s| && r == s[..|r|]
    ensures forall i :: |r| <= i < |s| ==> IsSpace(s[i])
    ensures r == [] || !IsSpace(r[|r| - 1])
  {
    if s == [] || !IsSpace(s[|s| - 1]) then s else RStrip(s[..|s| - 1])
  }

  /** `s.strip()`. */
  function Strip(s: string): (r: string)
    ensures Stripped(r)
  {
    RStrip(LStrip(s))
  }

  /** `s[i:j]` for non-negative bounds: Python clamps both bounds to the length. */
  function Slice(s: string, i: nat, j: nat): (r: string)
    ensures |r| == if i <= j && i <= |s| then (if j <= |s| then j else |s|) - i else 0
  {
    var hi := if j <= |s| then j else |s|;
    if i <= hi then s[i..hi] else []
  }

  /** `s[i:]` for a non-negative bound. */
  function SliceFrom(s: string, i: nat): (r: string)
    ensures |r| == if i <= |s| then |s| - i else 0
  {
    if i <= |s| then s[i..] else []
  }

  /** `s` followed by spaces up to `width` characters. */
  function PadRight(s: string, width: nat): (r: string)
    ensures |r| == if |s| < width then width else |s|
    ensures r[..|s|] == s && forall i :: |s| <= i < |r| ==> r[i] == ' '
  {
    if |s| < width then s + seq(width - |s|, _ => ' ') else s
  }

  lemma {:induction false} LStripKeeps(s: string)
    requires s == [] || !IsSpace(s[0])
    ensures LStrip(s) == s
  {
  }

  /** Stripping one character keeps it, unless it is whitespace. */
  lemma StripChar(c: char)
    ensures Strip([c]) == if IsSpace(c) then [] else [c]
  {
    if !IsSpace(c) {
      LStripKeeps([c]);
    } else {
      assert LStrip([c]) == LStrip([c][1..]);
    }
  }

  /** Stripping a string that has no surrounding whitespace and is followed only by whitespace gives it back. */
  lemma {:induction false} StripPadded(s: string, pad: string)
    requires Stripped(s)
    requires forall i :: 0 <= i < |pad| ==> IsSpace(pad[i])
    ensures Strip(s + pad) == s
  {
    var t := s + pad;
    if s != [] {
      assert LStrip(t) == t;
      assert forall k :: |s| <= k < |t| ==> IsSpace(t[k]);
      assert !IsSpace(t[|s| - 1]);
      assert RStrip(t) == t[..|s|];
    }
  }

  /** Stripping a padded stripped string gives it back. */
  lemma StripPadRight(s: string, width: nat)
    requires Stripped(s)
    ensures Strip(PadRight(s, width)) == s
  {
    var p := PadRight(s, width);
    assert p == s + p[|s|..];
    StripPadded(s, p[|s|..]);
  }

  /** Stripping a stripped string followed by a newline gives it back. */
  lemma StripNewline(s: string)
    requires Stripped(s)
    ensures Strip(s + "\n") == s
  {
    StripPadded(s, "\n");
  }

  /** `t` occurs in `s` starting at index `k`. */
  ghost predicate OccursAt(s: string, t: string, k: int)
  {
    0 <= k && k + |t| <= |s| && s[k..k + |t|] == t
  }

  /** `t in s` for strings: `t` occurs somewhere in `s`. */
  ghost predicate Contains(s: string, t: string)
  {
    exists k :: OccursAt(s, t, k)
  }

  lemma ContainsSelf(t: string)
    ensures Contains(t, t)
  {
    assert OccursAt(t, t, 0);
  }

  /** An occurrence in either part of a concatenation is an occurrence in the whole. */
  lemma ContainsConcat(a: string, b: string, t: string)
    requires Contains(a, t) || Contains(b, t)
    ensures Contains(a + b, t)
  {
    if Contains(a, t) {
      var k :| OccursAt(a, t, k);
      assert (a + b)[k..k + |t|] == a[k..k + |t|];
      assert OccursAt(a + b, t, k);
    } else {
      var k :| OccursAt(b, t, k);
      assert (a + b)[|a| + k..|a| + k + |t|] == b[k..k + |t|];
      assert OccursAt(a + b, t, |a| + k);
    }
  }

  lemma ContainsTransitive(s: string, t: string, u: string)
    requires Contains(s, t) && Contains(t, u)
    ensures Contains(s, u)
  {
    var k :| OccursAt(s, t, k);
    var j :| OccursAt(t, u, j);
    forall i | 0 <= i < |u|
      ensures s[k + j..k + j + |u|][i] == u[i]
    {
      assert s[k..k + |t|][j + i] == t[j + i];
    }
    assert OccursAt(s, u, k + j);
  }
}
