/** The JavaScript string operations the server relies on: `includes`,
    `split(sep)[0]`, `toLowerCase` and `trim`. A string is a sequence of
    Unicode scalar values, where JavaScript has UTF-16 code units: a character
    outside the Basic Multilingual Plane is one element here and two code
    units there, and a lone surrogate has no representation. */
module JsStrings {

  /** `t` occurs in `s` starting at index `i`. */
  predicate OccursAt(s: string, t: string, i: int) {
    0 <= i && i + |t| <= |s| && s[i..i + |t|] == t
  }

  lemma ShiftOccurrence(s: string, t: string)
    requires 0 < |s| && !OccursAt(s, t, 0)
    ensures (exists i :: OccursAt(s, t, i)) <==> (exists j :: OccursAt(s[1..], t, j))
  {
    forall i | OccursAt(s, t, i)
      ensures OccursAt(s[1..], t, i - 1)
    {
      assert s[1..][i - 1..i - 1 + |t|] == s[i..i + |t|];
    }
    forall j | OccursAt(s[1..], t, j)
      ensures OccursAt(s, t, j + 1)
    {
      assert s[1..][j..j + |t|] == s[j + 1..j + 1 + |t|];
    }
  }

  /** `s.includes(t)`: some block of `s` equals `t` (the empty string is in every string). */
  function Includes(s: string, t: string): (b: bool)
    ensures b <==> exists i :: OccursAt(s, t, i)
    decreases |s|
  {
    if |s| < |t| then
      false
    else if s[..|t|] == t then
      assert OccursAt(s, t, 0);
      true
    else
      ShiftOccurrence(s, t);
      Includes(s[1..], t)
  }

  /** `s.split(sep)[0]`: the text before the first `sep`, or all of `s` when there is none. */
  function BeforeFirst(s: string, sep: char): (p: string)
    ensures |p| <= |s| && p == s[..|p|]
    ensures sep !in p
    ensures |p| < |s| ==> s[|p|] == sep
  {
    if s == [] || s[0] == sep then [] else [s[0]] + BeforeFirst(s[1..], sep)
  }

  /** Cutting at the first `sep` of `w + [sep] + rest` gives back `w` when `w` has no `sep`. */
  lemma BeforeFirstAt(w: string, sep: char, rest: string)
    requires sep !in w
    ensures BeforeFirst(w + [sep] + rest, sep) == w
  {
    var s := w + [sep] + rest;
    assert forall i :: 0 <= i < |w| ==> s[i] == w[i];
    assert s[|w|] == sep;
  }

  /** The lower-case form of an ASCII capital; every other character is kept. */
  function LowerChar(c: char): char {
    if 'A' <= c <= 'Z' then (c as int + 32) as char else c
  }

  /** `s.toLowerCase()`, restricted to the ASCII letters. */
  function ToLower(s: string): (r: string)
    ensures |r| == |s|
    ensures forall i :: 0 <= i < |s| ==> r[i] == LowerChar(s[i])
  {
    if s == [] then [] else [LowerChar(s[0])] + ToLower(s[1..])
  }

  /** Lower-casing twice is lower-casing once, so table keys compare equal however they are typed. */
  lemma ToLowerIdempotent(s: string)
    ensures ToLower(ToLower(s)) == ToLower(s)
  {
  }

  /** The characters `String.prototype.trim` removes: WhiteSpace and LineTerminator of ECMA-262. */
  predicate IsWhiteSpace(c: char) {
    || c == '\t' || c == '\n' || c == '\U{000B}' || c == '\U{000C}' || c == '\r'
    || c == ' ' || c == '\U{00A0}' || c == '\U{1680}'
    || ('\U{2000}' <= c <= '\U{200A}')
    || c == '\U{2028}' || c == '\U{2029}' || c == '\U{202F}' || c == '\U{205F}'
    || c == '\U{3000}' || c == '\U{FEFF}'
  }

  predicate AllWhiteSpace(s: string) {
    forall i :: 0 <= i < |s| ==> IsWhiteSpace(s[i])
  }

  /** Neither end of `s` is white space. */
  predicate IsTrimmed(s: string) {
    s == [] || (!IsWhiteSpace(s[0]) && !IsWhiteSpace(s[|s| - 1]))
  }

  /** The length of the white-space run at the start of `s`. */
  function LeadingWhiteSpace(s: string): (k: nat)
    ensures k <= |s|
    ensures forall i :: 0 <= i < k ==> IsWhiteSpace(s[i])
    ensures k < |s| ==> !IsWhiteSpace(s[k])
  {
    if s != [] && IsWhiteSpace(s[0]) then 1 + LeadingWhiteSpace(s[1..]) else 0
  }

  /** The length of the white-space run at the end of `s`. */
  function TrailingWhiteSpace(s: string): (k: nat)
    ensures k <= |s|
    ensures forall i :: |s| - k <= i < |s| ==> IsWhiteSpace(s[i])
    ensures k < |s| ==> !IsWhiteSpace(s[|s| - 1 - k])
  {
    if s != [] && IsWhiteSpace(s[|s| - 1]) then 1 + TrailingWhiteSpace(s[..|s| - 1]) else 0
  }

  /** `s` is `r` framed by white space, with `r` starting at index `a`. */
  predicate FramedBy(s: string, r: string, a: int) {
    0 <= a <= |s| - |r| && s[a..a + |r|] == r && AllWhiteSpace(s[..a]) && AllWhiteSpace(s[a + |r|..])
  }

  /** `s.trim()`: `s` without its leading and trailing white space. */
  function Trim(s: string): (r: string)
    ensures IsTrimmed(r)
    ensures exists a :: FramedBy(s, r, a)
  {
    var a := LeadingWhiteSpace(s);
    var rest := s[a..];
    var b := TrailingWhiteSpace(rest);
    var r := rest[..|rest| - b];
    assert s[a..a + |r|] == r;
    assert forall i :: a + |r| <= i < |s| ==> s[i] == rest[i - a];
    assert r != [] ==> r[0] == s[a];
    assert FramedBy(s, r, a);
    r
  }

  /** A string with no white space at either end is its own trim. */
  lemma TrimOfTrimmed(s: string)
    requires IsTrimmed(s)
    ensures Trim(s) == s
  {
    var r := Trim(s);
    var a :| FramedBy(s, r, a);
    assert a == 0 && |r| == |s|;
  }

  /** Trimming is idempotent. */
  lemma TrimIdempotent(s: string)
    ensures Trim(Trim(s)) == Trim(s)
  {
    TrimOfTrimmed(Trim(s));
  }

  /** White space around a trimmed string is exactly what `trim` removes. */
  lemma TrimFramed(a: string, t: string, b: string)
    requires AllWhiteSpace(a) && IsTrimmed(t) && AllWhiteSpace(b)
    ensures Trim(a + t + b) == t
  {
    var s := a + t + b;
    if t == [] {
      forall i | 0 <= i < |s|
        ensures IsWhiteSpace(s[i])
      {
        if i < |a| {
          assert s[i] == a[i];
        } else {
          assert s[i] == b[i - |a|];
        }
      }
      TrimEmptyIffBlank(s);
    } else {
      var k := LeadingWhiteSpace(s);
      assert s[|a|] == t[0];
      assert forall i :: 0 <= i < |a| ==> s[i] == a[i];
      assert k == |a|;
      var rest := s[k..];
      assert rest == t + b;
      var j := TrailingWhiteSpace(rest);
      assert rest[|t| - 1] == t[|t| - 1];
      assert forall i :: 0 <= i < |b| ==> rest[|t| + i] == b[i];
      assert j == |b|;
      assert rest[..|rest| - j] == t;
    }
  }

  /** Trimming empties exactly the strings made of white space alone. */
  lemma TrimEmptyIffBlank(s: string)
    ensures Trim(s) == [] <==> AllWhiteSpace(s)
  {
    var r := Trim(s);
    var a :| FramedBy(s, r, a);
    if r == [] {
      forall i | 0 <= i < |s|
        ensures IsWhiteSpace(s[i])
      {
        if i < a {
          assert s[..a][i] == s[i];
        } else {
          assert s[a..][i - a] == s[i];
        }
      }
    } else {
      assert s[a] == r[0];
    }
  }
}
