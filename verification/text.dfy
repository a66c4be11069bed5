/** The string primitives the lead pipeline relies on: JavaScript's
    `String.prototype.trim`, ASCII `toLowerCase`, `includes`, and
    `split(',')[0]`, written over `seq<char>`. */
module Text {
  import opened Wrappers

  /** The code points JavaScript counts as white space or line terminators:
      the set `trim` removes and the regular-expression class `\s` matches. */
  predicate IsSpace(c: char) {
    || c == ' ' || c == '\t' || c == '\n' || c == '\r'
    || c == '\U{000B}' || c == '\U{000C}' || c == '\U{00A0}' || c == '\U{1680}'
    || ('\U{2000}' <= c <= '\U{200A}')
    || c == '\U{2028}' || c == '\U{2029}' || c == '\U{202F}' || c == '\U{205F}'
    || c == '\U{3000}' || c == '\U{FEFF}'
  }

  /** Every character of `s` is white space (so "" is blank). */
  predicate IsBlank(s: string) {
    forall i :: 0 <= i < |s| ==> IsSpace(s[i])
  }

  /** The number of white-space characters `s` starts with. */
  function LeadingSpace(s: string): (n: nat)
    ensures n <= |s|
    ensures forall i :: 0 <= i < n ==> IsSpace(s[i])
    ensures n < |s| ==> !IsSpace(s[n])
  {
    if |s| > 0 && IsSpace(s[0]) then
      var m := LeadingSpace(s[1..]);
      assert forall i :: 1 <= i < m + 1 ==> s[i] == s[1..][i - 1];
      m + 1
    else
      0
  }

  /** The number of white-space characters `s` ends with. */
  function TrailingSpace(s: string): (n: nat)
    ensures n <= |s|
    ensures forall i :: |s| - n <= i < |s| ==> IsSpace(s[i])
    ensures n < |s| ==> !IsSpace(s[|s| - n - 1])
  {
    if |s| > 0 && IsSpace(s[|s| - 1]) then
      var t := s[..|s| - 1];
      var m := TrailingSpace(t);
      assert forall i :: |t| - m <= i < |t| ==> s[i] == t[i];
      m + 1
    else
      0
  }

  /** `s` has no white space at either end. */
  predicate IsTrimmed(s: string) {
    s == "" || (!IsSpace(s[0]) && !IsSpace(s[|s| - 1]))
  }

  /** `s.trim()`: `s` without its leading and trailing white space. The
      result has no white space at either end and is empty exactly when `s`
      is blank; `TrimMargins` shows that only the margins are removed. */
  function Trim(s: string): (r: string)
    ensures |r| <= |s|
    ensures r == "" <==> IsBlank(s)
    ensures IsTrimmed(r)
  {
    var a := LeadingSpace(s);
    var e := |s| - TrailingSpace(s);
    if e <= a then
      assert IsBlank(s);
      ""
    else
      var r := s[a..e];
      assert !IsBlank(s) by { assert !IsSpace(s[a]); }
      r
  }

  /** `trim` removes nothing but white space: `s` is its trim with a blank
      margin on either side. */
  lemma TrimSplit(s: string) returns (x: string, y: string)
    ensures s == x + Trim(s) + y && IsBlank(x) && IsBlank(y)
  {
    var a := LeadingSpace(s);
    var e := |s| - TrailingSpace(s);
    if e <= a {
      x, y := s, "";
      assert Trim(s) == "";
      assert s == x + "" + y;
    } else {
      x, y := s[..a], s[e..];
      assert Trim(s) == s[a..e];
      BlankMargins(s, a, e);
    }
  }

  /** Cutting `s` at `a` and `e` with only white space outside the cut. */
  lemma BlankMargins(s: string, a: nat, e: nat)
    requires a <= e <= |s|
    requires forall i :: 0 <= i < a ==> IsSpace(s[i])
    requires forall i :: e <= i < |s| ==> IsSpace(s[i])
    ensures s == s[..a] + s[a..e] + s[e..]
    ensures IsBlank(s[..a]) && IsBlank(s[e..])
  {
    assert s[..e] == s[..a] + s[a..e];
    assert s == s[..e] + s[e..];
    forall i | 0 <= i < |s[e..]|
      ensures IsSpace(s[e..][i])
    {
      assert s[e..][i] == s[e + i];
    }
  }

  /** The trim is an infix of `s` with only white space around it. */
  lemma TrimMargins(s: string)
    ensures exists x, y :: s == x + Trim(s) + y && IsBlank(x) && IsBlank(y)
  {
    var x, y := TrimSplit(s);
  }

  /** A string with no white space at either end is its own trim. */
  lemma {:induction false} TrimOfTrimmed(s: string)
    requires IsTrimmed(s)
    ensures Trim(s) == s
  {
    if s != "" {
      assert LeadingSpace(s) == 0;
      assert TrailingSpace(s) == 0;
    }
  }

  /** Trimming twice is trimming once. */
  lemma TrimIdempotent(s: string)
    ensures Trim(Trim(s)) == Trim(s)
  {
    TrimOfTrimmed(Trim(s));
  }

  /** `toLowerCase` on one character, restricted to ASCII letters. */
  function LowerChar(c: char): char {
    if 'A' <= c <= 'Z' then (c as int + 32) as char else c
  }

  /** `s.toLowerCase()` with ASCII case mapping: same length, every ASCII
      capital replaced by its small letter and every other character kept. */
  function Lower(s: string): (r: string)
    ensures |r| == |s|
    ensures forall i :: 0 <= i < |s| ==> r[i] == LowerChar(s[i])
    ensures forall i :: 0 <= i < |r| ==> !('A' <= r[i] <= 'Z')
  {
    if s == "" then "" else [LowerChar(s[0])] + Lower(s[1..])
  }

  /** Lowercasing never turns a character into, or out of, white space. */
  lemma LowerKeepsSpace(c: char)
    ensures IsSpace(LowerChar(c)) <==> IsSpace(c)
  {
  }

  /** Lowercasing is idempotent. */
  lemma LowerIdempotent(s: string)
    ensures Lower(Lower(s)) == Lower(s)
  {
  }

  /** Lowercasing commutes with slicing. */
  lemma {:induction false} LowerSlice(s: string, a: nat, b: nat)
    requires a <= b <= |s|
    ensures Lower(s)[a..b] == Lower(s[a..b])
  {
    assert forall k :: 0 <= k < b - a ==> Lower(s)[a..b][k] == LowerChar(s[a..b][k]);
  }

  /** Lowercasing keeps a trimmed string trimmed. */
  lemma LowerTrimmed(t: string)
    requires IsTrimmed(t)
    ensures IsTrimmed(Lower(t))
  {
    if t != "" {
      LowerKeepsSpace(t[0]);
      LowerKeepsSpace(t[|t| - 1]);
    }
  }

  /** Lowercasing a trimmed string leaves nothing to trim. */
  lemma TrimOfLowerTrimmed(s: string)
    ensures Trim(Lower(Trim(s))) == Lower(Trim(s))
  {
    LowerTrimmed(Trim(s));
    TrimOfTrimmed(Lower(Trim(s)));
  }

  // ---------------------------------------------------------------------
  // String length
  // ---------------------------------------------------------------------

  /** The number of UTF-16 code units that encode `c`: two for a character
      outside the Basic Multilingual Plane, one otherwise. */
  function CodeUnits(c: char): (k: nat)
    ensures k == 1 || k == 2
    ensures k == 2 <==> 0x1_0000 <= c as int
  {
    if c as int < 0x1_0000 then 1 else 2
  }

  /** `s.length`: JavaScript strings count UTF-16 code units, so a
      character above U+FFFF counts twice. */
  function JsLength(s: string): (n: nat)
    ensures |s| <= n <= 2 * |s|
    ensures n == 0 <==> s == ""
  {
    if s == "" then 0 else CodeUnits(s[0]) + JsLength(s[1..])
  }

  /** The length of a concatenation is the sum of the lengths. */
  lemma {:induction false} JsLengthAppend(a: string, b: string)
    ensures JsLength(a + b) == JsLength(a) + JsLength(b)
    decreases |a|
  {
    if a == "" {
      assert a + b == b;
    } else {
      assert (a + b)[0] == a[0];
      assert (a + b)[1..] == a[1..] + b;
      JsLengthAppend(a[1..], b);
    }
  }

  /** Within the Basic Multilingual Plane the length is the number of
      characters. */
  lemma {:induction false} JsLengthBmp(s: string)
    requires forall i :: 0 <= i < |s| ==> s[i] as int < 0x1_0000
    ensures JsLength(s) == |s|
    decreases |s|
  {
    if s != "" {
      assert s[0] as int < 0x1_0000;
      JsLengthBmp(s[1..]);
    }
  }

  /** A character outside the Basic Multilingual Plane, such as an emoji,
      has length 2. */
  lemma JsLengthAstral(c: char)
    requires 0x1_0000 <= c as int
    ensures JsLength([c]) == 2
  {
    assert [c][1..] == "";
  }

  /** `sub` occurs in `s` starting at position `i`. */
  predicate OccursAt(s: string, sub: string, i: nat) {
    i + |sub| <= |s| && s[i..i + |sub|] == sub
  }

  /** `s.includes(sub)`: `sub` occurs at some position of `s`. */
  predicate Contains(s: string, sub: string) {
    exists i: nat | i <= |s| :: OccursAt(s, sub, i)
  }

  /** An occurrence at a known position makes `Contains` true. */
  lemma ContainsAt(s: string, sub: string, i: nat)
    requires OccursAt(s, sub, i)
    ensures Contains(s, sub)
  {
  }

  /** A string lacking one of `sub`'s characters cannot contain `sub`. */
  lemma NotContainsMissingChar(s: string, sub: string, c: char)
    requires c in sub && c !in s
    ensures !Contains(s, sub)
  {
    var k :| 0 <= k < |sub| && sub[k] == c;
    forall i: nat | i + |sub| <= |s|
      ensures !OccursAt(s, sub, i)
    {
      assert s[i..i + |sub|][k] == s[i + k];
    }
  }

  /** `s.split(',')[0]`: the part of `s` before its first comma (all of `s`
      when it has none). */
  function FirstSegment(s: string): (r: string)
    ensures r <= s
    ensures ',' !in r
    ensures |r| < |s| ==> s[|r|] == ','
  {
    if s == "" || s[0] == ',' then "" else [s[0]] + FirstSegment(s[1..])
  }

  /** `value || fallback` for an optional string: absent and "" both fall
      back. */
  function OrElse(value: Option<string>, fallback: string): (r: string)
    ensures value.Some? && value.value != "" ==> r == value.value
    ensures value.None? || value.value == "" ==> r == fallback
  {
    if value.Some? && value.value != "" then value.value else fallback
  }

  /** `value || null`: `None` exactly when the value is absent or "". */
  function OrNull(value: Option<string>): (r: Option<string>)
    ensures r.Some? <==> value.Some? && value.value != ""
    ensures r.Some? ==> r.value == value.value
  {
    if value.Some? && value.value != "" then value else None
  }
}
