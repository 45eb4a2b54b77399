/**
 * The JavaScript string operations the chat page uses, on Dafny strings.
 * A Dafny `char` is a Unicode scalar value; JavaScript strings are sequences
 * of UTF-16 code units. The two agree on text inside the Basic Multilingual
 * Plane, which is what these definitions assume except in `FirstCodeUnit`,
 * which gives the exact `charCodeAt(0)` value for every character.
 */
module JsText {

  /**
   * The code points `String.prototype.trim` removes: the ECMAScript
   * WhiteSpace set (tab, vertical tab, form feed, space, no-break space,
   * the byte order mark and the other space separators) and the
   * LineTerminator set (line feed, carriage return, line and paragraph
   * separators).
   */
  predicate IsWhitespace(c: char) {
    || c == '\t' || c == '\n' || c == '\U{000B}' || c == '\U{000C}' || c == '\r'
    || c == ' ' || c == '\U{00A0}' || c == '\U{1680}'
    || ('\U{2000}' <= c <= '\U{200A}')
    || c == '\U{2028}' || c == '\U{2029}' || c == '\U{202F}' || c == '\U{205F}'
    || c == '\U{3000}' || c == '\U{FEFF}'
  }

  /** The number of whitespace characters at the start of `s`. */
  function LeadingWhitespace(s: string): (k: nat)
    ensures k <= |s|
    ensures forall m :: 0 <= m < k ==> IsWhitespace(s[m])
    ensures k == |s| || !IsWhitespace(s[k])
  {
    if s != [] && IsWhitespace(s[0]) then 1 + LeadingWhitespace(s[1..]) else 0
  }

  /** The length of `s` once the whitespace at its end is cut off. */
  function TrailingStart(s: string): (k: nat)
    ensures k <= |s|
    ensures forall m :: k <= m < |s| ==> IsWhitespace(s[m])
    ensures k == 0 || !IsWhitespace(s[k - 1])
  {
    if s != [] && IsWhitespace(s[|s| - 1]) then TrailingStart(s[..|s| - 1]) else |s|
  }

  /** `s.trim()`: the part of `s` between its leading and trailing whitespace. */
  function Trim(s: string): (r: string)
    ensures r == [] || (!IsWhitespace(r[0]) && !IsWhitespace(r[|r| - 1]))
    ensures exists i, j :: 0 <= i <= j <= |s| && r == s[i..j]
                        && (forall m :: 0 <= m < i ==> IsWhitespace(s[m]))
                        && (forall m :: j <= m < |s| ==> IsWhitespace(s[m]))
  {
    var i := LeadingWhitespace(s);
    var t := s[i..];
    var j := TrailingStart(t);
    assert t[..j] == s[i..i + j];
    assert forall m :: i + j <= m < |s| ==> s[m] == t[m - i];
    t[..j]
  }

  /** A trimmed string is empty exactly when the string was all whitespace. */
  lemma TrimEmptyIffBlank(s: string)
    ensures Trim(s) == [] <==> forall m :: 0 <= m < |s| ==> IsWhitespace(s[m])
  {
  }

  /** Trimming twice changes nothing more. */
  lemma TrimIdempotent(s: string)
    ensures Trim(Trim(s)) == Trim(s)
  {
    var r := Trim(s);
    assert LeadingWhitespace(r) == 0;
    assert r[0..] == r;
    assert TrailingStart(r) == |r|;
    assert r[..|r|] == r;
  }

  /** `toLowerCase` on one character, restricted to ASCII letters. */
  function LowerChar(c: char): char {
    if 'A' <= c <= 'Z' then (c as int + 32) as char else c
  }

  /** `toUpperCase` on one character, restricted to ASCII letters. */
  function UpperChar(c: char): char {
    if 'a' <= c <= 'z' then (c as int - 32) as char else c
  }

  function ToLowerCase(s: string): string {
    seq(|s|, i requires 0 <= i < |s| => LowerChar(s[i]))
  }

  function ToUpperCase(s: string): string {
    seq(|s|, i requires 0 <= i < |s| => UpperChar(s[i]))
  }

  /** `s.startsWith(p)`. */
  predicate StartsWith(s: string, p: string) {
    |p| <= |s| && s[..|p|] == p
  }

  /** `s.includes(q)`: `q` starts at the front of `s` or somewhere after it. */
  predicate Includes(s: string, q: string)
    decreases |s|
  {
    StartsWith(s, q) || (s != [] && Includes(s[1..], q))
  }

  /** `q` occurs in `s` starting at position `i`. */
  predicate OccursAt(s: string, q: string, i: nat) {
    i + |q| <= |s| && s[i..i + |q|] == q
  }

  /** `Includes` finds `q` exactly when `q` occurs at some position of `s`. */
  lemma {:induction false} IncludesIffOccurs(s: string, q: string)
    ensures Includes(s, q) <==> exists i: nat :: OccursAt(s, q, i)
  {
    if s == [] {
      if Includes(s, q) {
        assert OccursAt(s, q, 0);
      }
    } else {
      IncludesIffOccurs(s[1..], q);
      if Includes(s, q) {
        if StartsWith(s, q) {
          assert OccursAt(s, q, 0);
        } else {
          var i: nat :| OccursAt(s[1..], q, i);
          assert s[1..][i..i + |q|] == s[i + 1..i + 1 + |q|];
          assert OccursAt(s, q, i + 1);
        }
      } else {
        forall i: nat
          ensures !OccursAt(s, q, i)
        {
          if i == 0 && |q| <= |s| {
            assert s[..|q|] == s[0..0 + |q|];
          } else if i > 0 && i + |q| <= |s| {
            assert s[1..][i - 1..i - 1 + |q|] == s[i..i + |q|];
            assert !OccursAt(s[1..], q, i - 1);
          }
        }
      }
    }
  }

  /** `s.split(sep)`: the pieces between separators; there is always at least one. */
  function Split(s: string, sep: char): (words: seq<string>)
    ensures |words| >= 1
    ensures forall w :: w in words ==> sep !in w
  {
    if s == [] then [[]]
    else
      var rest := Split(s[1..], sep);
      if s[0] == sep then [[]] + rest
      else [[s[0]] + rest[0]] + rest[1..]
  }

  /** `words.join(sep)`. */
  function Join(words: seq<string>, sep: char): string {
    if words == [] then []
    else if |words| == 1 then words[0]
    else words[0] + [sep] + Join(words[1..], sep)
  }

  /** Joining the pieces of a split with the same separator gives the string back. */
  lemma {:induction false} JoinSplit(s: string, sep: char)
    ensures Join(Split(s, sep), sep) == s
  {
    if s != [] {
      var rest := Split(s[1..], sep);
      JoinSplit(s[1..], sep);
      if s[0] == sep {
        assert ([[]] + rest)[1..] == rest;
      } else {
        var words := [[s[0]] + rest[0]] + rest[1..];
        if |rest| > 1 {
          assert words[1..] == rest[1..];
          assert Join(rest, sep) == rest[0] + [sep] + Join(rest[1..], sep);
        }
      }
    }
  }

  /**
   * `s.charCodeAt(0)` for a non-empty string: the first UTF-16 code unit,
   * which for a character outside the Basic Multilingual Plane is its high
   * surrogate.
   */
  function FirstCodeUnit(s: string): (u: nat)
    requires s != []
    ensures u < 0x1_0000
    ensures s[0] as int < 0x1_0000 ==> u == s[0] as int
    ensures s[0] as int >= 0x1_0000 ==> 0xD800 <= u < 0xDC00
  {
    var c := s[0] as int;
    if c < 0x1_0000 then c else 0xD800 + (c - 0x1_0000) / 0x400
  }
}
