/**
 * The string operations the views use: `toLowerCase`, `includes` and `trim`.
 * A JavaScript string is modelled as a sequence of characters.
 */
module Text {

  /** `toLowerCase` on one character (ASCII letters only). */
  function LowerChar(c: char): char {
    if 'A' <= c <= 'Z' then (c as int + 32) as char else c
  }

  predicate IsUpper(c: char) {
    'A' <= c <= 'Z'
  }

  /** `s.toLowerCase()`. */
  function Lower(s: string): (r: string)
    ensures |r| == |s|
    ensures forall i :: 0 <= i < |s| ==> r[i] == LowerChar(s[i])
    ensures forall i :: 0 <= i < |r| ==> !IsUpper(r[i])
  {
    if s == [] then [] else [LowerChar(s[0])] + Lower(s[1..])
  }

  /** Lower-casing a string twice is the same as lower-casing it once. */
  lemma LowerIdempotent(s: string)
    ensures Lower(Lower(s)) == Lower(s)
  {
  }

  /** Lower-casing commutes with taking a slice. */
  lemma LowerSlice(s: string, i: nat, j: nat)
    requires i <= j <= |s|
    ensures Lower(s)[i..j] == Lower(s[i..j])
  {
    var t := s[i..j];
    var a := Lower(s)[i..j];
    assert forall k :: 0 <= k < |t| ==> a[k] == LowerChar(t[k]) by {
      forall k | 0 <= k < |t| ensures a[k] == LowerChar(t[k]) {
        assert a[k] == Lower(s)[i + k];
      }
    }
    LowerUnique(a, t);
  }

  /** Lower-casing is determined character by character. */
  lemma LowerUnique(a: string, t: string)
    requires |a| == |t|
    requires forall k :: 0 <= k < |t| ==> a[k] == LowerChar(t[k])
    ensures a == Lower(t)
  {
  }

  /** `q` occurs in `s` starting at position `i`. */
  ghost predicate OccursAt(s: string, q: string, i: int) {
    0 <= i && i + |q| <= |s| && s[i..i + |q|] == q
  }

  /** `s.includes(q)`: whether `q` occurs anywhere in `s`; the empty string occurs everywhere. */
  function Includes(s: string, q: string): (r: bool)
    ensures r <==> exists i :: OccursAt(s, q, i)
    decreases |s|
  {
    if |q| <= |s| && s[..|q|] == q then
      assert OccursAt(s, q, 0);
      true
    else if s == [] then
      false
    else
      OccursShift(s, q);
      Includes(s[1..], q)
  }

  /** An occurrence in `s` that is not at the start is an occurrence in `s[1..]`, one position earlier. */
  lemma OccursShift(s: string, q: string)
    requires s != []
    requires !(|q| <= |s| && s[..|q|] == q)
    ensures (exists i :: OccursAt(s, q, i)) <==> (exists i :: OccursAt(s[1..], q, i))
  {
    if i :| OccursAt(s, q, i) {
      assert i != 0;
      assert s[1..][i - 1..i - 1 + |q|] == s[i..i + |q|];
      assert OccursAt(s[1..], q, i - 1);
    }
    if i :| OccursAt(s[1..], q, i) {
      assert s[1..][i..i + |q|] == s[i + 1..i + 1 + |q|];
      assert OccursAt(s, q, i + 1);
    }
  }

  /**
   * The search rule of every list view: `text.toLowerCase().includes(query.toLowerCase())`.
   */
  predicate MatchesQuery(text: string, query: string) {
    Includes(Lower(text), Lower(query))
  }

  /** The empty query matches every text. */
  lemma EmptyQueryMatches(text: string)
    ensures MatchesQuery(text, "")
  {
    assert OccursAt(Lower(text), Lower(""), 0);
  }

  /** Matching ignores the case of the query and of the text. */
  lemma MatchesIgnoresCase(text: string, query: string)
    ensures MatchesQuery(text, query) == MatchesQuery(text, Lower(query))
    ensures MatchesQuery(text, query) == MatchesQuery(Lower(text), query)
  {
    LowerIdempotent(query);
    LowerIdempotent(text);
  }

  /** A query that occurs verbatim in the text matches it. */
  lemma VerbatimOccurrenceMatches(text: string, query: string, i: nat)
    requires OccursAt(text, query, i)
    ensures MatchesQuery(text, query)
  {
    LowerSlice(text, i, i + |query|);
    assert OccursAt(Lower(text), Lower(query), i);
  }

  /**
   * The characters `String.prototype.trim` removes: ECMAScript's WhiteSpace
   * and LineTerminator code points.
   */
  predicate IsJsWhitespace(c: char) {
    c == '\t' || c == '\n' || c == '\U{000B}' || c == '\U{000C}' || c == '\r' || c == ' '
    || c == '\U{00A0}' || c == '\U{1680}' || ('\U{2000}' <= c <= '\U{200A}')
    || c == '\U{2028}' || c == '\U{2029}' || c == '\U{202F}' || c == '\U{205F}'
    || c == '\U{3000}' || c == '\U{FEFF}'
  }

  /** `s` with its leading whitespace removed: a suffix of `s` that does not start with whitespace. */
  function TrimStart(s: string): (r: string)
    ensures |r| <= |s| && r == s[|s| - |r|..]
    ensures forall i :: 0 <= i < |s| - |r| ==> IsJsWhitespace(s[i])
    ensures r != [] ==> !IsJsWhitespace(r[0])
  {
    if s != [] && IsJsWhitespace(s[0]) then TrimStart(s[1..]) else s
  }

  /** `s` with its trailing whitespace removed: a prefix of `s` that does not end with whitespace. */
  function TrimEnd(s: string): (r: string)
    ensures |r| <= |s| && r == s[..|r|]
    ensures forall i :: |r| <= i < |s| ==> IsJsWhitespace(s[i])
    ensures r != [] ==> !IsJsWhitespace(r[|r| - 1])
  {
    if s != [] && IsJsWhitespace(s[|s| - 1]) then TrimEnd(s[..|s| - 1]) else s
  }

  /** `s.trim()`. */
  function Trim(s: string): string {
    TrimEnd(TrimStart(s))
  }

  /** Every character of `s` is whitespace. */
  ghost predicate AllWhitespace(s: string) {
    forall i :: 0 <= i < |s| ==> IsJsWhitespace(s[i])
  }

  lemma TrimStartEmptyIff(s: string)
    ensures TrimStart(s) == "" <==> AllWhitespace(s)
  {
  }

  lemma TrimEndEmptyIff(s: string)
    ensures TrimEnd(s) == "" <==> AllWhitespace(s)
  {
  }

  /** A string trims to the empty string if and only if every character of it is whitespace. */
  lemma TrimEmptyIff(s: string)
    ensures Trim(s) == "" <==> AllWhitespace(s)
  {
    var t := TrimStart(s);
    TrimStartEmptyIff(s);
    TrimEndEmptyIff(t);
  }
}
