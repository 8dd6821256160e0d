/**
 * String helpers with the semantics of the JavaScript built-ins the application uses:
 * `startsWith`, `endsWith`, `split`, `join`, and the white-space set of `trim`.
 */
module Text {

  /** `s.startsWith(p)`. */
  predicate StartsWith(s: string, p: string) {
    |p| <= |s| && s[..|p|] == p
  }

  /** `s.endsWith(p)`. */
  predicate EndsWith(s: string, p: string) {
    |p| <= |s| && s[|s| - |p|..] == p
  }

  /** Index of the first character of `s` that belongs to `seps`, or `|s|` when there is none. */
  function FirstIndexIn(s: string, seps: set<char>): (k: nat)
    ensures k <= |s|
    ensures forall j :: 0 <= j < k ==> s[j] !in seps
    ensures k < |s| ==> s[k] in seps
  {
    if s == [] then 0
    else if s[0] in seps then 0
    else 1 + FirstIndexIn(s[1..], seps)
  }

  /** Number of characters of `s` that belong to `seps`. */
  function CountIn(s: string, seps: set<char>): nat {
    if s == [] then 0 else (if s[0] in seps then 1 else 0) + CountIn(s[1..], seps)
  }

  /**
   * Splits `s` at every character of `seps`, dropping the separators, as `String.prototype.split`
   * does with a one-character separator: the empty string gives one empty piece, and a separator at
   * either end gives an empty piece there.
   */
  function SplitOn(s: string, seps: set<char>): (parts: seq<string>)
    ensures |parts| >= 1
    ensures forall i, j :: 0 <= i < |parts| && 0 <= j < |parts[i]| ==> parts[i][j] !in seps
    decreases |s|
  {
    var k := FirstIndexIn(s, seps);
    if k == |s| then [s] else [s[..k]] + SplitOn(s[k + 1..], seps)
  }

  /** `parts.join(sep)`: an empty array joins to the empty string. */
  function Join(parts: seq<string>, sep: string): string {
    if parts == [] then ""
    else if |parts| == 1 then parts[0]
    else parts[0] + sep + Join(parts[1..], sep)
  }

  /** Splitting yields one more piece than there are separators. */
  lemma {:induction false} SplitOnCount(s: string, seps: set<char>)
    ensures |SplitOn(s, seps)| == CountIn(s, seps) + 1
    decreases |s|
  {
    var k := FirstIndexIn(s, seps);
    CountInPrefixFree(s, seps, k);
    if k < |s| {
      SplitOnCount(s[k + 1..], seps);
    }
  }

  /** Characters before the first separator contribute nothing to the count. */
  lemma {:induction false} CountInPrefixFree(s: string, seps: set<char>, k: nat)
    requires k <= |s|
    requires forall j :: 0 <= j < k ==> s[j] !in seps
    ensures CountIn(s, seps) == CountIn(s[k..], seps)
  {
    if k > 0 {
      assert s[1..][k - 1..] == s[k..];
      CountInPrefixFree(s[1..], seps, k - 1);
    }
  }

  /** Joining an element in front of a non-empty sequence puts one separator after it. */
  lemma JoinCons(head: string, tail: seq<string>, sep: string)
    requires tail != []
    ensures Join([head] + tail, sep) == head + sep + Join(tail, sep)
  {
    assert ([head] + tail)[1..] == tail;
  }

  /** Joining the pieces of a split on a single character with that character gives back the input. */
  lemma {:induction false} JoinSplitOn(s: string, c: char)
    ensures Join(SplitOn(s, {c}), [c]) == s
    decreases |s|
  {
    var k := FirstIndexIn(s, {c});
    if k < |s| {
      var rest := SplitOn(s[k + 1..], {c});
      JoinSplitOn(s[k + 1..], c);
      assert SplitOn(s, {c}) == [s[..k]] + rest;
      JoinCons(s[..k], rest, [c]);
      assert s == s[..k] + [c] + s[k + 1..];
    } else {
      assert SplitOn(s, {c}) == [s];
    }
  }

  /**
   * The characters that `String.prototype.trim` removes: the WhiteSpace and LineTerminator
   * productions of ECMAScript (section 12.2 and 12.3 of ECMA-262).
   */
  predicate IsJsWhiteSpace(c: char) {
    c == '\t' || c == '\n' || c == '\U{000B}' || c == '\U{000C}' || c == '\r' || c == ' '
    || c == '\U{00A0}' || c == '\U{1680}' || ('\U{2000}' <= c <= '\U{200A}')
    || c == '\U{2028}' || c == '\U{2029}' || c == '\U{202F}' || c == '\U{205F}' || c == '\U{3000}'
    || c == '\U{FEFF}'
  }

  /** `s.trim() === ''`: every character of `s` is white space. */
  predicate IsBlank(s: string) {
    forall i :: 0 <= i < |s| ==> IsJsWhiteSpace(s[i])
  }
}
