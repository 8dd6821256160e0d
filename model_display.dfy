/** `getModelDisplayName` of public/main.js: a friendly label for a model identifier. */
module ModelDisplay {
  import opened Text

  const UnknownModel: string := "Unknown Model"

  /** The seven identifiers that have a hand-written label. */
  const DisplayNames: map<string, string> := map[
    "claude-3-5-sonnet-20241022" := "Claude 3.5 Sonnet",
    "claude-3-sonnet-20240229" := "Claude 3 Sonnet",
    "claude-3-haiku-20240307" := "Claude 3 Haiku",
    "claude-3-opus-20240229" := "Claude 3 Opus",
    "claude-2.1" := "Claude 2.1",
    "claude-2.0" := "Claude 2.0",
    "claude-instant-1.2" := "Claude Instant 1.2"
  ]

  /** `toUpperCase` on one character, for the Latin letters a-z. */
  function Upper(c: char): char {
    if 'a' <= c <= 'z' then (c as int - 32) as char else c
  }

  /** `word.charAt(0).toUpperCase() + word.slice(1)`. */
  function Capitalize(w: string): (r: string)
    ensures |r| == |w|
    ensures w != [] ==> r[0] == Upper(w[0])
    ensures forall i :: 1 <= i < |w| ==> r[i] == w[i]
  {
    if w == [] then [] else [Upper(w[0])] + w[1..]
  }

  /** `words.map(Capitalize)`. */
  function CapitalizeAll(words: seq<string>): (r: seq<string>)
    ensures |r| == |words|
    ensures forall i :: 0 <= i < |words| ==> r[i] == Capitalize(words[i])
  {
    if words == [] then [] else [Capitalize(words[0])] + CapitalizeAll(words[1..])
  }

  /**
   * Reference reading of `Prettify`, one character at a time: a hyphen becomes a space, the
   * first character of each hyphen-separated word is upper-cased, and every other character stays.
   */
  function PrettyAt(s: string, i: nat): char
    requires i < |s|
  {
    if s[i] == '-' then ' '
    else if i == 0 || s[i - 1] == '-' then Upper(s[i])
    else s[i]
  }

  /** Capitalising a leading hyphen-free word agrees with `PrettyAt` on it. */
  lemma CapitalizeFirstWord(s: string, k: nat)
    requires k <= |s|
    requires forall j :: 0 <= j < k ==> s[j] != '-'
    ensures |Capitalize(s[..k])| == k
    ensures forall i :: 0 <= i < k ==> Capitalize(s[..k])[i] == PrettyAt(s, i)
  {
    var w := s[..k];
    if k > 0 {
      assert Capitalize(w) == [Upper(w[0])] + w[1..];
      forall i | 1 <= i < k
        ensures Capitalize(w)[i] == PrettyAt(s, i)
      {
        assert Capitalize(w)[i] == w[1..][i - 1] == s[i];
        assert s[i - 1] != '-';
      }
    }
  }

  /** Past the first hyphen, prettifying is the first word, a space, and the rest prettified. */
  lemma PrettifyStep(s: string, k: nat)
    requires k == FirstIndexIn(s, {'-'}) && k < |s|
    ensures Join(CapitalizeAll(SplitOn(s, {'-'})), " ") ==
      Capitalize(s[..k]) + " " + Join(CapitalizeAll(SplitOn(s[k + 1..], {'-'})), " ")
  {
    var w := s[..k];
    var words := SplitOn(s[k + 1..], {'-'});
    assert SplitOn(s, {'-'}) == [w] + words;
    assert ([w] + words)[1..] == words;
    var tail := CapitalizeAll(words);
    assert CapitalizeAll([w] + words) == [Capitalize(w)] + tail;
    JoinCons(Capitalize(w), tail, " ");
  }

  /** A word prettified up to the first hyphen, a space, and the rest prettified, agree with `PrettyAt` at every position. */
  lemma PrettyAtAfterFirstWord(s: string, k: nat, head: string, q: string, i: nat)
    requires k == FirstIndexIn(s, {'-'}) && k < |s|
    requires |head| == k && forall j :: 0 <= j < k ==> head[j] == PrettyAt(s, j)
    requires |q| == |s| - k - 1 && forall j :: 0 <= j < |q| ==> q[j] == PrettyAt(s[k + 1..], j)
    requires i < |s|
    ensures (head + " " + q)[i] == PrettyAt(s, i)
  {
    var rest := s[k + 1..];
    if i > k + 1 {
      assert (head + " " + q)[i] == q[i - k - 1];
      assert s[i - 1] == rest[i - k - 2];
      assert PrettyAt(s, i) == PrettyAt(rest, i - k - 1);
    } else if i == k + 1 {
      assert (head + " " + q)[i] == q[0];
      assert PrettyAt(s, i) == PrettyAt(rest, 0);
    }
  }

  /** Splitting at hyphens, capitalising and joining with spaces keeps the length and agrees with `PrettyAt` at every position. */
  lemma {:induction false} PrettifyPointwise(s: string)
    ensures var p := Join(CapitalizeAll(SplitOn(s, {'-'})), " ");
      |p| == |s| && forall i :: 0 <= i < |s| ==> p[i] == PrettyAt(s, i)
    decreases |s|
  {
    var p := Join(CapitalizeAll(SplitOn(s, {'-'})), " ");
    var k := FirstIndexIn(s, {'-'});
    CapitalizeFirstWord(s, k);
    if k == |s| {
      assert SplitOn(s, {'-'}) == [s];
      assert s[..k] == s;
      assert p == Capitalize(s);
    } else {
      var rest := s[k + 1..];
      PrettifyPointwise(rest);
      PrettifyStep(s, k);
      var head := Capitalize(s[..k]);
      var q := Join(CapitalizeAll(SplitOn(rest, {'-'})), " ");
      forall i | 0 <= i < |s| ensures p[i] == PrettyAt(s, i) {
        PrettyAtAfterFirstWord(s, k, head, q, i);
      }
    }
  }

  /** `modelId.split('-').map(Capitalize).join(' ')`: hyphens become spaces and each word starts upper-cased. */
  function Prettify(modelId: string): (r: string)
    ensures |r| == |modelId|
    ensures forall i :: 0 <= i < |modelId| ==> r[i] == PrettyAt(modelId, i)
  {
    PrettifyPointwise(modelId);
    Join(CapitalizeAll(SplitOn(modelId, {'-'})), " ")
  }

  /** `getModelDisplayName(modelId)`; the empty string is the only falsy string. */
  function GetModelDisplayName(modelId: string): (r: string)
    ensures modelId == "" ==> r == UnknownModel
    ensures modelId != "" && modelId in DisplayNames ==> r == DisplayNames[modelId]
  {
    if modelId == "" then UnknownModel
    else if modelId in DisplayNames then DisplayNames[modelId]
    else Prettify(modelId)
  }

  /** Outside the table, a non-empty identifier is prettified: words of `s` and of the label match one to one. */
  lemma DisplayNameOutsideTable(modelId: string)
    requires modelId != "" && modelId !in DisplayNames
    ensures |GetModelDisplayName(modelId)| == |modelId|
    ensures forall i :: 0 <= i < |modelId| ==> GetModelDisplayName(modelId)[i] == PrettyAt(modelId, i)
    ensures |SplitOn(modelId, {'-'})| == CountIn(modelId, {'-'}) + 1
  {
    SplitOnCount(modelId, {'-'});
  }
}
