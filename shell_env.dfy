/**
 * What `setSystemEnvironmentVariables` and `writeClaudeConfigFile` of public/main.js write when a
 * source is switched to: the `setx` assignments on Windows, the rewritten shell start-up files
 * elsewhere, and the `config.json` and `claude.env` files. File access is not modelled: the
 * method and functions take the files' old contents and give the new ones.
 */
module ShellEnv {
  import opened Wrappers
  import opened Text

  const TokenPrefix: string := "export ANTHROPIC_AUTH_TOKEN="
  const BasePrefix: string := "export ANTHROPIC_BASE_URL="
  const ModelPrefix: string := "export ANTHROPIC_MODEL="
  const BlockHeader: string := "\n\n# Claude API Configuration (auto-generated)\n"
  const DefaultModel: string := "claude-3-5-sonnet-20241022"

  /** The characters at which `^` and `$` match in a multi-line regular expression. */
  const LineTerminators: set<char> := {'\n', '\r', '\U{2028}', '\U{2029}'}

  /** `source.model` is truthy. */
  predicate HasModel(model: Option<string>) {
    model.Some? && model.value != ""
  }

  /** A line matched by `^<prefix>.*$` for one of the prefixes becomes empty. */
  function Blank(line: string, prefixes: seq<string>): string {
    if exists i :: 0 <= i < |prefixes| && StartsWith(line, prefixes[i]) then "" else line
  }

  /** `lines.map(line => Blank(line, prefixes))` */
  function BlankAll(lines: seq<string>, prefixes: seq<string>): (r: seq<string>)
    ensures |r| == |lines|
    ensures forall i :: 0 <= i < |lines| ==> r[i] == Blank(lines[i], prefixes)
  {
    if lines == [] then [] else [Blank(lines[0], prefixes)] + BlankAll(lines[1..], prefixes)
  }

  /**
   * `content.replace(/^<prefix>.*$/gm, '')` for every prefix at once: each line that starts with
   * one of them loses its text, its line terminator stays.
   */
  function StripLines(s: string, prefixes: seq<string>): string
    decreases |s|
  {
    var k := FirstIndexIn(s, LineTerminators);
    var kept := Blank(s[..k], prefixes);
    if k == |s| then kept else kept + [s[k]] + StripLines(s[k + 1..], prefixes)
  }

  /** The first terminator of a text that starts with a terminator-free line is the one after that line. */
  lemma FirstIndexAfterLine(line: string, t: char, rest: string)
    requires forall j :: 0 <= j < |line| ==> line[j] !in LineTerminators
    requires t in LineTerminators
    ensures FirstIndexIn(line + [t] + rest, LineTerminators) == |line|
  {
    var s := line + [t] + rest;
    assert s[|line|] == t;
    assert forall j :: 0 <= j < |line| ==> s[j] == line[j];
  }

  /** Blanking keeps a line free of terminators. */
  lemma BlankNoTerminators(line: string, prefixes: seq<string>)
    requires forall j :: 0 <= j < |line| ==> line[j] !in LineTerminators
    ensures forall j :: 0 <= j < |Blank(line, prefixes)| ==> Blank(line, prefixes)[j] !in LineTerminators
  {
  }

  /** Splitting a text that starts with a terminator-free line and a terminator gives that line, then the rest's lines. */
  lemma SplitOnAfterLine(line: string, t: char, rest: string)
    requires forall j :: 0 <= j < |line| ==> line[j] !in LineTerminators
    requires t in LineTerminators
    ensures SplitOn(line + [t] + rest, LineTerminators) == [line] + SplitOn(rest, LineTerminators)
  {
    var s := line + [t] + rest;
    FirstIndexAfterLine(line, t, rest);
    assert s[..|line|] == line;
    assert s[|line| + 1..] == rest;
  }

  /** `BlankAll` of a line in front of others. */
  lemma BlankAllCons(line: string, lines: seq<string>, prefixes: seq<string>)
    ensures BlankAll([line] + lines, prefixes) == [Blank(line, prefixes)] + BlankAll(lines, prefixes)
  {
    assert ([line] + lines)[1..] == lines;
  }

  /** A terminator-free text is one line. */
  lemma SplitOnOneLine(line: string)
    requires forall j :: 0 <= j < |line| ==> line[j] !in LineTerminators
    ensures SplitOn(line, LineTerminators) == [line]
  {
    assert FirstIndexIn(line, LineTerminators) == |line|;
  }

  /** Seen as lines, stripping blanks the matching lines and keeps all others, in order. */
  lemma {:induction false} StripLinesByLine(s: string, prefixes: seq<string>)
    ensures SplitOn(StripLines(s, prefixes), LineTerminators) == BlankAll(SplitOn(s, LineTerminators), prefixes)
    decreases |s|
  {
    var k := FirstIndexIn(s, LineTerminators);
    var line := s[..k];
    var kept := Blank(line, prefixes);
    BlankNoTerminators(line, prefixes);
    if k == |s| {
      assert line == s;
      SplitOnOneLine(kept);
      SplitOnOneLine(s);
    } else {
      var rest := s[k + 1..];
      var strippedRest := StripLines(rest, prefixes);
      var restLines := SplitOn(rest, LineTerminators);
      StripLinesByLine(rest, prefixes);
      assert StripLines(s, prefixes) == kept + [s[k]] + strippedRest;
      SplitOnAfterLine(kept, s[k], strippedRest);
      assert SplitOn(s, LineTerminators) == [line] + restLines;
      BlankAllCons(line, restLines, prefixes);
    }
  }

  /** Blanking with one list of non-empty prefixes and then another is blanking with both. */
  lemma BlankTwice(line: string, ps: seq<string>, qs: seq<string>)
    requires forall i :: 0 <= i < |qs| ==> qs[i] != ""
    ensures Blank(Blank(line, ps), qs) == Blank(line, ps + qs)
  {
    if exists i :: 0 <= i < |ps| && StartsWith(line, ps[i]) {
      var i :| 0 <= i < |ps| && StartsWith(line, ps[i]);
      assert (ps + qs)[i] == ps[i];
    } else if exists i :: 0 <= i < |qs| && StartsWith(line, qs[i]) {
      var i :| 0 <= i < |qs| && StartsWith(line, qs[i]);
      assert (ps + qs)[|ps| + i] == qs[i];
    } else {
      forall i | 0 <= i < |ps + qs| ensures !StartsWith(line, (ps + qs)[i]) {
        if i >= |ps| {
          assert (ps + qs)[i] == qs[i - |ps|];
        }
      }
    }
  }

  /** Two successive replacements are a single one with both prefixes: the three calls of the source compose. */
  lemma {:induction false} StripLinesTwice(s: string, ps: seq<string>, qs: seq<string>)
    requires forall i :: 0 <= i < |qs| ==> qs[i] != ""
    ensures StripLines(StripLines(s, ps), qs) == StripLines(s, ps + qs)
    decreases |s|
  {
    var k := FirstIndexIn(s, LineTerminators);
    var kept := Blank(s[..k], ps);
    BlankNoTerminators(s[..k], ps);
    BlankTwice(s[..k], ps, qs);
    if k == |s| {
      assert FirstIndexIn(kept, LineTerminators) == |kept|;
      assert kept[..|kept|] == kept;
    } else {
      var rest := s[k + 1..];
      StripLinesTwice(rest, ps, qs);
      FirstIndexAfterLine(kept, s[k], StripLines(rest, ps));
      var mid := kept + [s[k]] + StripLines(rest, ps);
      assert mid[..|kept|] == kept;
      assert mid[|kept|] == s[k];
      assert mid[|kept| + 1..] == StripLines(rest, ps);
    }
  }

  /** The `export` lines of the generated block; the model line only when a model is set. */
  function EnvVars(key: string, base: string, model: Option<string>): (r: seq<string>)
    ensures |r| == if HasModel(model) then 3 else 2
    ensures r[0] == TokenPrefix + "\"" + key + "\"" && r[1] == BasePrefix + "\"" + base + "\""
    ensures HasModel(model) ==> r[2] == ModelPrefix + "\"" + model.value + "\""
  {
    var lines := [TokenPrefix + "\"" + key + "\"", BasePrefix + "\"" + base + "\""];
    if HasModel(model) then lines + [ModelPrefix + "\"" + model.value + "\""] else lines
  }

  /** No line but the model line of the block starts with the model prefix: the block exports a model exactly when one is set. */
  lemma EnvVarsModelLine(key: string, base: string, model: Option<string>)
    ensures var r := EnvVars(key, base, model);
      (exists i :: 0 <= i < |r| && StartsWith(r[i], ModelPrefix)) <==> HasModel(model)
  {
    var r := EnvVars(key, base, model);
    assert r[0][..|TokenPrefix|] == TokenPrefix && r[1][..|BasePrefix|] == BasePrefix;
    assert TokenPrefix[17] == 'A' && BasePrefix[17] == 'B' && ModelPrefix[17] == 'M';
    assert r[0][17] == TokenPrefix[17] && r[1][17] == BasePrefix[17];
    assert !StartsWith(r[0], ModelPrefix) && !StartsWith(r[1], ModelPrefix);
  }

  /** The new content of one start-up file: the three replacements, then the generated block, which ends the file. */
  function RewriteRc(content: string, key: string, base: string, model: Option<string>): (r: string)
    ensures EndsWith(r, BlockHeader + Join(EnvVars(key, base, model), "\n") + "\n")
  {
    var c := StripLines(content, [TokenPrefix]);
    var c' := StripLines(c, [BasePrefix]);
    var c'' := StripLines(c', [ModelPrefix]);
    var block := BlockHeader + Join(EnvVars(key, base, model), "\n") + "\n";
    var r := c'' + BlockHeader + Join(EnvVars(key, base, model), "\n") + "\n";
    assert r == c'' + block;
    assert r[|c''|..] == block;
    r
  }

  /** The three replacements of `RewriteRc` are one replacement with all three prefixes. */
  lemma StripThreeAtOnce(content: string)
    ensures StripLines(StripLines(StripLines(content, [TokenPrefix]), [BasePrefix]), [ModelPrefix])
      == StripLines(content, [TokenPrefix, BasePrefix, ModelPrefix])
  {
    StripLinesTwice(content, [TokenPrefix], [BasePrefix]);
    assert [TokenPrefix] + [BasePrefix] == [TokenPrefix, BasePrefix];
    StripLinesTwice(content, [TokenPrefix, BasePrefix], [ModelPrefix]);
    assert [TokenPrefix, BasePrefix] + [ModelPrefix] == [TokenPrefix, BasePrefix, ModelPrefix];
  }

  /**
   * The rewritten file is the old one with every old export line of the three variables emptied
   * (all other lines kept, in order), followed by the block.
   */
  lemma RewriteRcSpec(content: string, key: string, base: string, model: Option<string>)
    ensures var stripped := StripLines(content, [TokenPrefix, BasePrefix, ModelPrefix]);
      && RewriteRc(content, key, base, model) == stripped + BlockHeader + Join(EnvVars(key, base, model), "\n") + "\n"
      && SplitOn(stripped, LineTerminators) == BlankAll(SplitOn(content, LineTerminators), [TokenPrefix, BasePrefix, ModelPrefix])
  {
    StripThreeAtOnce(content);
    StripLinesByLine(content, [TokenPrefix, BasePrefix, ModelPrefix]);
  }

  /** The loop over `~/.bashrc`, `~/.zshrc` and `~/.profile`: a file that exists (`Some`) is rewritten, a missing one skipped. */
  method RewriteShellFiles(files: seq<Option<string>>, key: string, base: string, model: Option<string>)
    returns (written: seq<Option<string>>)
    ensures |written| == |files|
    ensures forall i :: 0 <= i < |files| ==>
      written[i] == if files[i].Some? then Some(RewriteRc(files[i].value, key, base, model)) else None
  {
    var envVars := EnvVars(key, base, model);
    written := [];
    var i := 0;
    while i < |files|
      invariant 0 <= i <= |files| && |written| == i
      invariant forall j :: 0 <= j < i ==>
        written[j] == if files[j].Some? then Some(RewriteRc(files[j].value, key, base, model)) else None
    {
      if files[i].Some? {
        var content := files[i].value;
        content := StripLines(content, [TokenPrefix]);
        content := StripLines(content, [BasePrefix]);
        content := StripLines(content, [ModelPrefix]);
        content := content + BlockHeader;
        content := content + Join(envVars, "\n") + "\n";
        assert content == RewriteRc(files[i].value, key, base, model);
        written := written + [Some(content)];
      } else {
        written := written + [None];
      }
      i := i + 1;
    }
  }

  /** The `setx` calls on Windows: name and value of each user variable, the model only when set. */
  function SetxCommands(key: string, base: string, model: Option<string>): (r: seq<(string, string)>)
    ensures |r| == if HasModel(model) then 3 else 2
    ensures r[0] == ("ANTHROPIC_AUTH_TOKEN", key) && r[1] == ("ANTHROPIC_BASE_URL", base)
    ensures HasModel(model) ==> r[2] == ("ANTHROPIC_MODEL", model.value)
  {
    [("ANTHROPIC_AUTH_TOKEN", key), ("ANTHROPIC_BASE_URL", base)]
      + if HasModel(model) then [("ANTHROPIC_MODEL", model.value)] else []
  }

  /** The content of `~/.claude/config.json`. */
  datatype ClaudeConfig = ClaudeConfig(apiKey: string, apiBase: string, model: string, lastUpdated: string)

  /** `{ apiKey, apiBase, model: source.model || 'claude-3-5-sonnet-20241022', lastUpdated }` */
  function ConfigFor(key: string, base: string, model: Option<string>, now: string): (r: ClaudeConfig)
    ensures r.apiKey == key && r.apiBase == base && r.lastUpdated == now
    ensures r.model == if HasModel(model) then model.value else DefaultModel
  {
    ClaudeConfig(key, base, if HasModel(model) then model.value else DefaultModel, now)
  }

  /** `lines.filter(Boolean)` */
  function NonEmpty(lines: seq<string>): (r: seq<string>)
    ensures |r| <= |lines|
    ensures forall x :: x in r <==> x in lines && x != ""
  {
    if lines == [] then [] else (if lines[0] != "" then [lines[0]] else []) + NonEmpty(lines[1..])
  }

  /** `filter(Boolean)` over lines that are all non-empty keeps them all. */
  lemma {:induction false} NonEmptyKeeps(lines: seq<string>)
    requires forall i :: 0 <= i < |lines| ==> lines[i] != ""
    ensures NonEmpty(lines) == lines
  {
    if lines != [] {
      NonEmptyKeeps(lines[1..]);
      assert [lines[0]] + lines[1..] == lines;
    }
  }

  /** The four candidate lines, the third empty exactly when there is no model, filtered and joined. */
  lemma EnvLinesJoin(t: string, b: string, m: string, c: string, withModel: bool)
    requires t != "" && b != "" && c != ""
    requires withModel <==> m != ""
    ensures Join(NonEmpty([t, b, m, c]), "\n") ==
      t + "\n" + b + "\n" + (if withModel then m + "\n" else "") + c
  {
    assert [t, b, m, c][1..] == [b, m, c] && [b, m, c][1..] == [m, c];
    assert Join([c], "\n") == c;
    if withModel {
      NonEmptyKeeps([t, b, m, c]);
      JoinCons(m, [c], "\n");
      JoinCons(b, [m, c], "\n");
      JoinCons(t, [b, m, c], "\n");
    } else {
      assert [m, c][1..] == [c];
      NonEmptyKeeps([c]);
      assert NonEmpty([m, c]) == NonEmpty([c]);
      assert NonEmpty([b, m, c]) == [b] + NonEmpty([m, c]);
      assert NonEmpty([t, b, m, c]) == [t] + NonEmpty([b, m, c]);
      assert [t] + ([b] + [c]) == [t, b, c];
      JoinCons(b, [c], "\n");
      JoinCons(t, [b, c], "\n");
    }
  }

  /** The content of `~/.claude/claude.env`: the token line, the base line, the model line exactly when a model is set, then the comment. */
  function EnvFile(key: string, base: string, model: Option<string>, now: string): (r: string)
    ensures r ==
      "ANTHROPIC_AUTH_TOKEN=" + key + "\n" + "ANTHROPIC_BASE_URL=" + base + "\n"
      + (if HasModel(model) then "ANTHROPIC_MODEL=" + model.value + "\n" else "")
      + "# Last updated: " + now
  {
    var t := "ANTHROPIC_AUTH_TOKEN=" + key;
    var b := "ANTHROPIC_BASE_URL=" + base;
    var m := if HasModel(model) then "ANTHROPIC_MODEL=" + model.value else "";
    var c := "# Last updated: " + now;
    assert |t| > 0 && |b| > 0 && |c| > 0;
    assert HasModel(model) ==> |m| > 0;
    EnvLinesJoin(t, b, m, c, HasModel(model));
    Join(NonEmpty([t, b, m, c]), "\n")
  }
}
