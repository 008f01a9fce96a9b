/**
 Two rules of the verify lint of src/config/verify_lint.rs that are written out by hand: R9 (a `grep` of a directory
 without a recursive flag) splits and scans tokens, R1 (a tool used before `export PATH=`) searches for substrings.
 */
module VerifyLint {
  import opened Outcomes
  import opened Text

  // ----- str::split, split_whitespace, trim -----

  function Split(s: string, sep: char -> bool): (pieces: seq<string>)
    ensures |pieces| >= 1
  {
    if s == [] then [""]
    else
      var rest := Split(s[1..], sep);
      if sep(s[0]) then [""] + rest else [[s[0]] + rest[0]] + rest[1..]
  }

  function NonEmpty(pieces: seq<string>): seq<string> {
    if pieces == [] then []
    else if pieces[0] == "" then NonEmpty(pieces[1..])
    else [pieces[0]] + NonEmpty(pieces[1..])
  }

  function Tokens(s: string): seq<string> {
    NonEmpty(Split(s, IsSpace))
  }

  function TrimStart(s: string, strip: char -> bool): string {
    if s != [] && strip(s[0]) then TrimStart(s[1..], strip) else s
  }

  function TrimEnd(s: string, strip: char -> bool): string {
    if s != [] && strip(s[|s| - 1]) then TrimEnd(s[..|s| - 1], strip) else s
  }

  function Trim(s: string): string {
    TrimEnd(TrimStart(s, IsSpace), IsSpace)
  }

  /** Splitting a text that has a separator in the middle is splitting the two sides. */
  lemma {:induction false} SplitAtSeparator(x: string, c: char, y: string, sep: char -> bool)
    requires sep(c)
    ensures Split(x + [c] + y, sep) == Split(x, sep) + Split(y, sep)
  {
    var whole := x + [c] + y;
    if x == [] {
      assert whole[1..] == y;
    } else {
      assert whole[1..] == x[1..] + [c] + y;
      SplitAtSeparator(x[1..], c, y, sep);
    }
  }

  lemma {:induction false} NonEmptyOfConcat(a: seq<string>, b: seq<string>)
    ensures NonEmpty(a + b) == NonEmpty(a) + NonEmpty(b)
  {
    if a == [] {
      assert a + b == b;
    } else {
      assert (a + b)[1..] == a[1..] + b;
      NonEmptyOfConcat(a[1..], b);
    }
  }

  lemma TokensAtSpace(x: string, c: char, y: string)
    requires IsSpace(c)
    ensures Tokens(x + [c] + y) == Tokens(x) + Tokens(y)
  {
    SplitAtSeparator(x, c, y, IsSpace);
    NonEmptyOfConcat(Split(x, IsSpace), Split(y, IsSpace));
  }

  lemma NoTokens()
    ensures Tokens("") == []
  {
    assert [""][1..] == [];
    assert NonEmpty([""]) == NonEmpty([]);
  }

  lemma {:induction false} TrimStartKeepsTokens(s: string)
    ensures Tokens(TrimStart(s, IsSpace)) == Tokens(s)
  {
    if s != [] && IsSpace(s[0]) {
      assert s == [] + [s[0]] + s[1..];
      TokensAtSpace([], s[0], s[1..]);
      NoTokens();
      TrimStartKeepsTokens(s[1..]);
    }
  }

  lemma {:induction false} TrimEndKeepsTokens(s: string)
    ensures Tokens(TrimEnd(s, IsSpace)) == Tokens(s)
  {
    if s != [] && IsSpace(s[|s| - 1]) {
      var front := s[..|s| - 1];
      assert s == front + [s[|s| - 1]] + [];
      TokensAtSpace(front, s[|s| - 1], []);
      NoTokens();
      TrimEndKeepsTokens(front);
    }
  }

  /** Trimming a text does not change its words. */
  lemma TrimKeepsTokens(s: string)
    ensures Tokens(Trim(s)) == Tokens(s)
  {
    TrimStartKeepsTokens(s);
    TrimEndKeepsTokens(TrimStart(s, IsSpace));
  }

  // ----- Substrings -----

  predicate At(s: string, needle: string, i: nat) {
    i + |needle| <= |s| && s[i..i + |needle|] == needle
  }

  predicate Contains(s: string, needle: string) {
    exists i: nat :: i <= |s| && At(s, needle, i)
  }

  lemma AtHead(s: string, needle: string, i: nat)
    requires At(s, needle, i) && needle != ""
    ensures needle[0] in s
  {}

  // ----- R9 -----

  predicate IsSeparator(c: char) {
    c == '&' || c == '|' || c == ';'
  }

  predicate IsShellPunctuation(c: char) {
    c == ')' || c == ',' || c == '"' || c == '\''
  }

  predicate RecursiveFlag(token: string) {
    || token == "--recursive"
    || ("-" <= token && !("--" <= token) && ('r' in token[1..] || 'R' in token[1..]))
  }

  predicate DirectoryArgument(token: string) {
    var trimmed := TrimEnd(token, IsShellPunctuation);
    trimmed != "" && trimmed[|trimmed| - 1] == '/' && trimmed != "/"
  }

  predicate PieceFires(piece: string) {
    && Contains(piece, "grep")
    && (forall token :: token in Tokens(piece) ==> !RecursiveFlag(token))
    && (exists token :: token in Tokens(piece) && DirectoryArgument(token))
  }

  predicate AnyFires(pieces: seq<string>) {
    exists piece :: piece in pieces && PieceFires(Trim(piece))
  }

  /** A directory `grep` without a recursive flag stands between two separators of the command. */
  predicate R9(cmd: string) {
    AnyFires(Split(cmd, IsSeparator))
  }

  method HasRecursiveFlag(tokens: seq<string>) returns (hasRecursive: bool)
    ensures hasRecursive <==> exists token :: token in tokens && RecursiveFlag(token)
  {
    hasRecursive := false;
    for n := 0 to |tokens|
      invariant !hasRecursive && forall token :: token in tokens[..n] ==> !RecursiveFlag(token)
    {
      var token := tokens[n];
      assert tokens[..n + 1] == tokens[..n] + [token];
      if token == "--recursive" {
        assert RecursiveFlag(token);
        return true;
      }
      if "-" <= token {
        var rest := token[1..];
        if "-" <= rest {
          assert "--" <= token;
          continue;
        }
        if 'r' in rest || 'R' in rest {
          assert RecursiveFlag(token);
          return true;
        }
      }
    }
    assert tokens[..|tokens|] == tokens;
  }

  method HasDirectoryArgument(tokens: seq<string>) returns (found: bool)
    ensures found <==> exists token :: token in tokens && DirectoryArgument(token)
  {
    for n := 0 to |tokens|
      invariant forall token :: token in tokens[..n] ==> !DirectoryArgument(token)
    {
      assert tokens[..n + 1] == tokens[..n] + [tokens[n]];
      var trimmed := TrimEnd(tokens[n], IsShellPunctuation);
      if trimmed != "" && trimmed[|trimmed| - 1] == '/' && trimmed != "/" {
        assert DirectoryArgument(tokens[n]);
        return true;
      }
    }
    assert tokens[..|tokens|] == tokens;
    return false;
  }

  method R9Fires(cmd: string) returns (fires: bool)
    ensures fires <==> R9(cmd)
  {
    var pieces := Split(cmd, IsSeparator);
    for n := 0 to |pieces|
      invariant !AnyFires(pieces[..n])
    {
      assert pieces[..n + 1] == pieces[..n] + [pieces[n]];
      var piece := Trim(pieces[n]);
      if !Contains(piece, "grep") {
        continue;
      }
      var hasRecursive := HasRecursiveFlag(Tokens(piece));
      if hasRecursive {
        continue;
      }
      var found := HasDirectoryArgument(Tokens(piece));
      if found {
        assert pieces[n] in pieces && PieceFires(Trim(pieces[n]));
        return true;
      }
    }
    assert pieces[..|pieces|] == pieces;
    return false;
  }

  /** R9 looks at each command of a list on its own. */
  lemma R9Distributes(x: string, c: char, y: string)
    requires c == '&' || c == '|' || c == ';'
    ensures R9(x + [c] + y) <==> R9(x) || R9(y)
  {
    SplitAtSeparator(x, c, y, IsSeparator);
  }

  lemma {:induction false} NoSeparatorNoSplit(s: string, sep: char -> bool)
    requires forall c :: c in s ==> !sep(c)
    ensures Split(s, sep) == [s]
  {
    if s != [] {
      NoSeparatorNoSplit(s[1..], sep);
      assert s == [s[0]] + s[1..];
    }
  }

  /** The fix R9 suggests works: a command that is given the word `-r` anywhere is no longer reported. */
  lemma RecursiveFlagSilencesR9(x: string, y: string)
    requires forall c :: c in x + y ==> !IsSeparator(c)
    ensures !R9(x + " -r " + y)
  {
    var cmd := x + " -r " + y;
    forall c | c in cmd ensures !IsSeparator(c) {
      assert c in x + y || c in " -r ";
    }
    NoSeparatorNoSplit(cmd, IsSeparator);
    TrimKeepsTokens(cmd);
    assert cmd == x + [' '] + ("-r" + [' '] + y);
    TokensAtSpace(x, ' ', "-r" + [' '] + y);
    TokensAtSpace("-r", ' ', y);
    NoSeparatorNoSplit("-r", IsSpace);
    assert NonEmpty(["-r"]) == ["-r"] + NonEmpty([]);
    assert "-r"[1..] == "r" && 'r' in "r";
    assert "-r" in Tokens(cmd) && RecursiveFlag("-r");
  }

  lemma NoGrepInside(s: string)
    requires 'g' !in s
    ensures !Contains(s, "grep")
  {
    if Contains(s, "grep") {
      var i: nat :| i <= |s| && At(s, "grep", i);
      AtHead(s, "grep", i);
    }
  }

  /** A text that cannot spell `grep` is never reported. */
  lemma NoGrepNoR9(s: string)
    requires 'g' !in s && forall c :: c in s ==> !IsSeparator(c)
    ensures !R9(s)
  {
    NoSeparatorNoSplit(s, IsSeparator);
    var piece := Trim(s);
    TrimStartIsSuffix(s, IsSpace);
    TrimEndIsPrefix(TrimStart(s, IsSpace), IsSpace);
    NoGrepInside(piece);
  }

  lemma {:induction false} TrimStartIsSuffix(s: string, strip: char -> bool)
    ensures exists k: nat :: k <= |s| && TrimStart(s, strip) == s[k..]
  {
    if s != [] && strip(s[0]) {
      TrimStartIsSuffix(s[1..], strip);
      var k: nat :| k <= |s| - 1 && TrimStart(s[1..], strip) == s[1..][k..];
      assert s[1..][k..] == s[k + 1..];
    } else {
      assert s[0..] == s;
    }
  }

  lemma {:induction false} TrimEndIsPrefix(s: string, strip: char -> bool)
    ensures TrimEnd(s, strip) <= s
  {
    if s != [] && strip(s[|s| - 1]) {
      TrimEndIsPrefix(s[..|s| - 1], strip);
    }
  }

  lemma LeadingSpaceIsTrimmed(cmd: string)
    ensures R9([' '] + cmd) <==> R9(cmd)
  {
    var spaced, plain := Split([' '] + cmd, IsSeparator), Split(cmd, IsSeparator);
    assert ([' '] + cmd)[1..] == cmd;
    assert spaced[0] == [' '] + plain[0] && spaced[1..] == plain[1..];
    assert spaced[0][1..] == plain[0];
    assert Trim(spaced[0]) == Trim(plain[0]);
    assert spaced == [spaced[0]] + spaced[1..] && plain == [plain[0]] + plain[1..];
  }

  // ----- R1 -----

  const R1_BINARIES := ["cargo ", "npm ", "node ", "npx ", "just ", "gh ", "python3 "]
  const R1_PATH_EXPORT := "export PATH="

  /** `str::find` */
  function Find(s: string, needle: string, from: nat): (found: Option<nat>)
    requires from <= |s|
    ensures found.Some? ==>
              from <= found.value && At(s, needle, found.value)
              && forall i: nat :: from <= i < found.value ==> !At(s, needle, i)
    ensures found.None? ==> forall i: nat :: from <= i ==> !At(s, needle, i)
    decreases |s| - from
  {
    if At(s, needle, from) then Some(from)
    else if from == |s| then None
    else Find(s, needle, from + 1)
  }

  /** The leftmost position at which any of the needles occurs. */
  function FirstOf(s: string, needles: seq<string>): (found: Option<nat>)
    ensures found.Some? ==>
              (exists n :: n in needles && At(s, n, found.value))
              && forall n, i: nat :: n in needles && i < found.value ==> !At(s, n, i)
    ensures found.None? ==> forall n, i: nat :: n in needles ==> !At(s, n, i)
  {
    if needles == [] then None
    else
      assert forall n :: n in needles <==> n == needles[0] || n in needles[1..];
      var here, rest := Find(s, needles[0], 0), FirstOf(s, needles[1..]);
      if here.None? then rest
      else if rest.None? || here.value <= rest.value then here
      else rest
  }

  predicate R1(cmd: string) {
    var binary := FirstOf(cmd, R1_BINARIES);
    var path := Find(cmd, R1_PATH_EXPORT, 0);
    binary.Some? && (path.None? || path.value > binary.value)
  }

  /** Some tool is used with no `export PATH=` to its left. */
  ghost predicate ToolBeforeExport(cmd: string) {
    exists tool, i: nat :: tool in R1_BINARIES && At(cmd, tool, i)
                           && forall j: nat :: j < i ==> !At(cmd, R1_PATH_EXPORT, j)
  }

  lemma ToolLetters(s: string, tool: string, i: nat)
    requires tool in R1_BINARIES && At(s, tool, i)
    ensures i + 1 < |s| && s[i] in ['c', 'n', 'j', 'g', 'p'] && (s[i] == 'p' ==> s[i + 1] == 'y')
  {}

  lemma ExportLetters(s: string, j: nat, i: nat)
    requires At(s, R1_PATH_EXPORT, j) && j <= i < j + |R1_PATH_EXPORT|
    ensures s[i] !in ['c', 'n', 'j', 'g'] && (s[i] == 'p' ==> i + 1 < |s| && s[i + 1] == 'o')
  {}

  /** No tool name can start inside `export PATH=`. */
  lemma ToolsDoNotOverlapExport(s: string, tool: string, i: nat, j: nat)
    requires tool in R1_BINARIES && At(s, tool, i) && j <= i
    requires At(s, R1_PATH_EXPORT, j)
    ensures j + |R1_PATH_EXPORT| <= i
  {
    ToolLetters(s, tool, i);
    if i < j + |R1_PATH_EXPORT| {
      ExportLetters(s, j, i);
    }
  }

  lemma R1Meaning(cmd: string)
    ensures R1(cmd) <==> ToolBeforeExport(cmd)
  {
    hide At, Find, FirstOf;
    var binary, path := FirstOf(cmd, R1_BINARIES), Find(cmd, R1_PATH_EXPORT, 0);
    if binary.Some? {
      var tool :| tool in R1_BINARIES && At(cmd, tool, binary.value);
      if path.Some? && path.value <= binary.value {
        ToolsDoNotOverlapExport(cmd, tool, binary.value, path.value);
      }
      assert R1(cmd) ==> forall j: nat :: j < binary.value ==> !At(cmd, R1_PATH_EXPORT, j);
    }
  }

  // ----- R1's fix hint -----

  const HINT_HOMEBREW := "\"/opt/homebrew/bin"
  const HINT_SYSTEM := ":/usr/bin:/bin:$PATH\" "
  const HINT_COMMAND := R1_PATH_EXPORT + HINT_HOMEBREW + HINT_SYSTEM
  const R1_HINT := HINT_COMMAND + "&& "

  lemma HintStartsWithExport(cmd: string)
    ensures At(R1_HINT + cmd, R1_PATH_EXPORT, 0)
  {}

  lemma HintIsTwoSeparators(cmd: string)
    ensures R1_HINT + cmd == HINT_COMMAND + ['&'] + ("" + ['&'] + ([' '] + cmd))
  {}

  lemma HintHasNoGrep()
    ensures forall c :: c in HINT_COMMAND ==> c != 'g' && !IsSeparator(c)
  {
    assert forall c :: c in R1_PATH_EXPORT ==> c != 'g' && !IsSeparator(c);
    assert forall c :: c in HINT_HOMEBREW ==> c != 'g' && !IsSeparator(c);
    assert forall c :: c in HINT_SYSTEM ==> c != 'g' && !IsSeparator(c);
  }

  lemma HintSilencesR1(cmd: string)
    ensures !ToolBeforeExport(R1_HINT + cmd)
  {
    var hinted := R1_HINT + cmd;
    HintStartsWithExport(cmd);
    if ToolBeforeExport(hinted) {
      hide At;
      var tool, i: nat :| tool in R1_BINARIES && At(hinted, tool, i)
                          && forall j: nat :: j < i ==> !At(hinted, R1_PATH_EXPORT, j);
      ToolsDoNotOverlapExport(hinted, tool, i, 0);
    }
  }

  lemma HintKeepsR9(cmd: string)
    ensures R9(R1_HINT + cmd) <==> R9(cmd)
  {
    HintIsTwoSeparators(cmd);
    HintHasNoGrep();
    hide R9;
    R9Distributes(HINT_COMMAND, '&', "" + ['&'] + ([' '] + cmd));
    R9Distributes("", '&', [' '] + cmd);
    LeadingSpaceIsTrimmed(cmd);
    NoGrepNoR9("");
    NoGrepNoR9(HINT_COMMAND);
  }

  /** Prepending R1's fix hint to any command silences R1 and leaves R9's verdict alone. */
  lemma HintFixesR1Only(cmd: string)
    ensures !R1(R1_HINT + cmd)
    ensures R9(R1_HINT + cmd) <==> R9(cmd)
  {
    HintSilencesR1(cmd);
    HintKeepsR9(cmd);
    R1Meaning(R1_HINT + cmd);
  }

  lemma AtAfterMore(cmd: string, more: string, needle: string, i: nat)
    requires i + |needle| <= |cmd|
    ensures At(cmd + more, needle, i) <==> At(cmd, needle, i)
  {}

  /** Adding to the end of a command never silences R1. */
  lemma R1SurvivesMore(cmd: string, more: string)
    requires R1(cmd)
    ensures R1(cmd + more)
  {
    R1Meaning(cmd);
    R1Meaning(cmd + more);
    ToolSurvivesMore(cmd, more);
  }

  lemma ToolSurvivesMore(cmd: string, more: string)
    requires ToolBeforeExport(cmd)
    ensures ToolBeforeExport(cmd + more)
  {
    var tool, i: nat :| tool in R1_BINARIES && At(cmd, tool, i)
                        && forall j: nat :: j < i ==> !At(cmd, R1_PATH_EXPORT, j);
    AtAfterMore(cmd, more, tool, i);
    assert i <= |cmd|;
    hide At;
    forall j: nat | j < i ensures !At(cmd + more, R1_PATH_EXPORT, j) {
      if At(cmd + more, R1_PATH_EXPORT, j) {
        ToolsDoNotOverlapExport(cmd + more, tool, i, j);
        AtAfterMore(cmd, more, R1_PATH_EXPORT, j);
      }
    }
  }
}
