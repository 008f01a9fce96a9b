/**
 What the two lint rules say of the text of a command: R9 of a `grep` and its words, R1 of the tools and the export it
 looks for. `VerifyLint` decides both by splitting, trimming and searching; here the verdicts are read off the text.
 */
module LintedText {
  import opened Outcomes
  import opened Text
  import opened VerifyLint

  /** A word that the shell and the lint see as one: not empty, with no white space and no separator in it. */
  predicate Word(w: string) {
    w != "" && forall c :: c in w ==> !IsSpace(c) && c != '&' && c != '|' && c != ';'
  }

  /** The words on one line, a blank between any two. */
  function Line(words: seq<string>): string {
    if words == [] then ""
    else if |words| == 1 then words[0]
    else words[0] + [' '] + Line(words[1..])
  }

  // ----- Words -----

  /** `--recursive`, or a cluster of short flags with an `r` or an `R` in it. */
  ghost predicate Recursive(w: string) {
    || w == "--recursive"
    || (|w| >= 2 && w[0] == '-' && w[1] != '-' && exists i :: 1 <= i < |w| && (w[i] == 'r' || w[i] == 'R'))
  }

  lemma RecursiveIsFlag(w: string)
    ensures RecursiveFlag(w) <==> Recursive(w)
  {
    if |w| >= 1 {
      assert "-" <= w <==> w[0] == '-';
      assert forall c :: c in w[1..] <==> exists i :: 1 <= i < |w| && w[i] == c;
    }
    if |w| >= 2 {
      assert "--" <= w <==> w[0] == '-' && w[1] == '-';
    }
  }

  predicate Punctuation(c: char) {
    c == ')' || c == ',' || c == '"' || c == '\''
  }

  /** Some text, a slash, and perhaps punctuation; the slash alone is the root. */
  ghost predicate Directory(w: string) {
    exists dir, tail :: dir != "" && w == dir + "/" + tail && forall c :: c in tail ==> Punctuation(c)
  }

  lemma {:induction false} TrimEndStops(kept: string, tail: string, strip: char -> bool)
    requires kept != "" && !strip(kept[|kept| - 1]) && forall c :: c in tail ==> strip(c)
    ensures TrimEnd(kept + tail, strip) == kept
  {
    if tail == "" {
      assert kept + tail == kept;
    } else {
      var n := |tail| - 1;
      assert (kept + tail)[..|kept + tail| - 1] == kept + tail[..n];
      TrimEndStops(kept, tail[..n], strip);
    }
  }

  lemma {:induction false} TrimEndDrops(s: string, strip: char -> bool)
    ensures TrimEnd(s, strip) <= s
    ensures forall k :: |TrimEnd(s, strip)| <= k < |s| ==> strip(s[k])
    ensures forall k :: 0 <= k < |s| && !strip(s[k]) ==> k < |TrimEnd(s, strip)|
  {
    if s != [] && strip(s[|s| - 1]) {
      TrimEndDrops(s[..|s| - 1], strip);
    }
  }

  lemma DirectoryIsArgument(w: string)
    ensures DirectoryArgument(w) <==> Directory(w)
  {
    TrimEndDrops(w, IsShellPunctuation);
    var trimmed := TrimEnd(w, IsShellPunctuation);
    if DirectoryArgument(w) {
      var dir, tail := trimmed[..|trimmed| - 1], w[|trimmed|..];
      assert trimmed == dir + "/";
      assert w == dir + "/" + tail;
      assert dir != "";
    }
    if dir, tail :| dir != "" && w == dir + "/" + tail && forall c :: c in tail ==> Punctuation(c) {
      var kept := dir + "/";
      assert kept[|kept| - 1] == '/';
      TrimEndStops(kept, tail, IsShellPunctuation);
      assert w == kept + tail;
      assert kept != "/";
    }
  }

  // ----- Lines -----

  lemma {:induction false} LineTokens(words: seq<string>)
    requires forall w :: w in words ==> Word(w)
    ensures Tokens(Line(words)) == words
  {
    if words == [] {
      NoTokens();
    } else {
      WordIsOneToken(words[0]);
      if |words| > 1 {
        LineTokens(words[1..]);
        TokensAtSpace(words[0], ' ', Line(words[1..]));
      }
      assert words == [words[0]] + words[1..];
    }
  }

  lemma WordIsOneToken(w: string)
    requires Word(w)
    ensures Tokens(w) == [w]
  {
    NoSeparatorNoSplit(w, IsSpace);
    assert NonEmpty([w]) == [w] + NonEmpty([]);
  }

  lemma {:induction false} LineHasNoSeparator(words: seq<string>, c: char)
    requires words != [] && (forall w :: w in words ==> Word(w)) && c in Line(words)
    ensures !IsSeparator(c)
  {
    assert words[0] in words;
    if |words| > 1 && c !in words[0] && c != ' ' {
      LineHasNoSeparator(words[1..], c);
    }
  }

  lemma GrepStaysInside(rest: string)
    ensures Contains(Trim("grep" + rest), "grep")
  {
    var s := "grep" + rest;
    assert TrimStart(s, IsSpace) == s;
    TrimEndDrops(s, IsSpace);
    assert s[3] == 'p';
    var piece := Trim(s);
    assert |piece| >= 4 && piece[..4] == s[..4] == "grep";
    assert At(piece, "grep", 0);
  }

  lemma DirectoryHasSlash(w: string)
    ensures Directory(w) ==> exists k :: 1 <= k < |w| && w[k] == '/'
  {
    if dir, tail :| dir != "" && w == dir + "/" + tail && forall c :: c in tail ==> Punctuation(c) {
      assert w[|dir|] == '/';
    }
  }

  lemma GrepIsNoArgument()
    ensures !Recursive("grep") && !Directory("grep")
  {
    DirectoryHasSlash("grep");
  }

  lemma GrepLine(words: seq<string>)
    requires words != []
    ensures Line(["grep"] + words) == "grep" + ([' '] + Line(words))
  {
    assert (["grep"] + words)[1..] == words;
  }

  /**
   R9 of `grep` and any words: it fires exactly if some word names a directory and none is a recursive flag.
   */
  lemma R9OnWords(words: seq<string>)
    requires words != [] && forall w :: w in words ==> Word(w)
    ensures R9(Line(["grep"] + words)) <==>
              (forall w :: w in words ==> !Recursive(w)) && exists w :: w in words && Directory(w)
  {
    var all := ["grep"] + words;
    var cmd := Line(all);
    assert Word("grep");
    forall c | c in cmd ensures !IsSeparator(c) {
      LineHasNoSeparator(all, c);
    }
    NoSeparatorNoSplit(cmd, IsSeparator);
    GrepLine(words);
    GrepStaysInside([' '] + Line(words));
    TrimKeepsTokens(cmd);
    LineTokens(all);
    GrepIsNoArgument();
    hide RecursiveFlag, DirectoryArgument, Recursive, Directory, Line, Tokens, Split, Trim, Contains, Word;
    forall w ensures RecursiveFlag(w) <==> Recursive(w) {
      RecursiveIsFlag(w);
    }
    forall w ensures DirectoryArgument(w) <==> Directory(w) {
      DirectoryIsArgument(w);
    }
    assert R9(cmd) <==> PieceFires(Trim(cmd));
    assert forall w :: w in all <==> w == "grep" || w in words;
  }

  // ----- Texts -----

  /** A `grep` for a pattern in a directory is reported, also with the end of a substitution or a quote after the slash. */
  lemma GrepOfDirectoryFires(pattern: string, dir: string, tail: string)
    requires Word(pattern) && pattern[0] != '-' && Word(dir) && dir[0] != '-'
    requires forall c :: c in tail ==> c == ')' || c == ',' || c == '"' || c == '\''
    ensures R9("grep " + pattern + " " + dir + "/" + tail)
  {
    var last := dir + "/" + tail;
    assert Word(last) && last[0] == dir[0];
    var words := [pattern, last];
    GrepLine(words);
    assert words[1..] == [last];
    assert "grep " + pattern + " " + dir + "/" + tail == Line(["grep"] + words);
    assert Directory(last) && last in words;
    R9OnWords(words);
  }

  /** The root is no directory to the rule, nor is a pattern without a slash. */
  lemma GrepOfRootIsQuiet(pattern: string)
    requires Word(pattern) && '/' !in pattern
    ensures !R9("grep " + pattern + " /")
  {
    var words := [pattern, "/"];
    GrepLine(words);
    assert words[1..] == ["/"];
    assert "grep " + pattern + " /" == Line(["grep"] + words);
    R9OnWords(words);
    DirectoryHasSlash(pattern);
    DirectoryHasSlash("/");
    hide Directory;
  }

  lemma DirectoryWord(dir: string)
    requires Word(dir) && dir[0] != '-'
    ensures Word(dir + "/") && Directory(dir + "/") && !Recursive(dir + "/")
  {
    assert dir + "/" == dir + "/" + "";
    assert (dir + "/")[0] == dir[0];
  }

  lemma LineOfTwo(a: string, b: string)
    ensures Line(["grep"] + [a, b]) == "grep " + a + " " + b
  {
    GrepLine([a, b]);
    assert [a, b][1..] == [b];
  }

  /** A long option with an `r` in it is not the recursive flag. */
  lemma LongOptionStillFires(option: string, dir: string)
    requires Word(option) && |option| >= 2 && option[..2] == "--" && option != "--recursive"
    requires Word(dir) && dir[0] != '-'
    ensures R9("grep " + option + " " + (dir + "/"))
  {
    DirectoryWord(dir);
    LineOfTwo(option, dir + "/");
    assert option[0] == '-' && option[1] == '-';
    assert dir + "/" in [option, dir + "/"];
    hide Directory, Word, Line;
    R9OnWords([option, dir + "/"]);
  }

  /** A cluster of short flags with an `r` in it is. */
  lemma ShortClusterSilences(before: string, after: string, dir: string)
    requires Word("-" + before + "r" + after) && !("-" <= before) && Word(dir)
    ensures !R9("grep " + ("-" + before + "r" + after) + " " + (dir + "/"))
  {
    var flag := "-" + before + "r" + after;
    LineOfTwo(flag, dir + "/");
    assert flag[1 + |before|] == 'r';
    assert flag[1] == (before + "r")[0];
    assert Recursive(flag) && flag in [flag, dir + "/"];
    assert Word(dir + "/");
    hide Recursive, Directory, Word, Line;
    R9OnWords([flag, dir + "/"]);
  }

  lemma {:induction false} SplitLetters(s: string, sep: char -> bool, piece: string, c: char)
    requires piece in Split(s, sep) && c in piece
    ensures c in s
  {
    if s != [] {
      var rest := Split(s[1..], sep);
      if sep(s[0]) {
        assert piece == "" || piece in rest;
        SplitLetters(s[1..], sep, piece, c);
      } else if piece == [s[0]] + rest[0] {
        if c != s[0] {
          SplitLetters(s[1..], sep, rest[0], c);
        }
      } else {
        assert piece in rest[1..];
        SplitLetters(s[1..], sep, piece, c);
      }
    }
  }

  lemma {:induction false} NonEmptyIsPart(pieces: seq<string>, piece: string)
    requires piece in NonEmpty(pieces)
    ensures piece in pieces
  {
    if pieces != [] && piece != pieces[0] {
      NonEmptyIsPart(pieces[1..], piece);
    }
  }

  lemma TokenLetters(s: string, token: string, c: char)
    requires token in Tokens(s) && c in token
    ensures c in s
  {
    NonEmptyIsPart(Split(s, IsSpace), token);
    SplitLetters(s, IsSpace, token, c);
  }

  /** Without a slash there is nothing to report, however many commands the text holds. */
  lemma NoSlashNoR9(cmd: string)
    requires '/' !in cmd
    ensures !R9(cmd)
  {
    if R9(cmd) {
      var piece :| piece in Split(cmd, IsSeparator) && PieceFires(Trim(piece));
      var token :| token in Tokens(Trim(piece)) && DirectoryArgument(token);
      TrimKeepsTokens(piece);
      TrimEndDrops(token, IsShellPunctuation);
      var trimmed := TrimEnd(token, IsShellPunctuation);
      assert token[|trimmed| - 1] == '/';
      TokenLetters(piece, token, '/');
      SplitLetters(cmd, IsSeparator, piece, '/');
    }
  }

  // ----- R1 -----

  /** One of the tools that are not on the default path starts here. */
  ghost predicate ToolAt(cmd: string, i: nat) {
    i <= |cmd|
    && exists tool :: tool in ["cargo ", "npm ", "node ", "npx ", "just ", "gh ", "python3 "] && tool <= cmd[i..]
  }

  lemma AtIsPrefix(cmd: string, needle: string, i: nat)
    ensures At(cmd, needle, i) <==> i <= |cmd| && needle <= cmd[i..]
  {
    if i + |needle| <= |cmd| {
      assert cmd[i..][..|needle|] == cmd[i..i + |needle|];
    }
  }

  /** R1 fires exactly if one of the seven tools is used with no `export PATH=` anywhere to its left. */
  lemma R1OnText(cmd: string)
    ensures R1(cmd) <==> exists i: nat :: ToolAt(cmd, i) && forall j: nat :: j < i ==> !("export PATH=" <= cmd[j..])
  {
    R1Meaning(cmd);
    hide R1;
    forall needle, i: nat ensures At(cmd, needle, i) <==> i <= |cmd| && needle <= cmd[i..] {
      AtIsPrefix(cmd, needle, i);
    }
    hide At;
    if ToolBeforeExport(cmd) {
      var tool, i: nat :| tool in R1_BINARIES && At(cmd, tool, i) && forall j: nat :: j < i ==> !At(cmd, R1_PATH_EXPORT, j);
      assert ToolAt(cmd, i);
      forall j: nat | j < i ensures !("export PATH=" <= cmd[j..]) {
        AtIsPrefix(cmd, R1_PATH_EXPORT, j);
        assert !At(cmd, R1_PATH_EXPORT, j);
      }
    }
    if i: nat :| ToolAt(cmd, i) && forall j: nat :: j < i ==> !("export PATH=" <= cmd[j..]) {
      var tool :| tool in ["cargo ", "npm ", "node ", "npx ", "just ", "gh ", "python3 "] && tool <= cmd[i..];
      assert tool in R1_BINARIES && At(cmd, tool, i) && forall j: nat :: j < i ==> !At(cmd, R1_PATH_EXPORT, j);
    }
  }
}
