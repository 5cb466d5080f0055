/**
 * Whole runs on small staged diffs, with the written-out patterns and any `empty-catch` matcher that only
 * matches lines containing `catch`.
 */
module Scenarios {
  import opened Wrappers
  import opened Text
  import opened Rules
  import opened Patterns
  import opened Scan
  import opened ScanProperties
  import opened Report
  import opened Linter

  const CONSOLE_CALL := "console.log(\"debug\")"

  /** The characters `console.log("debug")` lacks. */
  lemma ConsoleCallChars()
    ensures |CONSOLE_CALL| == 20
    ensures 'a' !in CONSOLE_CALL && 'v' !in CONSOLE_CALL && 'w' !in CONSOLE_CALL && 'f' !in CONSOLE_CALL
    ensures '/' !in CONSOLE_CALL && '=' !in CONSOLE_CALL && '\n' !in CONSOLE_CALL
    ensures forall k :: 0 <= k < |CONSOLE_CALL| ==> !IsSpace(CONSOLE_CALL[k])
  {
    var s := CONSOLE_CALL;
    forall k | 0 <= k < |s| ensures s[k] in {'c', 'o', 'n', 's', 'l', 'e', '.', 'g', '(', ')', '"', 'd', 'b', 'u'} {
    }
  }

  lemma ConsoleCallMatch()
    ensures Search(Console, CONSOLE_CALL) == Some("console.log(")
  {
    var s := CONSOLE_CALL;
    assert StartsAt(s, 0, "console.");
    assert StartsAt(s, 8, "log(");
    assert MatchAt(Console, s, 0) == Some(12);
    assert s[0..12] == "console.log(";
  }

  /**
   * A line of fewer than 120 characters, without white space or line breaks, and without any of the
   * characters `a v w f / =`, matches no rule except possibly `console`.
   */
  lemma OnlyConsoleCanMatch(emptyCatch: string -> Option<string>, s: string, r: RuleId)
    requires MatchesCatchOnly(emptyCatch) && r != Console
    requires |s| < 120 && '\n' !in s && forall k :: 0 <= k < |s| ==> !IsSpace(s[k])
    requires 'a' !in s && 'v' !in s && 'w' !in s && 'f' !in s && '/' !in s && '=' !in s
    ensures Engine(emptyCatch)(r, s).None?
  {
    match r
    case EmptyCatch =>
      if Contains(s, "catch") {
        ContainsChar(s, "catch", 'a');
      }
    case LongLines => LongLinesWholeLine(s);
    case SingleLetterVars => NoSpaceNoSingleLetter(s);
    case Var => MissingCharNoMatch(r, s, 'v');
    case TodoComment => MissingCharNoMatch(r, s, '/');
    case LooseEq => MissingCharNoMatch(r, s, '=');
    case Eval => MissingCharNoMatch(r, s, 'v');
    case ForLoop => MissingCharNoMatch(r, s, 'f');
    case WhileTrue => MissingCharNoMatch(r, s, 'w');
    case Alert => MissingCharNoMatch(r, s, 'a');
    case DocumentWrite => MissingCharNoMatch(r, s, 'w');
    case NewArray => MissingCharNoMatch(r, s, 'w');
    case NewObject => MissingCharNoMatch(r, s, 'w');
  }

  /** Of all rules, only `console` matches `console.log("debug")`, and it matches `console.log(`. */
  lemma ConsoleCallHits(emptyCatch: string -> Option<string>)
    requires MatchesCatchOnly(emptyCatch)
    ensures Engine(emptyCatch)(Console, CONSOLE_CALL) == Some("console.log(")
    ensures forall r :: r != Console ==> Engine(emptyCatch)(r, CONSOLE_CALL).None?
  {
    ConsoleCallChars();
    ConsoleCallMatch();
    forall r | r != Console ensures Engine(emptyCatch)(r, CONSOLE_CALL).None? {
      OnlyConsoleCanMatch(emptyCatch, CONSOLE_CALL, r);
    }
  }

  /** A staged diff adding `console.log("debug")` as line 1 of a new file `src/app.js`. */
  const CONSOLE_DIFF: seq<string> := ["+++ b/src/app.js", "@@ -0,0 +1 @@", "+" + CONSOLE_CALL]

  /** The one finding that diff produces. */
  const CONSOLE_FINDING := Finding(Some("src/app.js"), CONSOLE_CALL, Message(Console), 1, "console.log(")

  lemma ConsoleDiffSplits()
    ensures Split(Join(CONSOLE_DIFF)) == CONSOLE_DIFF
  {
    assert forall k :: 0 <= k < |CONSOLE_DIFF| ==> '\n' !in CONSOLE_DIFF[k] by {
      ConsoleCallChars();
      HeadersUnbroken();
      assert '\n' !in CONSOLE_DIFF[2] by {
        assert CONSOLE_DIFF[2] == "+" + CONSOLE_CALL;
      }
    }
    SplitJoin(CONSOLE_DIFF);
  }

  /** The hunk header of that diff puts the first added line at line 1. */
  lemma ConsoleHunk(rules: seq<RuleId>, matcher: Matcher, st: ScanState)
    requires !st.skip
    ensures Step(rules, matcher, st, "@@ -0,0 +1 @@") == Scanned(st.(lineNumber := 1), [])
  {
    var hunk := "@@ -0,0 +1 @@";
    assert hunk[..2] == "@@";
    forall j | 0 <= j < 8 ensures hunk[j] != '+' {}
    SingleDigitHunk(hunk);
    HunkHeaderStep(rules, matcher, st, hunk);
  }

  lemma ConsoleCallTrimmed()
    ensures Trim(CONSOLE_CALL) == CONSOLE_CALL && Trim("console.log(") == "console.log("
  {
    ConsoleCallChars();
    TrimNoSpace(CONSOLE_CALL);
    var m := "console.log(";
    assert !IsSpace(m[0]) && !IsSpace(m[|m| - 1]);
    TrimNoSpace(m);
  }

  /** The findings for the added line: exactly the `console` finding, at the line number in effect. */
  lemma ConsoleLine(emptyCatch: string -> Option<string>)
    requires MatchesCatchOnly(emptyCatch)
    ensures LineFindings(CATALOG, Engine(emptyCatch), Some("src/app.js"), 1, CONSOLE_CALL) == [CONSOLE_FINDING]
  {
    ConsoleCallHits(emptyCatch);
    CatalogComplete(Console);
    assert InCatalogOrder(CATALOG) by {
      NothingDisabled({});
    }
    SingleFinding(CATALOG, Engine(emptyCatch), Some("src/app.js"), 1, CONSOLE_CALL, Console, "console.log(");
    ConsoleCallTrimmed();
  }

  const APP_STATE := ScanState(Some("src/app.js"), 0, false)

  lemma ConsoleHeaderScan(matcher: Matcher)
    ensures ScanLines(CATALOG, matcher, START, ["+++ b/src/app.js"]) == Scanned(APP_STATE, [])
  {
    assert "+++ b/src/app.js" == "+++ b/" + "src/app.js";
    SkipListExamples("");
    FileHeaderScan(CATALOG, matcher, START, "src/app.js");
  }

  lemma ConsoleHunkScan(matcher: Matcher)
    ensures ScanLines(CATALOG, matcher, APP_STATE, ["@@ -0,0 +1 @@"]) == Scanned(APP_STATE.(lineNumber := 1), [])
  {
    ScanOne(CATALOG, matcher, APP_STATE, "@@ -0,0 +1 @@");
    ConsoleHunk(CATALOG, matcher, APP_STATE);
  }

  lemma ConsoleAddedLine()
    ensures IsAdded("+" + CONSOLE_CALL) && ("+" + CONSOLE_CALL)[1..] == CONSOLE_CALL
  {
    var line := "+" + CONSOLE_CALL;
    assert line[..1] == "+" && line[1] == 'c';
  }

  lemma ConsoleAddedScan(emptyCatch: string -> Option<string>)
    requires MatchesCatchOnly(emptyCatch)
    ensures ScanLines(CATALOG, Engine(emptyCatch), APP_STATE.(lineNumber := 1), ["+" + CONSOLE_CALL])
            == Scanned(APP_STATE.(lineNumber := 2), [CONSOLE_FINDING])
  {
    ConsoleAddedLine();
    AddedLineScan(CATALOG, Engine(emptyCatch), APP_STATE.(lineNumber := 1), "+" + CONSOLE_CALL);
    ConsoleLine(emptyCatch);
  }

  /**
   * Adding `console.log("debug")` to `src/app.js` at `@@ -0,0 +1 @@`, with no rule disabled, is rejected
   * with one finding: file `src/app.js`, line 1, the `console` message, match `console.log(`.
   */
  lemma ConsoleScenario(emptyCatch: string -> Option<string>, disabled: set<string>)
    requires MatchesCatchOnly(emptyCatch) && forall r :: Id(r) !in disabled
    ensures Findings(disabled, Engine(emptyCatch), Join(CONSOLE_DIFF)) == [CONSOLE_FINDING]
    ensures Decide(Findings(disabled, Engine(emptyCatch), Join(CONSOLE_DIFF))) == Reject([CONSOLE_FINDING])
  {
    var m := Engine(emptyCatch);
    var l0, l1, l2 := "+++ b/src/app.js", "@@ -0,0 +1 @@", "+" + CONSOLE_CALL;
    ConsoleDiffSplits();
    NothingDisabled(disabled);
    ConsoleHeaderScan(m);
    ConsoleHunkScan(m);
    ConsoleAddedScan(emptyCatch);
    ScanThree(CATALOG, m, START, l0, l1, l2);
  }

  /** The same addition with `console` disabled. */
  const BARE_CALL_DIFF: seq<string> := ["+++ b/src/app.js", "@@ -0,0 +1 @@", "+console.log()"]

  lemma BareCallChars()
    ensures |"console.log()"| == 13 && '\n' !in "console.log()"
    ensures forall k :: 0 <= k < |"console.log()"| ==> !IsSpace("console.log()"[k])
    ensures 'a' !in "console.log()" && 'v' !in "console.log()" && 'w' !in "console.log()"
    ensures 'f' !in "console.log()" && '/' !in "console.log()" && '=' !in "console.log()"
  {
    var s := "console.log()";
    forall k | 0 <= k < |s| ensures s[k] in {'c', 'o', 'n', 's', 'l', 'e', '.', 'g', '(', ')'} {
    }
  }

  /** The header lines of both example diffs hold no line break. */
  lemma HeadersUnbroken()
    ensures '\n' !in "+++ b/src/app.js" && '\n' !in "@@ -0,0 +1 @@"
  {
    var h := "+++ b/src/app.js";
    forall k | 0 <= k < |h| ensures h[k] in {'+', ' ', 'b', '/', 's', 'r', 'c', 'a', 'p', '.', 'j'} {
    }
    var u := "@@ -0,0 +1 @@";
    forall k | 0 <= k < |u| ensures u[k] in {'@', ' ', '-', '0', ',', '+', '1'} {
    }
  }

  lemma BareCallDiffShape()
    ensures Split(Join(BARE_CALL_DIFF)) == BARE_CALL_DIFF
    ensures forall k :: 0 <= k < |BARE_CALL_DIFF| && IsAdded(BARE_CALL_DIFF[k]) ==>
              BARE_CALL_DIFF[k][1..] == "console.log()"
  {
    var lines := BARE_CALL_DIFF;
    assert forall k :: 0 <= k < |lines| ==> '\n' !in lines[k] by {
      BareCallChars();
      HeadersUnbroken();
      assert '\n' !in lines[2] by {
        assert lines[2] == "+" + "console.log()";
      }
    }
    SplitJoin(lines);
    BareCallAddedText();
  }

  lemma BareCallAddedText()
    ensures forall k :: 0 <= k < |BARE_CALL_DIFF| && IsAdded(BARE_CALL_DIFF[k]) ==>
              BARE_CALL_DIFF[k][1..] == "console.log()"
  {
    var lines := BARE_CALL_DIFF;
    assert lines[0][..3] == "+++" && lines[1][0] == '@';
    assert lines[2][1..] == "console.log()";
  }

  /**
   * With `console` disabled, adding `console.log()` passes: no active rule matches it, so there is no
   * finding.
   */
  lemma ConsoleDisabledScenario(emptyCatch: string -> Option<string>, disabled: set<string>)
    requires MatchesCatchOnly(emptyCatch) && "console" in disabled
    ensures Findings(disabled, Engine(emptyCatch), Join(BARE_CALL_DIFF)) == []
    ensures Decide(Findings(disabled, Engine(emptyCatch), Join(BARE_CALL_DIFF))) == Pass
  {
    var lines := BARE_CALL_DIFF;
    var rules := ActiveRules(disabled);
    BareCallDiffShape();
    BareCallChars();
    forall k, r | 0 <= k < |lines| && IsAdded(lines[k]) && r in rules
      ensures Engine(emptyCatch)(r, lines[k][1..]).None?
    {
      OnlyConsoleCanMatch(emptyCatch, "console.log()", r);
    }
    NoMatchNoFindings(rules, Engine(emptyCatch), START, lines);
  }

  const LET_X := "let x = 1;"

  lemma LetXChars()
    ensures |LET_X| == 10 && '\n' !in LET_X
    ensures 'a' !in LET_X && 'c' !in LET_X && 'v' !in LET_X && 'w' !in LET_X && 'f' !in LET_X && '/' !in LET_X
  {
    var s := LET_X;
    forall k | 0 <= k < |s| ensures s[k] in {'l', 'e', 't', ' ', 'x', '=', '1', ';'} {
    }
  }

  /** `let x = 1;` has a single `=`, so it has no loose equality. */
  lemma LetXNoLooseEq()
    ensures Search(LooseEq, LET_X) == None
  {
    var s := LET_X;
    forall k | 0 <= k < |s| - 1 ensures !(s[k] == '=' && s[k + 1] == '=') {
    }
    NoDoubleEqualsNoLooseEq(s);
  }

  /** At the start of a line that opens with `let x` and a non-word character, the match is `let x`. */
  lemma LetXMatchAt(s: string)
    requires |s| >= 6 && s[0] == 'l' && s[1] == 'e' && s[2] == 't' && s[3] == ' ' && s[4] == 'x'
    requires !IsWordChar(s[5])
    ensures MatchAt(SingleLetterVars, s, 0) == Some(5)
  {
    assert StartsAt(s, 0, "let") by {
      assert s[0..3] == "let";
    }
    assert Alt(s, 0, ["let", "const", "var"]) == Some(3);
    assert Run(s, 4, IsSpace) == 0;
    assert Run(s, 3, IsSpace) == 1;
  }

  /** On such a line the leftmost `single-letter-vars` match is the five characters at index 0. */
  lemma LetXLeftmost(s: string)
    requires |s| >= 6 && s[0] == 'l' && s[1] == 'e' && s[2] == 't' && s[3] == ' ' && s[4] == 'x'
    requires !IsWordChar(s[5])
    ensures LeftmostFrom(SingleLetterVars, s, 0) == Some((0, 5))
  {
    LetXMatchAt(s);
    var found := LeftmostFrom(SingleLetterVars, s, 0);
    assert found.Some?;
    if found.value.0 > 0 {
      assert false;
    }
  }

  /** Such a line matches `single-letter-vars`, and the first match is `let x`. */
  lemma LetXOpening(s: string)
    requires |s| >= 6 && s[0] == 'l' && s[1] == 'e' && s[2] == 't' && s[3] == ' ' && s[4] == 'x'
    requires !IsWordChar(s[5])
    ensures Search(SingleLetterVars, s) == Some(s[..5])
  {
    LetXLeftmost(s);
  }

  /** `single-letter-vars` matches `let x` at the start of `let x = 1;`. */
  lemma LetXSingleLetter()
    ensures Search(SingleLetterVars, LET_X) == Some("let x")
  {
    LetXOpening(LET_X);
    assert LET_X[..5] == "let x";
  }

  /**
   * A line of fewer than 120 characters, without line breaks, loose equality, or any of the characters
   * `a c v w f /`, matches no rule except possibly `single-letter-vars`.
   */
  lemma OnlySingleLetterCanMatch(emptyCatch: string -> Option<string>, s: string, r: RuleId)
    requires MatchesCatchOnly(emptyCatch) && r != SingleLetterVars
    requires |s| < 120 && '\n' !in s && Search(LooseEq, s) == None
    requires 'a' !in s && 'c' !in s && 'v' !in s && 'w' !in s && 'f' !in s && '/' !in s
    ensures Engine(emptyCatch)(r, s).None?
  {
    match r
    case EmptyCatch =>
      if Contains(s, "catch") {
        ContainsChar(s, "catch", 'a');
      }
    case LongLines => LongLinesWholeLine(s);
    case LooseEq =>
    case Console => MissingCharNoMatch(r, s, 'c');
    case Var => MissingCharNoMatch(r, s, 'v');
    case TodoComment => MissingCharNoMatch(r, s, '/');
    case Eval => MissingCharNoMatch(r, s, 'v');
    case ForLoop => MissingCharNoMatch(r, s, 'f');
    case WhileTrue => MissingCharNoMatch(r, s, 'w');
    case Alert => MissingCharNoMatch(r, s, 'a');
    case DocumentWrite => MissingCharNoMatch(r, s, 'w');
    case NewArray => MissingCharNoMatch(r, s, 'w');
    case NewObject => MissingCharNoMatch(r, s, 'w');
  }

  lemma LetXTrimmed()
    ensures Trim(LET_X) == LET_X && Trim("let x") == "let x"
  {
    var s := LET_X;
    assert !IsSpace(s[0]) && !IsSpace(s[|s| - 1]);
    TrimNoSpace(s);
    var hit := "let x";
    assert !IsSpace(hit[0]) && !IsSpace(hit[|hit| - 1]);
    TrimNoSpace(hit);
  }

  /**
   * An added `let x = 1;` yields one finding, for `single-letter-vars` with match `let x`, and none for
   * `var` or any other rule, at whatever file and line number are in effect.
   */
  lemma LetXScenario(emptyCatch: string -> Option<string>, file: Option<string>, lineNumber: nat)
    requires MatchesCatchOnly(emptyCatch)
    ensures LineFindings(CATALOG, Engine(emptyCatch), file, lineNumber, LET_X)
            == [Finding(file, LET_X, Message(SingleLetterVars), lineNumber, "let x")]
  {
    var m := Engine(emptyCatch);
    LetXSingleLetter();
    LetXChars();
    LetXNoLooseEq();
    forall r | r != SingleLetterVars ensures m(r, LET_X).None? {
      OnlySingleLetterCanMatch(emptyCatch, LET_X, r);
    }
    CatalogComplete(SingleLetterVars);
    assert InCatalogOrder(CATALOG) by {
      NothingDisabled({});
    }
    SingleFinding(CATALOG, m, file, lineNumber, LET_X, SingleLetterVars, "let x");
    LetXTrimmed();
  }
}
