/**
 * `runMeanLinter`: the rules left active by the configuration are run over the lines of the staged diff,
 * and the run passes exactly when no finding was made. The configuration enters as the set of disabled
 * rule identifiers; the `empty-catch` pattern enters as a matcher.
 */
module Linter {
  import opened Wrappers
  import opened Text
  import opened Rules
  import opened Patterns
  import opened Scan
  import opened ScanProperties
  import opened Report

  /** The findings of a run over `diff` with the rules `disabled` leaves active. */
  function Findings(disabled: set<string>, matcher: Matcher, diff: string): seq<Finding>
  {
    ScanLines(ActiveRules(disabled), matcher, START, Split(diff)).findings
  }

  /**
   * One run of the linter: filter the rules, split the diff into lines, scan them, and decide. When
   * there are findings they are also grouped by file, which is what the printed report is made from.
   */
  method RunMeanLinter(diff: string, disabled: set<string>, matcher: Matcher) returns (outcome: Outcome)
    ensures outcome.Pass? <==> Findings(disabled, matcher, diff) == []
    ensures outcome.Reject? ==> outcome.issues == Findings(disabled, matcher, diff)
  {
    var rules := ActiveRules(disabled);
    var lines := Split(diff);
    var issues := ScanDiff(rules, matcher, lines);
    outcome := Decide(issues);
    if outcome.Reject? {
      var files, groups := GroupByFile(issues);
    }
  }

  /** A diff that adds no line passes, whatever it removes and whatever the rules are. */
  lemma NoAddedLinesPass(disabled: set<string>, matcher: Matcher, diff: string)
    requires forall k :: 0 <= k < |Split(diff)| ==>
               !(StartsWith(Split(diff)[k], "+") && !StartsWith(Split(diff)[k], "+++"))
    ensures Findings(disabled, matcher, diff) == []
    ensures Decide(Findings(disabled, matcher, diff)) == Pass
  {
    NoAddedLinesNoFindings(ActiveRules(disabled), matcher, START, Split(diff));
  }

  /** A diff made only of removed lines passes. */
  lemma RemovalsOnlyPass(disabled: set<string>, matcher: Matcher, removed: seq<string>)
    requires |removed| >= 1 && forall k :: 0 <= k < |removed| ==> '\n' !in removed[k]
    ensures var diff := Join(seq(|removed|, k requires 0 <= k < |removed| => "-" + removed[k]));
            Decide(Findings(disabled, matcher, diff)) == Pass
  {
    var lines := seq(|removed|, k requires 0 <= k < |removed| => "-" + removed[k]);
    forall k | 0 <= k < |lines| ensures '\n' !in lines[k] && lines[k][0] == '-' {
      assert lines[k] == "-" + removed[k];
    }
    SplitJoin(lines);
    NoAddedLinesPass(disabled, matcher, Join(lines));
  }

  /**
   * Disabling a rule removes it entirely: the findings do not depend on what a disabled rule's pattern
   * would match.
   */
  lemma DisabledPatternIrrelevant(disabled: set<string>, m1: Matcher, m2: Matcher, diff: string)
    requires forall r, s :: Id(r) !in disabled ==> m1(r, s) == m2(r, s)
    ensures Findings(disabled, m1, diff) == Findings(disabled, m2, diff)
  {
    OnlyActiveRulesMatter(ActiveRules(disabled), m1, m2, START, Split(diff));
  }

  /** The header `@@ -1,0 +5 @@` is a hunk header whose new version starts at line 5. */
  lemma HunkFive()
    ensures StartsWith("@@ -1,0 +5 @@", "@@") && HunkStart("@@ -1,0 +5 @@") == Some(5)
  {
    var hunk := "@@ -1,0 +5 @@";
    assert hunk[..2] == "@@";
    forall j | 0 <= j < 8 ensures hunk[j] != '+' {}
    SingleDigitHunk(hunk);
  }

  /** Outside a skipped file, the header `@@ -1,0 +5 @@` sets the line number to 5 and reports nothing. */
  lemma HunkAtFive(rules: seq<RuleId>, matcher: Matcher, st: ScanState)
    requires !st.skip
    ensures Step(rules, matcher, st, "@@ -1,0 +5 @@") == Scanned(st.(lineNumber := 5), [])
  {
    var hunk := "@@ -1,0 +5 @@";
    assert hunk[..2] == "@@";
    forall j | 0 <= j < 8 ensures hunk[j] != '+' {}
    SingleDigitHunk(hunk);
    HunkHeaderStep(rules, matcher, st, hunk);
  }

  /**
   * After a hunk header that starts the new version at line `n`, a run of added lines is reported as
   * lines `n`, `n + 1`, ..., and the next line number is `n` plus the number of lines.
   */
  lemma HunkNumbersAddedLines(rules: seq<RuleId>, matcher: Matcher, st: ScanState, hunk: string, n: nat,
                              lines: seq<string>)
    requires !st.skip && StartsWith(hunk, "@@") && HunkStart(hunk) == Some(n) && AllAdded(lines)
    ensures ScanLines(rules, matcher, st, [hunk] + lines)
            == Scanned(st.(lineNumber := n + |lines|), AddedFindings(rules, matcher, st.file, n, lines))
  {
    HunkLineScan(rules, matcher, st, hunk, n);
    ScanAppend(rules, matcher, st, [hunk], lines);
    AddedLinesAreNumbered(rules, matcher, st.(lineNumber := n), lines);
  }

  /**
   * A zero-context hunk that replaces lines: the header starts the new version at `n`, the removed lines
   * leave the line number alone, and the added lines after them are reported as `n`, `n + 1`, ....
   */
  lemma ModifyHunk(rules: seq<RuleId>, matcher: Matcher, st: ScanState, hunk: string, n: nat,
                   removed: seq<string>, added: seq<string>)
    requires !st.skip && StartsWith(hunk, "@@") && HunkStart(hunk) == Some(n)
    requires OtherLines(removed) && AllAdded(added)
    ensures ScanLines(rules, matcher, st, [hunk] + removed + added)
            == Scanned(st.(lineNumber := n + |added|), AddedFindings(rules, matcher, st.file, n, added))
  {
    var at := st.(lineNumber := n);
    HunkLineScan(rules, matcher, st, hunk, n);
    ScanAppend(rules, matcher, st, [hunk], removed);
    OtherLinesKeepState(rules, matcher, at, removed);
    ScanAppend(rules, matcher, st, [hunk] + removed, added);
    AddedLinesAreNumbered(rules, matcher, at, added);
  }

  /** After a hunk header starting at `n`, three added lines report their findings as lines `n`, `n + 1`, `n + 2`. */
  lemma ThreeAddedAfterHunk(rules: seq<RuleId>, matcher: Matcher, st: ScanState, hunk: string, n: nat,
                            a: string, b: string, c: string)
    requires !st.skip && StartsWith(hunk, "@@") && HunkStart(hunk) == Some(n)
    requires IsAdded(a) && IsAdded(b) && IsAdded(c)
    ensures ScanLines(rules, matcher, st, [hunk, a, b, c])
            == Scanned(st.(lineNumber := n + 3),
                       LineFindings(rules, matcher, st.file, n, a[1..]) + LineFindings(rules, matcher, st.file, n + 1, b[1..])
                       + LineFindings(rules, matcher, st.file, n + 2, c[1..]))
  {
    assert AllAdded([a, b, c]);
    HunkNumbersAddedLines(rules, matcher, st, hunk, n, [a, b, c]);
    assert [hunk] + [a, b, c] == [hunk, a, b, c];
    AddedFindingsOfThree(rules, matcher, st.file, n, a, b, c);
  }

  /** After `@@ -1,0 +5 @@`, three added lines report their findings as lines 5, 6 and 7, in that order. */
  lemma HunkAtFiveThreeLines(rules: seq<RuleId>, matcher: Matcher, st: ScanState, a: string, b: string, c: string)
    requires !st.skip && IsAdded(a) && IsAdded(b) && IsAdded(c)
    ensures ScanLines(rules, matcher, st, ["@@ -1,0 +5 @@", a, b, c])
            == Scanned(st.(lineNumber := 8),
                       LineFindings(rules, matcher, st.file, 5, a[1..]) + LineFindings(rules, matcher, st.file, 6, b[1..])
                       + LineFindings(rules, matcher, st.file, 7, c[1..]))
  {
    HunkFive();
    ThreeAddedAfterHunk(rules, matcher, st, "@@ -1,0 +5 @@", 5, a, b, c);
  }

  /** A hunk header alone, outside a skipped file, moves to the line it names. */
  lemma HunkLineScan(rules: seq<RuleId>, matcher: Matcher, st: ScanState, hunk: string, n: nat)
    requires !st.skip && StartsWith(hunk, "@@") && HunkStart(hunk) == Some(n)
    ensures ScanLines(rules, matcher, st, [hunk]) == Scanned(st.(lineNumber := n), [])
  {
    HunkHeaderStep(rules, matcher, st, hunk);
    ScanOne(rules, matcher, st, hunk);
  }

  lemma AddedFindingsOfThree(rules: seq<RuleId>, matcher: Matcher, file: Option<string>, first: nat,
                             a: string, b: string, c: string)
    requires IsAdded(a) && IsAdded(b) && IsAdded(c)
    ensures AddedFindings(rules, matcher, file, first, [a, b, c])
            == LineFindings(rules, matcher, file, first, a[1..]) + LineFindings(rules, matcher, file, first + 1, b[1..])
               + LineFindings(rules, matcher, file, first + 2, c[1..])
  {
    assert [a, b, c][..2] == [a, b] && [a, b][..1] == [a] && [a][..0] == [];
    assert AddedFindings(rules, matcher, file, first, [a])
           == LineFindings(rules, matcher, file, first, a[1..]);
    assert AddedFindings(rules, matcher, file, first, [a, b])
           == AddedFindings(rules, matcher, file, first, [a]) + LineFindings(rules, matcher, file, first + 1, b[1..]);
  }

  /**
   * The lines of a file on the skip list, such as a lock file, add no finding: the scan with the file
   * is the scan without it, up to the file name left in the state.
   */
  lemma SkippedFileAddsNothing(rules: seq<RuleId>, matcher: Matcher, before: seq<string>, path: string,
                               lines: seq<string>)
    requires ShouldSkip(path) && NoFileHeader(lines)
    ensures ScanLines(rules, matcher, START, before + (["+++ b/" + path] + lines)).findings
            == ScanLines(rules, matcher, START, before).findings
  {
    var first := ScanLines(rules, matcher, START, before);
    ScanAppend(rules, matcher, START, before, ["+++ b/" + path] + lines);
    SkipListedFile(rules, matcher, first.state, path, lines);
  }
}
