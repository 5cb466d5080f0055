/** What the scan promises, proved about Step and ScanLines. */
module ScanProperties {
  import opened Wrappers
  import opened Text
  import opened Rules
  import opened Patterns
  import opened Scan

  /** No line of `lines` is a `+++ b/` file header. */
  predicate NoFileHeader(lines: seq<string>)
  {
    forall k :: 0 <= k < |lines| ==> !StartsWith(lines[k], "+++ b/")
  }

  /** An added line: one leading `+`, not `+++`. */
  predicate IsAdded(line: string)
  {
    StartsWith(line, "+") && !StartsWith(line, "+++")
  }

  /** Every line of `lines` is an added line. */
  predicate AllAdded(lines: seq<string>)
  {
    forall k :: 0 <= k < |lines| ==> IsAdded(lines[k])
  }

  /**
   * Scanning is compositional: scanning `a + b` is scanning `a`, then scanning `b` from where `a` left
   * off, and the findings of `a` come before those of `b`. Findings are therefore ordered by the line
   * they came from.
   */
  lemma ScanAppend(rules: seq<RuleId>, matcher: Matcher, st: ScanState, a: seq<string>, b: seq<string>)
    ensures var first := ScanLines(rules, matcher, st, a);
            var second := ScanLines(rules, matcher, first.state, b);
            ScanLines(rules, matcher, st, a + b) == Scanned(second.state, first.findings + second.findings)
  {
    var step := (s, l) => Step(rules, matcher, s, l);
    ScanLinesIsFold(rules, matcher, st, a);
    ScanLinesIsFold(rules, matcher, ScanLines(rules, matcher, st, a).state, b);
    ScanLinesIsFold(rules, matcher, st, a + b);
    FoldAppend(step, st, a, b);
  }

  /** Three lines are scanned one after another, each from the state the previous one left. */
  lemma ScanThree(rules: seq<RuleId>, matcher: Matcher, st: ScanState, l0: string, l1: string, l2: string)
    ensures var a := ScanLines(rules, matcher, st, [l0]);
            var b := ScanLines(rules, matcher, a.state, [l1]);
            var c := ScanLines(rules, matcher, b.state, [l2]);
            ScanLines(rules, matcher, st, [l0, l1, l2]) == Scanned(c.state, a.findings + b.findings + c.findings)
  {
    ScanAppend(rules, matcher, st, [l0], [l1]);
    var a := ScanLines(rules, matcher, st, [l0]);
    ScanAppend(rules, matcher, st, [l0, l1], [l2]);
    assert [l0] + [l1] == [l0, l1] && [l0, l1] + [l2] == [l0, l1, l2];
  }

  /** ScanLines is the fold of Step. */
  lemma {:induction false} ScanLinesIsFold(rules: seq<RuleId>, matcher: Matcher, st: ScanState, lines: seq<string>)
    ensures ScanLines(rules, matcher, st, lines) == Fold((s, l) => Step(rules, matcher, s, l), st, lines)
  {
    if lines != [] {
      ScanLinesIsFold(rules, matcher, st, lines[..|lines| - 1]);
    }
  }

  /** Folding over `a + b` is folding over `a`, then over `b` from where `a` left off. */
  lemma {:induction false} FoldAppend(step: (ScanState, string) -> Scanned, st: ScanState, a: seq<string>, b: seq<string>)
    ensures var first := Fold(step, st, a);
            var second := Fold(step, first.state, b);
            Fold(step, st, a + b) == Scanned(second.state, first.findings + second.findings)
  {
    if b == [] {
      assert a + b == a;
    } else {
      var b', x := b[..|b| - 1], b[|b| - 1];
      assert (a + b)[..|a + b| - 1] == a + b';
      assert (a + b)[|a + b| - 1] == x;
      FoldAppend(step, st, a, b');
      var first := Fold(step, st, a);
      var mid := Fold(step, first.state, b');
      var last := step(mid.state, x);
      assert (first.findings + mid.findings) + last.findings == first.findings + (mid.findings + last.findings);
    }
  }

  /** Scanning a single line is one Step. */
  lemma ScanOne(rules: seq<RuleId>, matcher: Matcher, st: ScanState, line: string)
    ensures ScanLines(rules, matcher, st, [line]) == Step(rules, matcher, st, line)
  {
    assert [line][..0] == [];
  }

  /**
   * Inside a skipped file nothing happens: until the next `+++ b/` header, lines produce no findings and
   * leave the line number (indeed the whole state) unchanged.
   */
  lemma {:induction false} SkippedFileIsSilent(rules: seq<RuleId>, matcher: Matcher, st: ScanState, lines: seq<string>)
    requires st.skip && NoFileHeader(lines)
    ensures ScanLines(rules, matcher, st, lines) == Scanned(st, [])
  {
    if lines != [] {
      SkippedFileIsSilent(rules, matcher, st, lines[..|lines| - 1]);
    }
  }

  /**
   * A file header naming a path on the skip list silences the lines after it: no findings, and the line
   * number stays what it was, until the next header.
   */
  lemma SkipListedFile(rules: seq<RuleId>, matcher: Matcher, st: ScanState, path: string, lines: seq<string>)
    requires ShouldSkip(path) && NoFileHeader(lines)
    ensures ScanLines(rules, matcher, st, ["+++ b/" + path] + lines)
            == Scanned(ScanState(Some(path), st.lineNumber, true), [])
  {
    var header := "+++ b/" + path;
    StartsWithConcat("+++ b/", path);
    assert ScanLines(rules, matcher, st, [header]) == Scanned(ScanState(Some(path), st.lineNumber, true), []) by {
      assert [header][..0] == [];
    }
    ScanAppend(rules, matcher, st, [header], lines);
    SkippedFileIsSilent(rules, matcher, ScanState(Some(path), st.lineNumber, true), lines);
  }

  /** The skip list is made of suffix and substring tests: each listed name is skipped wherever it sits. */
  lemma SkipListExamples(dir: string)
    ensures ShouldSkip(dir + "package.json") && ShouldSkip(dir + "package-lock.json")
    ensures ShouldSkip(dir + "yarn.lock") && ShouldSkip(dir + "pnpm-lock.yaml")
    ensures forall rest :: ShouldSkip(dir + ".husky/" + rest)
    ensures !ShouldSkip("src/app.js")
  {
    EndsWithConcat(dir, "package.json");
    EndsWithConcat(dir, "package-lock.json");
    EndsWithConcat(dir, "yarn.lock");
    EndsWithConcat(dir, "pnpm-lock.yaml");
    forall rest ensures ShouldSkip(dir + ".husky/" + rest) {
      var hook := dir + ".husky/" + rest;
      assert StartsAt(hook, |dir|, ".husky/") by {
        assert hook[|dir|..|dir| + 7] == ".husky/";
      }
      ContainsIff(hook, ".husky/");
    }
    var app := "src/app.js";
    forall j | 0 <= j <= |app| ensures !StartsAt(app, j, ".husky/") {
      if j + 7 <= |app| { assert app[j..j + 7][0] == app[j]; }
    }
    ContainsIff(app, ".husky/");
  }

  /**
   * The converse of HunkStartFrom's contract: when index `j` holds the first `+` followed by a digit, the
   * hunk starts at the number written there.
   */
  lemma HunkStartIs(line: string, j: nat)
    requires PlusDigitAt(line, j) && forall j' :: 0 <= j' < j ==> !PlusDigitAt(line, j')
    ensures HunkStart(line) == Some(DigitsValue(line, j + 1))
  {
    var found := HunkStartFrom(line, 0);
    assert found.Some?;
    var j0 :| 0 <= j0 < |line| && PlusDigitAt(line, j0) && found.value == DigitsValue(line, j0 + 1)
              && forall j' :: 0 <= j' < j0 ==> !PlusDigitAt(line, j');
    assert j0 == j;
  }

  /**
   * A hunk header outside a skipped file produces no finding and sets the line number to the number after
   * its first `+<digits>`, or leaves it as it was when it has none.
   */
  lemma HunkHeaderStep(rules: seq<RuleId>, matcher: Matcher, st: ScanState, line: string)
    requires !st.skip && StartsWith(line, "@@")
    ensures Step(rules, matcher, st, line).findings == []
    ensures Step(rules, matcher, st, line).state == st.(lineNumber := Step(rules, matcher, st, line).state.lineNumber)
    ensures HunkStart(line).Some? ==> Step(rules, matcher, st, line).state.lineNumber == HunkStart(line).value
    ensures (forall j :: 0 <= j < |line| ==> !PlusDigitAt(line, j)) ==>
              Step(rules, matcher, st, line).state.lineNumber == st.lineNumber
    ensures forall j :: 0 <= j < |line| && PlusDigitAt(line, j) && (forall j' :: 0 <= j' < j ==> !PlusDigitAt(line, j'))
              ==> Step(rules, matcher, st, line).state.lineNumber == DigitsValue(line, j + 1)
  {
    forall j | 0 <= j < |line| && PlusDigitAt(line, j) && (forall j' :: 0 <= j' < j ==> !PlusDigitAt(line, j'))
      ensures Step(rules, matcher, st, line).state.lineNumber == DigitsValue(line, j + 1)
    {
      HunkStartIs(line, j);
    }
  }

  /** A `+++ b/<path>` header names the current file and sets the skip flag by the skip list, in any state. */
  lemma FileHeaderStep(rules: seq<RuleId>, matcher: Matcher, st: ScanState, path: string)
    ensures Step(rules, matcher, st, "+++ b/" + path) == Scanned(ScanState(Some(path), st.lineNumber, ShouldSkip(path)), [])
  {
    StartsWithConcat("+++ b/", path);
    assert ("+++ b/" + path)[6..] == path;
  }

  /**
   * A hunk header of the form `@@ -<d>,<d> +<d> @@` with single digits: the new version starts at the
   * digit after the `+`.
   */
  lemma SingleDigitHunk(line: string)
    requires |line| == 13 && line[..2] == "@@" && line[8] == '+' && IsDigit(line[9]) && !IsDigit(line[10])
    requires forall j :: 0 <= j < 8 ==> line[j] != '+'
    ensures StartsWith(line, "@@")
    ensures HunkStart(line) == Some(line[9] as int - '0' as int)
  {
    HunkStartIs(line, 8);
    assert Run(line, 10, IsDigit) == 0;
    assert Run(line, 9, IsDigit) == 1;
    var ds := line[9..10];
    assert ds[..0] == [] && ds[0] == line[9];
    assert DigitsValue(line, 9) == DecimalValue(ds) == 10 * DecimalValue([]) + (line[9] as int - '0' as int);
  }

  /** The findings of consecutive added lines numbered from `first` on, line after line. */
  function AddedFindings(rules: seq<RuleId>, matcher: Matcher, file: Option<string>, first: nat, lines: seq<string>)
    : seq<Finding>
    requires AllAdded(lines)
  {
    if lines == [] then []
    else
      var n := |lines| - 1;
      AddedFindings(rules, matcher, file, first, lines[..n]) + LineFindings(rules, matcher, file, first + n, lines[n][1..])
  }

  /**
   * Each added line raises the line number by exactly one: a run of added lines starting at line number
   * `n` is reported as lines n, n+1, n+2, ..., in the current file.
   */
  lemma {:induction false} AddedLinesAreNumbered(rules: seq<RuleId>, matcher: Matcher, st: ScanState, lines: seq<string>)
    requires !st.skip && AllAdded(lines)
    ensures ScanLines(rules, matcher, st, lines)
            == Scanned(st.(lineNumber := st.lineNumber + |lines|), AddedFindings(rules, matcher, st.file, st.lineNumber, lines))
  {
    if lines != [] {
      var n := |lines| - 1;
      var init := lines[..n];
      assert AllAdded(init) by {
        forall k | 0 <= k < |init| ensures IsAdded(init[k]) {
          assert init[k] == lines[k];
        }
      }
      AddedLinesAreNumbered(rules, matcher, st, init);
      var mid := st.(lineNumber := st.lineNumber + n);
      var last := lines[n];
      AddedStep(rules, matcher, mid, last);
    }
  }

  /** An added line outside a skipped file reports its findings at the current line number and advances it. */
  lemma AddedStep(rules: seq<RuleId>, matcher: Matcher, st: ScanState, line: string)
    requires !st.skip && StartsWith(line, "+") && !StartsWith(line, "+++")
    ensures Step(rules, matcher, st, line)
            == Scanned(st.(lineNumber := st.lineNumber + 1), LineFindings(rules, matcher, st.file, st.lineNumber, line[1..]))
  {
    assert Classify(line) == Added(line[1..]);
  }

  /** Scanning a `+++ b/<path>` header alone opens that file, as FileHeaderStep says. */
  lemma FileHeaderScan(rules: seq<RuleId>, matcher: Matcher, st: ScanState, path: string)
    ensures ScanLines(rules, matcher, st, ["+++ b/" + path]) == Scanned(ScanState(Some(path), st.lineNumber, ShouldSkip(path)), [])
  {
    ScanOne(rules, matcher, st, "+++ b/" + path);
    FileHeaderStep(rules, matcher, st, path);
  }

  /** Scanning one added line outside a skipped file reports its findings and advances the line number. */
  lemma AddedLineScan(rules: seq<RuleId>, matcher: Matcher, st: ScanState, line: string)
    requires !st.skip && IsAdded(line)
    ensures ScanLines(rules, matcher, st, [line])
            == Scanned(st.(lineNumber := st.lineNumber + 1), LineFindings(rules, matcher, st.file, st.lineNumber, line[1..]))
  {
    ScanOne(rules, matcher, st, line);
    AddedStep(rules, matcher, st, line);
  }

  /** Lines that only start with `+++` (other than a `b/` header) are ignored and do not advance the count. */
  lemma TripleplusLineIgnored(rules: seq<RuleId>, matcher: Matcher, st: ScanState, line: string)
    requires StartsWith(line, "+++") && !StartsWith(line, "+++ b/")
    ensures Step(rules, matcher, st, line) == Scanned(st, [])
  {
    assert line[0] == '+';
  }

  /** `+++ /dev/null` (a deleted file) changes neither the current file nor anything else. */
  lemma DevNullHeaderIgnored(rules: seq<RuleId>, matcher: Matcher, st: ScanState)
    ensures Step(rules, matcher, st, "+++ /dev/null") == Scanned(st, [])
  {
    var line := "+++ /dev/null";
    assert line[..3] == "+++";
    assert line[4] != "+++ b/"[4];
    TripleplusLineIgnored(rules, matcher, st, line);
  }

  /** None of `lines` is added text, a `+++` line or a hunk header: removed lines and context lines. */
  predicate OtherLines(lines: seq<string>)
  {
    forall k :: 0 <= k < |lines| ==> !StartsWith(lines[k], "+") && !StartsWith(lines[k], "@@")
  }

  /** Removed lines, which start with `-`, are such lines. */
  lemma RemovedLinesAreOther(lines: seq<string>)
    requires forall k :: 0 <= k < |lines| ==> StartsWith(lines[k], "-")
    ensures OtherLines(lines)
  {
    forall k | 0 <= k < |lines| ensures !StartsWith(lines[k], "+") && !StartsWith(lines[k], "@@") {
      assert lines[k][0] == '-';
    }
  }

  /**
   * Removed and context lines leave the whole state alone: no finding, and the line number does not
   * move, since only added lines count toward it.
   */
  lemma {:induction false} OtherLinesKeepState(rules: seq<RuleId>, matcher: Matcher, st: ScanState, lines: seq<string>)
    requires OtherLines(lines)
    ensures ScanLines(rules, matcher, st, lines) == Scanned(st, [])
  {
    if lines != [] {
      var init := lines[..|lines| - 1];
      var last := lines[|lines| - 1];
      assert OtherLines(init) by {
        forall k | 0 <= k < |init| ensures !StartsWith(init[k], "+") && !StartsWith(init[k], "@@") {
          assert init[k] == lines[k];
        }
      }
      OtherLinesKeepState(rules, matcher, st, init);
      NotAddedNotFileHeader(last);
    }
  }

  /** A line that does not start with `+` is not a `+++ b/` file header either. */
  lemma NotAddedNotFileHeader(line: string)
    requires !StartsWith(line, "+")
    ensures !StartsWith(line, "+++ b/")
  {
    assert |line| >= 1 ==> line[..1] == [line[0]];
    assert |line| >= 6 ==> line[..6][0] == line[0];
  }

  /** A diff without added lines produces no finding at all. */
  lemma {:induction false} NoAddedLinesNoFindings(rules: seq<RuleId>, matcher: Matcher, st: ScanState, lines: seq<string>)
    requires forall k :: 0 <= k < |lines| ==> !(StartsWith(lines[k], "+") && !StartsWith(lines[k], "+++"))
    ensures ScanLines(rules, matcher, st, lines).findings == []
  {
    if lines != [] {
      NoAddedLinesNoFindings(rules, matcher, st, lines[..|lines| - 1]);
    }
  }

  /** Added lines before any `+++ b/` header are reported with a null file. */
  lemma {:induction false} NoHeaderNullFile(rules: seq<RuleId>, matcher: Matcher, lines: seq<string>)
    requires NoFileHeader(lines)
    ensures ScanLines(rules, matcher, START, lines).state.file == None
    ensures forall f :: f in ScanLines(rules, matcher, START, lines).findings ==> f.file == None
  {
    if lines != [] {
      NoHeaderNullFile(rules, matcher, lines[..|lines| - 1]);
    }
  }

  /**
   * Finding `f` comes from line `j` of `lines`, an added line outside a skipped file, and reports rule
   * `r`, which matched the line's text, with the file and line number in effect just before that line.
   */
  ghost predicate ExplainedBy(rules: seq<RuleId>, matcher: Matcher, st: ScanState, lines: seq<string>,
                              f: Finding, j: nat, r: RuleId)
  {
    j < |lines| && Classify(lines[j]).Added? && r in rules
    && var code := lines[j][1..];
       var before := ScanLines(rules, matcher, st, lines[..j]).state;
       !before.skip && matcher(r, code).Some?
       && f == MakeFinding(before.file, before.lineNumber, code, r, matcher(r, code).value)
  }

  /**
   * Every finding is explained: it comes from an added line, names an active rule whose pattern matched
   * that line's text (minus the `+`), carries the trimmed text and trimmed match, and the file and line
   * number in effect at that line.
   */
  lemma {:induction false} FindingsExplained(rules: seq<RuleId>, matcher: Matcher, st: ScanState, lines: seq<string>)
    ensures forall f :: f in ScanLines(rules, matcher, st, lines).findings ==>
              exists j, r :: ExplainedBy(rules, matcher, st, lines, f, j, r)
  {
    if lines != [] {
      var n := |lines| - 1;
      var init := lines[..n];
      FindingsExplained(rules, matcher, st, init);
      var before := ScanLines(rules, matcher, st, init);
      var last := Step(rules, matcher, before.state, lines[n]);
      forall f | f in ScanLines(rules, matcher, st, lines).findings
        ensures exists j, r :: ExplainedBy(rules, matcher, st, lines, f, j, r)
      {
        if f in before.findings {
          var j: nat, r: RuleId :| ExplainedBy(rules, matcher, st, init, f, j, r);
          assert lines[..j] == init[..j];
          assert ExplainedBy(rules, matcher, st, lines, f, j, r);
        } else {
          assert f in last.findings;
          var code := lines[n][1..];
          var hits := Matching(rules, matcher, code);
          var k :| 0 <= k < |last.findings| && last.findings[k] == f;
          assert hits[k] in hits;
          assert ExplainedBy(rules, matcher, st, lines, f, n, hits[k]);
        }
      }
    }
  }

  /** Matchers that agree on the rules give the same findings for one line. */
  lemma {:induction false} LineFindingsAgree(rules: seq<RuleId>, m1: Matcher, m2: Matcher, file: Option<string>,
                                              lineNumber: nat, code: string)
    requires forall r :: r in rules ==> m1(r, code) == m2(r, code)
    ensures LineFindings(rules, m1, file, lineNumber, code) == LineFindings(rules, m2, file, lineNumber, code)
  {
    if rules != [] {
      LineFindingsAgree(rules[..|rules| - 1], m1, m2, file, lineNumber, code);
    }
  }

  /**
   * Only the active rules' patterns matter: two matchers that agree on the active rules give the same
   * scan, whatever a disabled rule's pattern would have matched.
   */
  lemma {:induction false} OnlyActiveRulesMatter(rules: seq<RuleId>, m1: Matcher, m2: Matcher, st: ScanState,
                                                  lines: seq<string>)
    requires forall r, s :: r in rules ==> m1(r, s) == m2(r, s)
    ensures ScanLines(rules, m1, st, lines) == ScanLines(rules, m2, st, lines)
  {
    if lines != [] {
      var n := |lines| - 1;
      OnlyActiveRulesMatter(rules, m1, m2, st, lines[..n]);
      var before := ScanLines(rules, m1, st, lines[..n]).state;
      match Classify(lines[n])
      case Added(code) =>
        LineFindingsAgree(rules, m1, m2, before.file, before.lineNumber, code);
      case _ =>
    }
  }

  /**
   * A disabled rule never produces a finding: every finding reports the message of a rule whose
   * identifier is not disabled and whose pattern matched.
   */
  lemma DisabledRulesSilent(disabled: set<string>, matcher: Matcher, lines: seq<string>)
    ensures forall f :: f in ScanLines(ActiveRules(disabled), matcher, START, lines).findings ==>
              exists r :: Id(r) !in disabled && f.message == Message(r)
  {
    var rules := ActiveRules(disabled);
    FindingsExplained(rules, matcher, START, lines);
    forall f | f in ScanLines(rules, matcher, START, lines).findings
      ensures exists r :: Id(r) !in disabled && f.message == Message(r)
    {
      var j: nat, r: RuleId :| ExplainedBy(rules, matcher, START, lines, f, j, r);
      assert f.message == Message(r);
    }
  }

  /** Rules in catalog order are distinct: no rule is listed twice. */
  lemma OrderedPairDistinct(hits: seq<RuleId>)
    requires InCatalogOrder(hits)
    ensures forall i, j :: 0 <= i < j < |hits| ==> hits[i] != hits[j]
  {
  }

  /** The first rule among `rules` that matches is the only one: then it is the only hit. */
  lemma SingleHit(rules: seq<RuleId>, matcher: Matcher, code: string, r: RuleId)
    requires InCatalogOrder(rules) && r in rules && matcher(r, code).Some?
    requires forall r' :: r' in rules && r' != r ==> matcher(r', code).None?
    ensures Matching(rules, matcher, code) == [r]
  {
    var hits := Matching(rules, matcher, code);
    assert r in hits;
    assert |hits| >= 2 ==> hits[0] in hits && hits[1] in hits;
    OrderedPairDistinct(hits);
    assert hits[0] in hits;
  }

  /** When exactly one rule matches an added line, the line yields exactly that rule's finding. */
  lemma SingleFinding(rules: seq<RuleId>, matcher: Matcher, file: Option<string>, lineNumber: nat, code: string,
                      r: RuleId, m: string)
    requires InCatalogOrder(rules) && r in rules && matcher(r, code) == Some(m)
    requires forall r' :: r' in rules && r' != r ==> matcher(r', code).None?
    ensures LineFindings(rules, matcher, file, lineNumber, code) == [MakeFinding(file, lineNumber, code, r, m)]
  {
    SingleHit(rules, matcher, code, r);
  }

  /** A line that no rule matches yields no finding. */
  lemma {:induction false} NoHitNoFinding(rules: seq<RuleId>, matcher: Matcher, file: Option<string>, lineNumber: nat,
                                          code: string)
    requires forall r :: r in rules ==> matcher(r, code).None?
    ensures LineFindings(rules, matcher, file, lineNumber, code) == []
  {
    if rules != [] {
      assert rules[|rules| - 1] in rules;
      NoHitNoFinding(rules[..|rules| - 1], matcher, file, lineNumber, code);
    }
  }

  /** No finding without a match: when no rule matches the text of any added line, the scan finds nothing. */
  lemma {:induction false} NoMatchNoFindings(rules: seq<RuleId>, matcher: Matcher, st: ScanState, lines: seq<string>)
    requires forall k, r :: 0 <= k < |lines| && IsAdded(lines[k]) && r in rules ==> matcher(r, lines[k][1..]).None?
    ensures ScanLines(rules, matcher, st, lines).findings == []
  {
    if lines != [] {
      var n := |lines| - 1;
      NoMatchNoFindings(rules, matcher, st, lines[..n]);
      var before := ScanLines(rules, matcher, st, lines[..n]).state;
      if IsAdded(lines[n]) && !before.skip {
        AddedStep(rules, matcher, before, lines[n]);
        NoHitNoFinding(rules, matcher, before.file, before.lineNumber, lines[n][1..]);
      }
    }
  }
}
