/**
 * The diff scan: a pass over the lines of a zero-context unified diff that tracks the current file, the
 * new-version line number and whether the file is on the skip list, and tests every active rule against
 * every added line. Step is the effect of one line on that state; ScanLines folds it over the lines;
 * ScanDiff is the loop itself, proved to compute ScanLines.
 */
module Scan {
  import opened Wrappers
  import opened Text
  import opened Rules
  import opened Patterns

  /** One reported rule match on one added line. */
  datatype Finding = Finding(file: Option<string>, code: string, message: string, lineNumber: nat, matched: string)

  /** The scan's variables: the current file (null before any file header), the line number, the skip flag. */
  datatype ScanState = ScanState(file: Option<string>, lineNumber: nat, skip: bool)

  /** The state before the first line. */
  const START := ScanState(None, 0, false)

  /** The state after some lines, with the findings they produced. */
  datatype Scanned = Scanned(state: ScanState, findings: seq<Finding>)

  /** A path the linter never inspects: the package manifest, the lock files, or anything under `.husky/`. */
  predicate ShouldSkip(path: string)
  {
    EndsWith(path, "package.json") || EndsWith(path, "package-lock.json") || EndsWith(path, "yarn.lock")
    || EndsWith(path, "pnpm-lock.yaml") || Contains(path, ".husky/")
  }

  /** A `+` at index `i` with a digit after it. */
  predicate PlusDigitAt(line: string, i: nat)
  {
    i + 1 < |line| && line[i] == '+' && IsDigit(line[i + 1])
  }

  /** The value of the digits that start at index `i`: `parseInt` of the longest run of digits there. */
  function DigitsValue(line: string, i: nat): nat
    requires i <= |line|
  {
    DecimalValue(line[i..i + Run(line, i, IsDigit)])
  }

  /** The first index from `i` on that holds a `+` followed by a digit, if there is one. */
  function FirstPlusDigit(line: string, i: nat): (j: Option<nat>)
    requires i <= |line|
    ensures j.None? ==> forall k :: i <= k < |line| ==> !PlusDigitAt(line, k)
    ensures j.Some? ==> i <= j.value < |line| && PlusDigitAt(line, j.value)
                        && forall k :: i <= k < j.value ==> !PlusDigitAt(line, k)
    decreases |line| - i
  {
    if PlusDigitAt(line, i) then Some(i)
    else if i + 1 >= |line| then None
    else FirstPlusDigit(line, i + 1)
  }

  /**
   * `line.match(/\+(\d+)/)` from index `i` on, then `parseInt(match[1], 10)`: the number after the first
   * `+` that a digit follows, or nothing when there is no such `+`.
   */
  function HunkStartFrom(line: string, i: nat): (n: Option<nat>)
    requires i <= |line|
    ensures n.None? <==> forall j :: i <= j < |line| ==> !PlusDigitAt(line, j)
    ensures n.Some? ==> exists j :: i <= j < |line| && PlusDigitAt(line, j) && n.value == DigitsValue(line, j + 1)
                                  && forall j' :: i <= j' < j ==> !PlusDigitAt(line, j')
  {
    match FirstPlusDigit(line, i)
    case None => None
    case Some(j) => Some(DigitsValue(line, j + 1))
  }

  /** The starting line a hunk header gives for the new version of the file. */
  function HunkStart(line: string): Option<nat>
  {
    HunkStartFrom(line, 0)
  }

  /** How the scan reads one diff line, before the skip flag is consulted. */
  datatype LineKind = FileHeader(path: string) | HunkHeader(start: Option<nat>) | Added(code: string) | Ignored

  /**
   * `+++ b/<path>` names the file; `@@` opens a hunk; a line with one leading `+` (not `+++`) is added
   * text; anything else (context, removals, `---`, `+++ /dev/null`, metadata) is ignored.
   */
  function Classify(line: string): (k: LineKind)
    ensures k.FileHeader? <==> StartsWith(line, "+++ b/")
    ensures k.FileHeader? ==> line == "+++ b/" + k.path
    ensures k.HunkHeader? <==> StartsWith(line, "@@")
    ensures k.Added? <==> StartsWith(line, "+") && !StartsWith(line, "+++")
    ensures k.Added? ==> line == "+" + k.code
  {
    assert StartsWith(line, "+++ b/") ==> line[0] == '+';
    assert StartsWith(line, "@@") ==> line[0] == '@';
    if StartsWith(line, "+++ b/") then FileHeader(line[6..])
    else if StartsWith(line, "@@") then HunkHeader(HunkStart(line))
    else if StartsWith(line, "+") && !StartsWith(line, "+++") then Added(line[1..])
    else Ignored
  }

  /** The finding rule `r` reports for added text `code`, whose first match is `m`. */
  function MakeFinding(file: Option<string>, lineNumber: nat, code: string, r: RuleId, m: string): Finding
  {
    Finding(file, Trim(code), Message(r), lineNumber, Trim(m))
  }

  /** The rules of `rules` whose pattern matches `code`, in the order given. */
  function Matching(rules: seq<RuleId>, matcher: Matcher, code: string): (hits: seq<RuleId>)
    ensures forall r :: r in hits <==> r in rules && matcher(r, code).Some?
    ensures InCatalogOrder(rules) ==> InCatalogOrder(hits)
  {
    if rules == [] then []
    else
      var rest := Matching(rules[..|rules| - 1], matcher, code);
      var last := rules[|rules| - 1];
      assert forall r :: r in rules <==> r in rules[..|rules| - 1] || r == last;
      assert InCatalogOrder(rules) ==> forall x :: x in rest ==> Rank(x) < Rank(last) by {
        if InCatalogOrder(rules) {
          forall x | x in rest ensures Rank(x) < Rank(last) {
            var i :| 0 <= i < |rules| - 1 && rules[i] == x;
          }
        }
      }
      if matcher(last, code).Some? then rest + [last] else rest
  }

  /**
   * The findings for one added line: every rule is tried (no short-circuit), and each matching rule
   * contributes one finding, in rule order, carrying the file and line number in effect.
   */
  function LineFindings(rules: seq<RuleId>, matcher: Matcher, file: Option<string>, lineNumber: nat, code: string)
    : (fs: seq<Finding>)
    ensures var hits := Matching(rules, matcher, code);
      |fs| == |hits|
      && forall k :: 0 <= k < |fs| ==>
           fs[k] == MakeFinding(file, lineNumber, code, hits[k], matcher(hits[k], code).value)
  {
    if rules == [] then []
    else
      var rest := LineFindings(rules[..|rules| - 1], matcher, file, lineNumber, code);
      var last := rules[|rules| - 1];
      match matcher(last, code)
      case None => rest
      case Some(m) => rest + [MakeFinding(file, lineNumber, code, last, m)]
  }

  /** The effect of one diff line on the scan state, and the findings it produces. */
  function Step(rules: seq<RuleId>, matcher: Matcher, st: ScanState, line: string): Scanned
  {
    match Classify(line)
    case FileHeader(path) => Scanned(ScanState(Some(path), st.lineNumber, ShouldSkip(path)), [])
    case HunkHeader(start) =>
      if st.skip then Scanned(st, [])
      else Scanned(st.(lineNumber := if start.Some? then start.value else st.lineNumber), [])
    case Added(code) =>
      if st.skip then Scanned(st, [])
      else Scanned(st.(lineNumber := st.lineNumber + 1), LineFindings(rules, matcher, st.file, st.lineNumber, code))
    case Ignored => Scanned(st, [])
  }

  /** The scan of `lines` from state `st`, one Step per line in order. */
  function ScanLines(rules: seq<RuleId>, matcher: Matcher, st: ScanState, lines: seq<string>): Scanned
  {
    if lines == [] then Scanned(st, [])
    else
      var before := ScanLines(rules, matcher, st, lines[..|lines| - 1]);
      var last := Step(rules, matcher, before.state, lines[|lines| - 1]);
      Scanned(last.state, before.findings + last.findings)
  }

  /** The fold of any per-line step over `lines`, from state `st`. */
  function Fold(step: (ScanState, string) -> Scanned, st: ScanState, lines: seq<string>): Scanned
  {
    if lines == [] then Scanned(st, [])
    else
      var before := Fold(step, st, lines[..|lines| - 1]);
      var last := step(before.state, lines[|lines| - 1]);
      Scanned(last.state, before.findings + last.findings)
  }

  /** The loop of the linter over the diff's lines. */
  method ScanDiff(rules: seq<RuleId>, matcher: Matcher, lines: seq<string>) returns (issues: seq<Finding>)
    ensures issues == ScanLines(rules, matcher, START, lines).findings
  {
    issues := [];
    var currentFile: Option<string> := None;
    var lineNumber: nat := 0;
    var shouldSkipFile := false;
    for i := 0 to |lines|
      invariant ScanLines(rules, matcher, START, lines[..i])
                == Scanned(ScanState(currentFile, lineNumber, shouldSkipFile), issues)
    {
      var line := lines[i];
      assert lines[..i + 1][..i] == lines[..i];
      if StartsWith(line, "+++ b/") {
        currentFile := Some(line[6..]);
        shouldSkipFile := ShouldSkip(line[6..]);
        continue;
      }
      if shouldSkipFile {
        continue;
      }
      if StartsWith(line, "@@") {
        var start := HunkStart(line);
        if start.Some? {
          lineNumber := start.value;
        }
        continue;
      }
      if !StartsWith(line, "+") || StartsWith(line, "+++") {
        continue;
      }
      var found := CheckLine(rules, matcher, currentFile, lineNumber, line[1..]);
      issues := issues + found;
      if StartsWith(line, "+") {
        lineNumber := lineNumber + 1;
      }
    }
    assert lines[..|lines|] == lines;
  }

  /** The loop over the active rules for one added line, collecting a finding for each rule that matches. */
  method CheckLine(rules: seq<RuleId>, matcher: Matcher, file: Option<string>, lineNumber: nat, code: string)
    returns (found: seq<Finding>)
    ensures found == LineFindings(rules, matcher, file, lineNumber, code)
  {
    found := [];
    for k := 0 to |rules|
      invariant found == LineFindings(rules[..k], matcher, file, lineNumber, code)
    {
      assert rules[..k + 1][..k] == rules[..k];
      var m := matcher(rules[k], code);
      if m.Some? {
        found := found + [MakeFinding(file, lineNumber, code, rules[k], m.value)];
      }
    }
    assert rules[..|rules|] == rules;
  }
}
