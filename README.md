# mean-linter, modelled in Dafny

mean-linter is a pre-commit hook for JavaScript projects. It reads the staged changes as a unified diff
with zero context lines and checks every added line against a fixed catalog of fourteen rules (console
calls, `var`, empty catch blocks, long lines, single-letter variables, TODO comments, loose equality,
`eval`, classic `for` loops, `while(true)`, `alert`, `document.write`, `new Array()`, `new Object()`).
Users can disable rules by identifier in a configuration file. The commit passes when no finding is made;
otherwise every finding is reported, grouped by file, and the commit is rejected.

This project models the core of that check, `runMeanLinter` in `index.js`:

- `Rules` (rules.dfy): the catalog in its fixed order, with each rule's identifier and message, and the
  filter that drops disabled rules.
- `Text` (text.dfy): the string operations the scan uses. These are `startsWith`, the suffix test of a
  `$`-anchored pattern, substring search, `split("\n")`, `trim` with JavaScript's white-space set, and base-10 `parseInt`.
- `Patterns` (patterns.dfy): thirteen of the rule patterns, written out as "length of the match starting
  at index i" functions, and `Search`, which returns the text of the leftmost match as `line.match(regex)`
  does. With the `g` flag, `match` returns all matches, but only the first one (`matches[0]`) is used,
  so the same function serves both forms. The `empty-catch` pattern is a parameter.
- `Scan` (scan.dfy): the scan state (current file, line number, skip flag) and `Step`, the effect of one
  diff line on it. `ScanLines` is the fold of `Step` over the lines. `ScanDiff` is the imperative loop of
  the source, proved to compute `ScanLines`.
- `ScanProperties` (scan_properties.dfy): what the scan promises. It covers the skip list, hunk headers,
  line numbering, where each finding comes from, and the fact that disabled rules play no part.
- `Report` (report.dfy): the verdict, and the grouping of findings by file that the printed report
  walks through.
- `Linter` (linter.dfy): the entry point, and properties of whole runs.
- `Scenarios` (scenarios.dfy): whole runs on small concrete diffs, using the written-out patterns.

A pattern is seen by the scan as a `Matcher`: for a rule and a line's text, the text of its first
match, if any. `Engine(emptyCatch)` is the matcher the linter runs with. Properties of the scan hold for
every matcher. The concrete scenarios assume only that the `empty-catch` matcher never matches a line
that does not contain `catch`.

## Model

| member | source | states |
|---|---|---|
| Rules.CatalogComplete | index.js:16-33 | The catalog has fourteen entries, and every rule sits in it exactly once, at its rank. |
| Rules.IdInjective | index.js:16-33 | No two rules share an identifier, so a configured identifier disables at most one rule. |
| Rules.CatalogOrdered | index.js:16-33 | Each catalog entry's rank is its position, so the catalog itself is in catalog order. |
| Rules.Filter | index.js:34 | Filtering keeps exactly the rules of the input that satisfy the predicate. |
| Rules.FilterOrdered | index.js:34 | Filtering keeps the relative order: a list in catalog order stays in catalog order. |
| Rules.FilterAll | index.js:34 | Filtering by a predicate that every rule satisfies gives back the list unchanged. |
| Rules.Keep | index.js:34 | The filter keeps exactly the rules whose identifier is not disabled. If the input is in catalog order, so is the output. |
| Rules.ActiveRules | index.js:15-34 | The active rules are exactly the catalog entries whose identifier is not in the disabled set, in catalog order. |
| Rules.KeepAll | index.js:34 | Filtering removes nothing when none of the identifiers is disabled. |
| Rules.NothingDisabled | index.js:15-34 | A configuration that names no catalog identifier leaves the whole catalog active, in order. This covers an empty or missing configuration and one naming only unknown rules. |
| Text.Find | index.js:41 | The search returns the leftmost occurrence at or after the start index, or none when there is none. |
| Text.StartsWithConcat | index.js:51 | A string starts with any prefix it was built from. |
| Text.EndsWithConcat | index.js:37-40 | A string ends with any suffix it was built from. |
| Text.ContainsIff | index.js:41 | A substring test holds exactly when the text occurs at some index. |
| Text.ContainsChar | index.js:41 | A string containing a text contains each of that text's characters. |
| Text.Run | index.js:23 | A greedy character-class run stays within the string, covers only matching characters, and stops at the first non-matching one or at the end. |
| Text.RunBack | index.js:73 | A backward character-class run ending at `j` stays within the string, covers only matching characters, and stops at the first non-matching one or at the start. |
| Text.TrimSpec | index.js:73 | `trim` removes only white space, before and after, and the result neither starts nor ends with white space. |
| Text.TrimNoSpace | index.js:76 | A string with no white space at either end is its own trim. |
| Text.Split | index.js:44 | Splitting on `\n` gives at least one piece, and no piece contains a line break. |
| Text.JoinSplit | index.js:44 | Splitting loses nothing: joining the pieces with `\n` gives back the diff text. |
| Text.FindFirstBreak | index.js:44 | In a line without a break followed by `\n`, the first line break found from any index within that line is the one right after it. |
| Text.SplitJoin | index.js:44 | Splitting is the inverse of joining lines that contain no line break. |
| Text.DecimalString | index.js:61 | The decimal representation of a number is a non-empty run of digits. |
| Text.DecimalRoundTrip | index.js:61 | Parsing the decimal digits of `n` in base 10 gives back `n`. |
| Patterns.Alt | index.js:17 | An alternation matches at an index only when one of its alternatives occurs there, with that alternative's length. It fails only when none occurs there. |
| Patterns.AltIgnoringCase | index.js:25 | A case-insensitive alternation matches at an index exactly when one of its alternatives occurs there up to ASCII case, with that alternative's length. |
| Patterns.MatchAt | index.js:17-33 | A written-out pattern's match at an index is non-empty and lies within the line. |
| Patterns.FirstFrom | index.js:69 | Scanning indexes left to right returns the first index with a match, with no match at any index before it, or none exactly when no index in the range has a match. |
| Patterns.LeftmostFrom | index.js:69 | Returns the first index from `i` at which the pattern matches, with that match's length, which fits in the line. No index before it matches. It returns none exactly when the pattern matches at no index from `i` on. |
| Patterns.SearchFrom | index.js:69 | The search from `i` finds nothing exactly when there is no leftmost match from `i`. Otherwise it returns the text of the leftmost match: the characters from the first matching index, for the length of the match there. |
| Patterns.Search | index.js:69-76 | `line.match` finds nothing exactly when the leftmost-match search from index 0 finds no matching index, that is, when the pattern matches nowhere in the line. Otherwise `matches[0]` is the text of the leftmost match. |
| Patterns.AnchorNeeded | index.js:17-33 | Every match of the rules other than `empty-catch`, `long-lines` and `single-letter-vars` contains that rule's fixed text at a fixed offset. |
| Patterns.MissingCharNoMatch | index.js:17-33 | A line that lacks any character of such a rule's fixed text never matches that rule. |
| Patterns.LongLinesWholeLine | index.js:23 | On a line without line breaks, `long-lines` matches the whole line when it has at least 120 characters, and matches nothing otherwise. |
| Patterns.NoSpaceNoSingleLetter | index.js:24 | `single-letter-vars` never matches a line without white space. |
| Patterns.NoDoubleEqualsAt | index.js:26 | Where two `=` never follow each other, `==` does not occur at any index and `loose-equality` matches at none. |
| Patterns.NoDoubleEqualsNoLooseEq | index.js:26 | `loose-equality` finds nothing in a line with no two consecutive `=`. |
| Patterns.EvalIsSubstring | index.js:27 | `eval` matches exactly the lines containing `eval(`, and the match is `eval(`. |
| Patterns.EvalFoundFirst | index.js:27 | When `k` is the first index from `i` where `eval(` occurs, the search from `i` returns the `eval(` at `k`. |
| Scan.FirstPlusDigit | index.js:60 | Returns the first index, from the start index on, holding a `+` followed by a digit, or none when there is no such index. |
| Scan.HunkStartFrom | index.js:60-61 | A number is found exactly when some `+` is followed by a digit. It is the value of the digits after the first such `+`. |
| Scan.Classify | index.js:51-65 | A line is a file header iff it starts with `+++ b/`, a hunk header iff it starts with `@@`, and added text iff it starts with `+` but not `+++`. The header's path and the added code are what follows the prefix. |
| Scan.Matching | index.js:68-70 | The rules that report on a line are exactly the active rules whose pattern matches its text. They come in rule order, so each rule appears at most once. |
| Scan.LineFindings | index.js:67-79 | An added line gives one finding per matching rule, in rule order, with no short-circuit. Each finding carries the file and line number in effect, the trimmed code, the rule's message and the trimmed first match. |
| Scan.CheckLine | index.js:67-79 | The inner loop over the active rules returns exactly the findings of the line, in rule order. |
| Scan.ScanDiff | index.js:44-82 | The loop over the diff's lines returns exactly the findings of the fold of `Step` over those lines. |
| ScanProperties.ScanOne | index.js:50-82 | Scanning a single line is one step. |
| ScanProperties.ScanAppend | index.js:50-82 | Scanning is compositional. The findings of earlier lines come before those of later lines, so findings are ordered by line. |
| ScanProperties.ScanThree | index.js:50-82 | Scanning three lines is scanning each in turn from the state the previous one left, with the findings concatenated in line order. |
| ScanProperties.ScanLinesIsFold | index.js:50-82 | The scan is the left fold of its one-line step. |
| ScanProperties.FoldAppend | index.js:50-82 | A left fold over two runs of lines is the fold over the second run from the state the first left, with the outputs concatenated. |
| ScanProperties.SkippedFileIsSilent | index.js:57 | In a skipped file, every line up to the next `+++ b/` header leaves the whole state unchanged, line number included, and gives no finding. |
| ScanProperties.SkipListedFile | index.js:51-57 | A `+++ b/` header naming a skip-listed path silences all lines up to the next header, and the line number stays as it was. |
| ScanProperties.SkipListExamples | index.js:36-42 | `package.json`, `package-lock.json`, `yarn.lock` and `pnpm-lock.yaml` are skipped in any directory, and every path with `.husky/` in it, whatever follows, is skipped. `src/app.js` is not skipped. |
| ScanProperties.FileHeaderStep | index.js:51-55 | A `+++ b/<path>` header sets the current file to the path and the skip flag by the skip list, in any state, and keeps the line number. |
| ScanProperties.FileHeaderScan | index.js:51-55 | Scanning a `+++ b/<path>` line alone gives no finding, sets the file to the path and the skip flag by the skip list, and keeps the line number. |
| ScanProperties.HunkStartIs | index.js:60-61 | When index `j` holds the first `+` followed by a digit, the hunk starts at the number written after it. |
| ScanProperties.HunkHeaderStep | index.js:59-63 | Outside a skipped file, an `@@` line gives no finding and changes only the line number. The new number is the one after the first `+<digits>`; with no such token the line number is unchanged. |
| ScanProperties.SingleDigitHunk | index.js:59-61 | A header of the form `@@ -d,d +d @@` starts the new version at the digit after `+`. |
| ScanProperties.AddedStep | index.js:65-81 | Outside a skipped file, an added line reports its findings at the current line number and then raises it by one. |
| ScanProperties.AddedLineScan | index.js:65-81 | Scanning one added line outside a skipped file gives that line's findings at the current line number and raises it by one. |
| ScanProperties.AddedLinesAreNumbered | index.js:65-81 | A run of added lines starting at line number `n` is reported as lines `n, n+1, ...`, and afterwards the line number is `n` plus the number of lines. |
| ScanProperties.TripleplusLineIgnored | index.js:65 | A line starting with `+++` that is not a `+++ b/` header gives no finding and does not advance the line number. This includes an added line whose own text starts with `++`. |
| ScanProperties.DevNullHeaderIgnored | index.js:51-65 | `+++ /dev/null` leaves the current file and the rest of the state unchanged. |
| ScanProperties.NoAddedLinesNoFindings | index.js:65 | Lines none of which is added text give no finding. |
| ScanProperties.OtherLinesKeepState | index.js:65-81 | Removed and context lines (neither `+` nor `@@`) leave the whole state unchanged and give no finding: only added lines advance the line number. |
| ScanProperties.RemovedLinesAreOther | index.js:65 | Lines starting with `-` are neither added text, `+++` lines nor hunk headers. |
| ScanProperties.NoHeaderNullFile | index.js:46-72 | Findings on added lines before any `+++ b/` header have a null file. |
| ScanProperties.FindingsExplained | index.js:67-77 | Every finding comes from an added line outside a skipped file, for an active rule that matched its text. It carries the trimmed text, the trimmed match, and the file and line number in effect at that line. |
| ScanProperties.LineFindingsAgree | index.js:68-79 | Two matchers that agree on the active rules give the same findings for a line. |
| ScanProperties.OnlyActiveRulesMatter | index.js:34-79 | Two matchers that agree on the active rules give the same scan. What a disabled rule's pattern would match plays no part. |
| ScanProperties.DisabledRulesSilent | index.js:68-74 | Every finding carries the message of a rule whose identifier is not disabled. |
| ScanProperties.OrderedPairDistinct | index.js:34 | Rules kept in catalog order are pairwise distinct: no rule appears twice. |
| ScanProperties.SingleHit | index.js:68-70 | When `r` is the only active rule whose pattern matches a line, it is the only rule that reports. What disabled rules' patterns would match does not matter. |
| ScanProperties.SingleFinding | index.js:68-79 | When `r` is the only active rule whose pattern matches a line, that line gives exactly `r`'s finding. |
| ScanProperties.NoHitNoFinding | index.js:68-79 | A line that no active rule matches gives no finding. |
| ScanProperties.NoMatchNoFindings | index.js:65-79 | If no active rule matches the text of any added line, the scan finds nothing. |
| Report.Decide | index.js:84-108 | The run passes exactly when there is no finding. Otherwise it is rejected with all findings. |
| Report.NullKeyShared | index.js:88 | A finding without a file is grouped under the same key as one in a file named `null`. |
| Report.OfFile | index.js:87-91 | A file's group holds exactly the findings whose key is that file. |
| Report.OfFileAppend | index.js:87-91 | Grouping distributes over concatenation, so each group keeps the findings' relative order. |
| Report.FirstSeen | index.js:87-93 | The group keys are exactly the keys of the findings. |
| Report.FirstSeenDistinct | index.js:87-93 | Each file is listed once. |
| Report.FirstSeenOrder | index.js:87-93 | Files are listed in the order their first finding appears: some finding of the earlier-listed file comes before every finding of the later-listed one. |
| Report.RegroupSnoc | index.js:87-91 | Appending a finding adds it once to the concatenated groups if its key is listed, and not at all otherwise. |
| Report.RegroupNewKey | index.js:87-93 | A finding whose file has not been seen yet opens one more group, which holds that finding once; otherwise the listed groups stay the same. |
| Report.RegroupAbsentKey | index.js:87-91 | A key that no finding has has an empty group. |
| Report.GroupingIsPermutation | index.js:87-101 | Listing the groups in first-seen file order gives a permutation of the findings: each finding appears exactly once. |
| Report.GroupByFile | index.js:87-91 | The grouping pass returns the files in first-seen order, without repeats, and for each file the group of its findings, in order. |
| Report.ReduceAsWrittenThrows | index.js:87-91 | The reduce as written throws exactly when some finding's file is named like a property inherited from `Object.prototype`. When it does not throw, it returns the same groups as the grouping pass. |
| Report.ConstructorFileCrashes | index.js:88-89 | One finding in a root file named `constructor` makes the reduce as written throw. |
| Linter.RunMeanLinter | index.js:13-108 | A run passes exactly when the scan of the split diff with the active rules finds nothing. Otherwise it is rejected with exactly those findings. The findings are grouped with the corrected `GroupByFile`, not the reduce as written, which throws for a file named like an inherited property (see "## Findings"). |
| Linter.NoAddedLinesPass | index.js:65-107 | A diff with no added line passes, whatever the configuration and patterns. |
| Linter.RemovalsOnlyPass | index.js:65-107 | A diff made only of removed lines passes. |
| Linter.DisabledPatternIrrelevant | index.js:15-34 | The findings do not depend on the pattern of any disabled rule. |
| Linter.HunkAtFive | index.js:59-63 | Outside a skipped file, `@@ -1,0 +5 @@` sets the line number to 5 and gives no finding. |
| Linter.HunkFive | index.js:59-61 | `@@ -1,0 +5 @@` is a hunk header whose new version starts at line 5. |
| Linter.HunkLineScan | index.js:59-63 | Outside a skipped file, a hunk header starting the new version at `n` gives no finding and sets the line number to `n`. |
| Linter.HunkNumbersAddedLines | index.js:59-81 | After a hunk header that starts the new version at `n`, a run of added lines is reported as lines `n, n+1, ...`, and the next line number is `n` plus the number of lines. |
| Linter.ModifyHunk | index.js:59-81 | In a zero-context hunk that replaces lines, the header sets line `n`, the removed lines keep it, and the added lines that follow are reported as `n, n+1, ...`; the next line number is `n` plus the number of added lines. |
| Linter.ThreeAddedAfterHunk | index.js:59-81 | After a hunk header starting at `n`, three added lines give their findings in order at lines `n`, `n+1` and `n+2`, and the next line number is `n+3`. |
| Linter.HunkAtFiveThreeLines | index.js:59-81 | `@@ -1,0 +5 @@` followed by three added lines reports them as lines 5, 6 and 7, in order, and moves to line 8. |
| Linter.AddedFindingsOfThree | index.js:67-81 | Three consecutive added lines contribute their findings in order, at three consecutive line numbers. |
| Linter.SkippedFileAddsNothing | index.js:36-57 | A skip-listed file (a lock file, say) adds no finding, whatever its lines. |
| Scenarios.ConsoleCallChars | index.js:17 | The characters the line `console.log("debug")` lacks, used to rule out the other patterns. |
| Scenarios.ConsoleCallMatch | index.js:17 | `console` matches `console.log("debug")` with `console.log(`. |
| Scenarios.OnlyConsoleCanMatch | index.js:18-33 | A short line without white space and without the characters `a v w f / =` matches no rule other than `console`. |
| Scenarios.ConsoleCallHits | index.js:17-33 | Of all rules, only `console` matches `console.log("debug")`. |
| Scenarios.ConsoleDiffSplits | index.js:44 | The example diff splits back into its three lines. |
| Scenarios.HeadersUnbroken | index.js:44 | The example headers contain no line break. |
| Scenarios.ConsoleHunk | index.js:59-63 | `@@ -0,0 +1 @@` sets the line number to 1. |
| Scenarios.ConsoleCallTrimmed | index.js:73-76 | The example line and its match are their own trims. |
| Scenarios.ConsoleLine | index.js:67-79 | With nothing disabled, that line gives exactly the `console` finding. |
| Scenarios.ConsoleHeaderScan | index.js:51-55 | The header `+++ b/src/app.js` makes `src/app.js` the current, unskipped file. |
| Scenarios.ConsoleAddedLine | index.js:65-67 | `+console.log("debug")` is an added line whose text is `console.log("debug")`. |
| Scenarios.ConsoleHunkScan | index.js:59-63 | The example hunk header sets line 1. |
| Scenarios.ConsoleAddedScan | index.js:65-81 | The example added line gives its finding at line 1 and moves to line 2. |
| Scenarios.ConsoleScenario | index.js:44-104 | Adding `console.log("debug")` to `src/app.js` at `@@ -0,0 +1 @@` with no rule disabled is rejected with one finding. The finding has file `src/app.js`, line 1, the `console` message and match `console.log(`. |
| Scenarios.BareCallChars | index.js:17 | The characters `console.log()` lacks. |
| Scenarios.BareCallAddedText | index.js:65-67 | The only added text in the second example diff is `console.log()`. |
| Scenarios.BareCallDiffShape | index.js:44-65 | The second example diff splits back into its lines, and its only added text is `console.log()`. |
| Scenarios.ConsoleDisabledScenario | index.js:15-107 | With `console` disabled, adding `console.log()` passes. |
| Scenarios.LetXChars | index.js:24 | The characters `let x = 1;` lacks. |
| Scenarios.LetXNoLooseEq | index.js:26 | `let x = 1;` has no loose equality. |
| Scenarios.LetXMatchAt | index.js:24 | `single-letter-vars` matches five characters at the start of any line opening with `let x` followed by a non-word character. |
| Scenarios.LetXLeftmost | index.js:24 | On a line opening with `let x` and a non-word character, the leftmost `single-letter-vars` match is at index 0 with length 5. |
| Scenarios.LetXOpening | index.js:24 | On such a line, the first `single-letter-vars` match is `let x`. |
| Scenarios.LetXSingleLetter | index.js:24 | `single-letter-vars` matches `let x` in `let x = 1;`. |
| Scenarios.OnlySingleLetterCanMatch | index.js:17-33 | A short line without loose equality and without the characters `a c v w f /` matches no rule other than `single-letter-vars`. |
| Scenarios.LetXTrimmed | index.js:73-76 | `let x = 1;` and `let x` are their own trims. |
| Scenarios.LetXScenario | index.js:67-79 | An added `let x = 1;` gives one finding, for `single-letter-vars` with match `let x`. It gives no `var` finding and none for any other rule. |

## Left out

- `initMeanLinter` (index.js:111-166) installs the hook with shell commands and file writes. It is I/O only.
- `loadConfig` (index.js:168-179) reads and parses the configuration file. The model takes the resulting set of disabled identifiers as input. `new Set(config.disableRules || [])` on a value that is not an array is not modelled.
- The command-line entry, the `git diff --cached --unified=0` call (index.js:182-195), the colour set-up (index.js:11) and all console output of the report (index.js:85-106) are I/O. The grouping the report prints from is modelled; its printing is not.
- The `empty-catch` pattern (index.js:20), with nested repetition and a lazy comment alternative, is not written out. It enters as a function parameter. The scenarios assume only that it never matches a line without `catch`.
- Patterns.MatchAt: strings are sequences of Unicode characters, not UTF-16 code units. Characters outside the Basic Multilingual Plane therefore count once toward the 120-character limit of `long-lines`, not twice.
- Scan.HunkStartFrom: `parseInt` is exact here at every size. JavaScript loses precision above 2^53.
- Report.GroupByFile: files are listed in first-seen order. `Object.entries` lists integer-like keys (a root file named `42`, say) first, in ascending order, before the others.
- ScanProperties.DisabledRulesSilent: states that every finding carries an active rule's message. It does not state that the message differs from a disabled rule's, because message distinctness is not proved. The exact form is OnlyActiveRulesMatter: findings are independent of disabled rules' patterns.
- Determinism (the same diff gives the same findings) holds by construction, since the scan is a function. No lemma states it.

## Findings

| source | as written | input that shows it | evidently intended | confidence | as-written member | corrected member |
|---|---|---|---|---|---|---|
| index.js:87-91 | The grouping `reduce` indexes a plain `{}` by file name. For a name inherited from `Object.prototype` (`constructor`, `toString`, `__proto__`, ...), `acc[file]` is already truthy. No array is created, and `acc[file].push` throws a TypeError. | A finding in a root file named `constructor` | Every file gets its own group, whatever its name | not executed | Report.ConstructorFileCrashes | Report.GroupByFile |
