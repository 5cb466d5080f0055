/**
 * The rules' regular expressions, written out as matchers. `line.match(regex)` yields the text of the
 * leftmost match; each pattern below says how long the match starting at a given index is, if there is
 * one, and Search scans for the leftmost index. The matchers follow JavaScript's backtracking semantics
 * for these particular patterns: wherever a greedy run is followed by a character the run cannot contain,
 * the run's length is forced, so no backtracking alternative exists. The `empty-catch` pattern (nested
 * repetition with a lazy comment alternative) is not written out; it enters as a parameter.
 */
module Patterns {
  import opened Wrappers
  import opened Text
  import opened Rules

  /** A rule's pattern seen from outside: the text of the first match in a line, if any. */
  type Matcher = (RuleId, string) -> Option<string>

  /** The length of the first alternative of `alts` that occurs in `s` at index `i`. */
  function Alt(s: string, i: nat, alts: seq<string>): (n: Option<nat>)
    ensures n.Some? ==> exists k :: 0 <= k < |alts| && StartsAt(s, i, alts[k]) && n.value == |alts[k]|
    ensures n.None? ==> forall k :: 0 <= k < |alts| ==> !StartsAt(s, i, alts[k])
  {
    if alts == [] then None
    else if StartsAt(s, i, alts[0]) then Some(|alts[0]|)
    else
      var n := Alt(s, i, alts[1..]);
      assert forall k :: 1 <= k < |alts| ==> alts[k] == alts[1..][k - 1];
      n
  }

  /** ASCII upper case, the canonical form JavaScript's `i` flag compares ASCII letters in. */
  function Upper(c: char): char
  {
    if 'a' <= c <= 'z' then (c as int - 32) as char else c
  }

  /** `lit` (upper case) occurs in `s` at index `i`, ignoring the case of ASCII letters. */
  predicate StartsAtIgnoringCase(s: string, i: nat, lit: string)
  {
    i + |lit| <= |s| && forall k :: 0 <= k < |lit| ==> Upper(s[i + k]) == lit[k]
  }

  /** The length of the first of `alts` (upper case) that occurs at index `i`, ignoring case. */
  function AltIgnoringCase(s: string, i: nat, alts: seq<string>): (n: Option<nat>)
    ensures n.Some? ==> exists k :: 0 <= k < |alts| && StartsAtIgnoringCase(s, i, alts[k]) && n.value == |alts[k]|
    ensures n.None? ==> forall k :: 0 <= k < |alts| ==> !StartsAtIgnoringCase(s, i, alts[k])
  {
    if alts == [] then None
    else if StartsAtIgnoringCase(s, i, alts[0]) then Some(|alts[0]|)
    else
      var n := AltIgnoringCase(s, i, alts[1..]);
      assert forall k :: 1 <= k < |alts| ==> alts[k] == alts[1..][k - 1];
      n
  }

  /** `\b` just before index `i`, when the character at `i` is a word character. */
  predicate WordStartsAt(s: string, i: nat)
  {
    i == 0 || (i <= |s| && !IsWordChar(s[i - 1]))
  }

  /** `[^\w]` at index `i`. */
  predicate NonWordAt(s: string, i: nat)
  {
    i < |s| && !IsWordChar(s[i])
  }

  function NotSemicolon(c: char): bool { c != ';' }
  function NotCloseParen(c: char): bool { c != ')' }
  function NotLineBreak(c: char): bool { c != '\n' }

  /** The length of the match of rule `r`'s pattern that starts at index `i` of `s`, if there is one. */
  function MatchAt(r: RuleId, s: string, i: nat): (n: Option<nat>)
    requires r != EmptyCatch && i <= |s|
    ensures n.Some? ==> i + n.value <= |s| && n.value > 0
  {
    match r
    // console\.(log|warn|error|info|debug)\(
    case Console =>
      if !StartsAt(s, i, "console.") then None
      else
        (match Alt(s, i + 8, ["log(", "warn(", "error(", "info(", "debug("])
         case None => None
         case Some(k) => Some(8 + k))
    // var\s+
    case Var =>
      if StartsAt(s, i, "var") && i + 3 < |s| && IsSpace(s[i + 3]) then Some(3 + Run(s, i + 3, IsSpace))
      else None
    // [^\n]{120,}
    case LongLines =>
      var n := Run(s, i, NotLineBreak);
      if n >= 120 then Some(n) else None
    // \b(?:let|const|var)\s+(a|b|c|x|y|z)\b
    case SingleLetterVars =>
      if !WordStartsAt(s, i) then None
      else
        (match Alt(s, i, ["let", "const", "var"])
         case None => None
         case Some(k) =>
           var w := Run(s, i + k, IsSpace);
           var at := i + k + w;
           if w >= 1 && at < |s| && s[at] in "abcxyz" && (at + 1 == |s| || !IsWordChar(s[at + 1]))
           then Some(k + w + 1)
           else None)
    // \/\/\s*(TODO|FIXME|HACK) with the i flag
    case TodoComment =>
      if !StartsAt(s, i, "//") then None
      else
        var w := Run(s, i + 2, IsSpace);
        (match AltIgnoringCase(s, i + 2 + w, ["TODO", "FIXME", "HACK"])
         case None => None
         case Some(k) => Some(2 + w + k))
    // (?<![=!])==(?![=])
    case LooseEq =>
      if StartsAt(s, i, "==") && (i == 0 || (s[i - 1] != '=' && s[i - 1] != '!'))
         && (i + 2 == |s| || s[i + 2] != '=')
      then Some(2)
      else None
    // eval\(
    case Eval =>
      if StartsAt(s, i, "eval(") then Some(5) else None
    // [^\w]for\([^;]*;[^;]*;[^)]*\)
    case ForLoop =>
      if !(NonWordAt(s, i) && StartsAt(s, i + 1, "for(")) then None
      else
        var semi1 := i + 5 + Run(s, i + 5, NotSemicolon);
        if semi1 == |s| then None
        else
          var semi2 := semi1 + 1 + Run(s, semi1 + 1, NotSemicolon);
          if semi2 == |s| then None
          else
            var close := semi2 + 1 + Run(s, semi2 + 1, NotCloseParen);
            if close == |s| then None else Some(close + 1 - i)
    // [^\w]while\(true\)
    case WhileTrue =>
      if NonWordAt(s, i) && StartsAt(s, i + 1, "while(true)") then Some(12) else None
    // [^\w]alert\(
    case Alert =>
      if NonWordAt(s, i) && StartsAt(s, i + 1, "alert(") then Some(7) else None
    // [^\w]document\.write\(
    case DocumentWrite =>
      if NonWordAt(s, i) && StartsAt(s, i + 1, "document.write(") then Some(16) else None
    // \bnew\s+Array\(\)
    case NewArray =>
      if !(WordStartsAt(s, i) && StartsAt(s, i, "new")) then None
      else
        var w := Run(s, i + 3, IsSpace);
        if w >= 1 && StartsAt(s, i + 3 + w, "Array()") then Some(3 + w + 7) else None
    // \bnew\s+Object\(\)
    case NewObject =>
      if !(WordStartsAt(s, i) && StartsAt(s, i, "new")) then None
      else
        var w := Run(s, i + 3, IsSpace);
        if w >= 1 && StartsAt(s, i + 3 + w, "Object()") then Some(3 + w + 8) else None
  }

  /** The first index from `i` up to `last` at which `at` reports a match, scanning left to right. */
  function FirstFrom(at: nat -> Option<nat>, last: nat, i: nat): (k: Option<nat>)
    requires i <= last
    ensures k.None? <==> forall j :: i <= j <= last ==> at(j).None?
    ensures k.Some? ==> i <= k.value <= last && at(k.value).Some? && forall j :: i <= j < k.value ==> at(j).None?
    decreases last - i
  {
    if at(i).Some? then Some(i) else if i == last then None else FirstFrom(at, last, i + 1)
  }

  /** The first index from `i` on where rule `r`'s pattern matches `s`, with the length of that match. */
  function LeftmostFrom(r: RuleId, s: string, i: nat): (found: Option<(nat, nat)>)
    requires r != EmptyCatch && i <= |s|
    ensures found.None? <==> forall j :: i <= j <= |s| ==> MatchAt(r, s, j).None?
    ensures found.Some? ==> i <= found.value.0 <= |s| && found.value.0 + found.value.1 <= |s|
                            && MatchAt(r, s, found.value.0) == Some(found.value.1)
                            && forall j :: i <= j < found.value.0 ==> MatchAt(r, s, j).None?
  {
    var at := (j: nat) => if j <= |s| then MatchAt(r, s, j) else None;
    assert forall j :: i <= j <= |s| ==> at(j) == MatchAt(r, s, j);
    match FirstFrom(at, |s|, i)
    case None => None
    case Some(k) => Some((k, MatchAt(r, s, k).value))
  }

  /** `line.match(regex)` from index `i` on: the text of the first match that starts at or after `i`. */
  function SearchFrom(r: RuleId, s: string, i: nat): (m: Option<string>)
    requires r != EmptyCatch && i <= |s|
    ensures m.None? <==> LeftmostFrom(r, s, i).None?
    ensures m.Some? ==> LeftmostFrom(r, s, i).Some?
                        && var (k, n) := LeftmostFrom(r, s, i).value; m.value == s[k..k + n]
  {
    match LeftmostFrom(r, s, i)
    case None => None
    case Some((k, n)) => Some(s[k..k + n])
  }

  /** `line.match(regex)` for a written-out pattern: the text of its leftmost match. */
  function Search(r: RuleId, s: string): (m: Option<string>)
    requires r != EmptyCatch
    ensures m.None? <==> LeftmostFrom(r, s, 0).None?
    ensures m.Some? ==> LeftmostFrom(r, s, 0).Some?
                        && var (k, n) := LeftmostFrom(r, s, 0).value; m.value == s[k..k + n]
  {
    SearchFrom(r, s, 0)
  }

  /** A rule whose every match contains a fixed piece of text at a fixed offset from where it starts. */
  predicate Anchored(r: RuleId)
  {
    r != EmptyCatch && r != LongLines && r != SingleLetterVars
  }

  /** The fixed text every match of an anchored rule holds, and its offset from the start of the match. */
  function Anchor(r: RuleId): (nat, string)
    requires Anchored(r)
  {
    match r
    case Console => (0, "console.")
    case Var => (0, "var")
    case TodoComment => (0, "//")
    case LooseEq => (0, "==")
    case Eval => (0, "eval(")
    case ForLoop => (1, "for(")
    case WhileTrue => (1, "while(true)")
    case Alert => (1, "alert(")
    case DocumentWrite => (1, "document.write(")
    case NewArray => (0, "new")
    case NewObject => (0, "new")
  }

  lemma AnchorNeeded(r: RuleId, s: string, i: nat)
    requires Anchored(r) && i <= |s| && MatchAt(r, s, i).Some?
    ensures StartsAt(s, i + Anchor(r).0, Anchor(r).1)
  {
  }

  /** A line lacking any one character of a rule's fixed text never matches that rule. */
  lemma MissingCharNoMatch(r: RuleId, s: string, c: char)
    requires Anchored(r) && c in Anchor(r).1 && c !in s
    ensures Search(r, s) == None
  {
    var (off, lit) := Anchor(r);
    var m :| 0 <= m < |lit| && lit[m] == c;
    forall k | 0 <= k <= |s| ensures MatchAt(r, s, k).None? {
      if MatchAt(r, s, k).Some? {
        AnchorNeeded(r, s, k);
      }
    }
  }

  /**
   * `long-lines` on a line without line breaks: the match is the whole line when it has at least 120
   * characters, and there is none otherwise.
   */
  lemma LongLinesWholeLine(s: string)
    requires '\n' !in s
    ensures Search(LongLines, s) == if |s| >= 120 then Some(s) else None
  {
    if |s| >= 120 {
      assert Run(s, 0, NotLineBreak) == |s|;
      assert s[0..|s|] == s;
    }
  }

  /**
   * `single-letter-vars` needs white space after its keyword: a line without white space never matches
   * it.
   */
  lemma NoSpaceNoSingleLetter(s: string)
    requires forall k :: 0 <= k < |s| ==> !IsSpace(s[k])
    ensures Search(SingleLetterVars, s) == None
  {
  }

  /** A line without two `=` in a row has no loose equality. */
  lemma NoDoubleEqualsNoLooseEq(s: string)
    requires forall k :: 0 <= k < |s| - 1 ==> !(s[k] == '=' && s[k + 1] == '=')
    ensures Search(LooseEq, s) == None
  {
    forall k | 0 <= k <= |s| ensures MatchAt(LooseEq, s, k).None? {
      NoDoubleEqualsAt(s, k);
    }
  }

  lemma NoDoubleEqualsAt(s: string, k: nat)
    requires k <= |s| && forall j :: 0 <= j < |s| - 1 ==> !(s[j] == '=' && s[j + 1] == '=')
    ensures !StartsAt(s, k, "==") && MatchAt(LooseEq, s, k).None?
  {
    if k + 2 <= |s| {
      assert s[k..k + 2][0] == s[k] && s[k..k + 2][1] == s[k + 1];
    }
  }

  /** The search for `eval(` from `i` stops at the first occurrence `k`. */
  lemma EvalFoundFirst(s: string, i: nat, k: nat)
    requires i <= k <= |s| && MatchAt(Eval, s, k) == Some(5)
    requires forall j :: i <= j < k ==> MatchAt(Eval, s, j).None?
    ensures SearchFrom(Eval, s, i) == Some(s[k..k + 5])
  {
    var found := LeftmostFrom(Eval, s, i);
    assert found.Some?;
    if found.value.0 < k {
      assert false;
    } else if found.value.0 > k {
      assert false;
    }
    assert found == Some((k, 5));
  }

  /** `eval(` is a plain substring test: the rule matches exactly the lines containing `eval(`. */
  lemma EvalIsSubstring(s: string)
    ensures Search(Eval, s) == if Contains(s, "eval(") then Some("eval(") else None
  {
    match Find(s, "eval(", 0)
    case Some(k) =>
      assert MatchAt(Eval, s, k) == Some(5);
      EvalFoundFirst(s, 0, k);
    case None =>
  }

  /**
   * `line.match(regex)` for every rule: the leftmost match of the written-out patterns, and for
   * `empty-catch` whatever the supplied matcher finds.
   */
  function FirstMatch(emptyCatch: string -> Option<string>, r: RuleId, s: string): Option<string>
  {
    if r == EmptyCatch then emptyCatch(s) else Search(r, s)
  }

  /** The matcher the linter runs with, given a matcher for `empty-catch`. */
  function Engine(emptyCatch: string -> Option<string>): Matcher
  {
    (r, s) => FirstMatch(emptyCatch, r, s)
  }

  /** Every `empty-catch` match starts with the word `catch`: the least any matcher for that pattern does. */
  ghost predicate MatchesCatchOnly(emptyCatch: string -> Option<string>)
  {
    forall s :: emptyCatch(s).Some? ==> Contains(s, "catch")
  }
}
