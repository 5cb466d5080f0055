/**
 * The string primitives the linter relies on: JavaScript's `startsWith`, the suffix test of a `$`-anchored
 * pattern, `substring`, `split("\n")` and `trim`, and the character classes `\s`, `\w` and `\d` of its
 * regular expressions.
 * Strings are sequences of characters.
 */
module Text {
  import opened Wrappers

  /** The characters of JavaScript's `\s` class, which are also the ones `String.prototype.trim` removes. */
  predicate IsSpace(c: char)
  {
    c == ' ' || c == '\t' || c == '\n' || c == '\r' || c == '\U{000B}' || c == '\U{000C}'
    || c == '\U{00A0}' || c == '\U{1680}' || ('\U{2000}' <= c <= '\U{200A}')
    || c == '\U{2028}' || c == '\U{2029}' || c == '\U{202F}' || c == '\U{205F}'
    || c == '\U{3000}' || c == '\U{FEFF}'
  }

  /** JavaScript's `\w`: an ASCII letter, digit or underscore. */
  predicate IsWordChar(c: char)
  {
    ('a' <= c <= 'z') || ('A' <= c <= 'Z') || ('0' <= c <= '9') || c == '_'
  }

  /** JavaScript's `\d`. */
  predicate IsDigit(c: char)
  {
    '0' <= c <= '9'
  }

  predicate StartsWith(s: string, prefix: string)
  {
    |prefix| <= |s| && s[..|prefix|] == prefix
  }

  predicate EndsWith(s: string, suffix: string)
  {
    |suffix| <= |s| && s[|s| - |suffix|..] == suffix
  }

  /** `lit` occurs in `s` starting at index `i`. */
  predicate StartsAt(s: string, i: nat, lit: string)
  {
    i + |lit| <= |s| && s[i..i + |lit|] == lit
  }

  lemma StartsWithConcat(prefix: string, rest: string)
    ensures StartsWith(prefix + rest, prefix)
  {
    assert (prefix + rest)[..|prefix|] == prefix;
  }

  lemma EndsWithConcat(front: string, suffix: string)
    ensures EndsWith(front + suffix, suffix)
  {
    assert (front + suffix)[|front|..] == suffix;
  }

  /** The leftmost index at or after `from` where `lit` occurs in `s`, as `indexOf` finds it. */
  function Find(s: string, lit: string, from: nat): (r: Option<nat>)
    requires from <= |s|
    ensures r.Some? ==> from <= r.value && StartsAt(s, r.value, lit)
    ensures r.Some? ==> forall j :: from <= j < r.value ==> !StartsAt(s, j, lit)
    ensures r.None? ==> forall j :: from <= j <= |s| ==> !StartsAt(s, j, lit)
    decreases |s| - from
  {
    if StartsAt(s, from, lit) then Some(from)
    else if from == |s| then None
    else Find(s, lit, from + 1)
  }

  /** `lit` is a substring of `s`: what a regular expression made of `lit` alone tests. */
  predicate Contains(s: string, lit: string)
  {
    Find(s, lit, 0).Some?
  }

  lemma ContainsIff(s: string, lit: string)
    ensures Contains(s, lit) <==> exists i :: 0 <= i <= |s| && StartsAt(s, i, lit)
  {
    if !Contains(s, lit) {
      assert forall j :: 0 <= j <= |s| ==> !StartsAt(s, j, lit);
    }
  }

  /** Whatever contains `lit` contains each of its characters. */
  lemma ContainsChar(s: string, lit: string, c: char)
    requires Contains(s, lit) && c in lit
    ensures c in s
  {
    var i := Find(s, lit, 0).value;
    var m :| 0 <= m < |lit| && lit[m] == c;
    assert s[i..i + |lit|][m] == s[i + m];
  }

  /**
   * The length of the longest run of characters satisfying `p` that starts at index `i`: what a greedy
   * `[...]*` consumes there.
   */
  function Run(s: string, i: nat, p: char -> bool): (n: nat)
    requires i <= |s|
    ensures i + n <= |s|
    ensures forall k :: i <= k < i + n ==> p(s[k])
    ensures i + n == |s| || !p(s[i + n])
    decreases |s| - i
  {
    if i < |s| && p(s[i]) then 1 + Run(s, i + 1, p) else 0
  }

  /** The length of the longest run of characters satisfying `p` that ends just before index `j`. */
  function RunBack(s: string, j: nat, p: char -> bool): (n: nat)
    requires j <= |s|
    ensures n <= j
    ensures forall k :: j - n <= k < j ==> p(s[k])
    ensures n == j || !p(s[j - n - 1])
  {
    if j > 0 && p(s[j - 1]) then 1 + RunBack(s, j - 1, p) else 0
  }

  /** Every character of `s` is white space. */
  predicate AllSpace(s: string)
  {
    forall k :: 0 <= k < |s| ==> IsSpace(s[k])
  }

  /** `String.prototype.trim`: drops the white space at both ends. */
  function Trim(s: string): string
  {
    var lead := Run(s, 0, IsSpace);
    if lead == |s| then [] else s[lead..|s| - RunBack(s, |s|, IsSpace)]
  }

  /** `r` sits in `s` at index `i`, with nothing but white space before and after it. */
  predicate Surrounded(s: string, i: nat, r: string)
  {
    i + |r| <= |s| && s[i..i + |r|] == r && AllSpace(s[..i]) && AllSpace(s[i + |r|..])
  }

  /**
   * What `trim` promises: the result is `s` with a white-space prefix and a white-space suffix removed,
   * and it neither starts nor ends with white space.
   */
  lemma TrimSpec(s: string)
    ensures Surrounded(s, Run(s, 0, IsSpace), Trim(s))
    ensures var r := Trim(s); r == [] || (!IsSpace(r[0]) && !IsSpace(r[|r| - 1]))
  {
    var lead := Run(s, 0, IsSpace);
    if lead < |s| {
      var trail := RunBack(s, |s|, IsSpace);
      assert trail < |s| - lead;
      var post := s[|s| - trail..];
      assert AllSpace(post) by {
        forall k | 0 <= k < |post| ensures IsSpace(post[k]) {
          assert post[k] == s[|s| - trail + k];
        }
      }
    }
  }

  /** A string without white space at either end is its own trim. */
  lemma TrimNoSpace(s: string)
    requires s == [] || (!IsSpace(s[0]) && !IsSpace(s[|s| - 1]))
    ensures Trim(s) == s
  {
  }

  /** `parseInt(ds, 10)` for a non-empty run of decimal digits (without JavaScript's loss of precision). */
  function DecimalValue(ds: string): nat
    requires forall k :: 0 <= k < |ds| ==> IsDigit(ds[k])
  {
    if ds == [] then 0
    else
      assert IsDigit(ds[|ds| - 1]);
      10 * DecimalValue(ds[..|ds| - 1]) + (ds[|ds| - 1] as int - '0' as int)
  }

  /** The decimal representation of `n`, the inverse of DecimalValue. */
  function DecimalString(n: nat): (ds: string)
    ensures |ds| >= 1 && forall k :: 0 <= k < |ds| ==> IsDigit(ds[k])
  {
    var last := [('0' as int + n % 10) as char];
    if n < 10 then last else DecimalString(n / 10) + last
  }

  lemma {:induction false} DecimalRoundTrip(n: nat)
    ensures DecimalValue(DecimalString(n)) == n
  {
    var ds := DecimalString(n);
    assert ds[|ds| - 1] as int - '0' as int == n % 10;
    if n >= 10 {
      assert ds[..|ds| - 1] == DecimalString(n / 10);
      DecimalRoundTrip(n / 10);
    } else {
      assert ds[..|ds| - 1] == [];
    }
  }

  /** `s.split("\n")`: the pieces between line breaks; there is always at least one. */
  function Split(s: string): (lines: seq<string>)
    ensures |lines| >= 1
    ensures forall k :: 0 <= k < |lines| ==> '\n' !in lines[k]
    decreases |s|
  {
    match Find(s, "\n", 0)
    case None =>
      assert forall j :: 0 <= j < |s| ==> s[j] != '\n' by {
        forall j | 0 <= j < |s| ensures s[j] != '\n' { assert !StartsAt(s, j, "\n"); }
      }
      [s]
    case Some(i) =>
      assert forall j :: 0 <= j < i ==> s[j] != '\n' by {
        forall j | 0 <= j < i ensures s[j] != '\n' { assert !StartsAt(s, j, "\n"); }
      }
      [s[..i]] + Split(s[i + 1..])
  }

  /** `lines.join("\n")`. */
  function Join(lines: seq<string>): string
    requires |lines| >= 1
  {
    if |lines| == 1 then lines[0] else lines[0] + "\n" + Join(lines[1..])
  }

  /** Splitting loses nothing: joining the pieces gives back the text. */
  lemma {:induction false} JoinSplit(s: string)
    ensures Join(Split(s)) == s
    decreases |s|
  {
    match Find(s, "\n", 0)
    case None =>
    case Some(i) =>
      var rest := Split(s[i + 1..]);
      JoinSplit(s[i + 1..]);
      assert Split(s) == [s[..i]] + rest;
      assert ([s[..i]] + rest)[1..] == rest;
      assert Join(Split(s)) == s[..i] + "\n" + Join(rest);
      assert s[i..i + 1] == "\n";
      assert s == s[..i] + "\n" + s[i + 1..];
  }

  /** In `h + "\n" + rest` with no line break in `h`, the first line break is the one after `h`. */
  lemma {:induction false} FindFirstBreak(h: string, rest: string, from: nat)
    requires '\n' !in h && from <= |h|
    ensures Find(h + "\n" + rest, "\n", from) == Some(|h|)
    decreases |h| - from
  {
    var s := h + "\n" + rest;
    assert s[|h|] == '\n';
    assert s[|h|..|h| + 1] == "\n";
    if from < |h| {
      assert s[from] == h[from];
      assert !StartsAt(s, from, "\n");
      FindFirstBreak(h, rest, from + 1);
    }
  }

  /** Splitting is the inverse of joining pieces that hold no line break. */
  lemma {:induction false} SplitJoin(lines: seq<string>)
    requires |lines| >= 1
    requires forall k :: 0 <= k < |lines| ==> '\n' !in lines[k]
    ensures Split(Join(lines)) == lines
  {
    var h := lines[0];
    if |lines| == 1 {
      assert forall j :: 0 <= j <= |h| ==> !StartsAt(h, j, "\n") by {
        forall j | 0 <= j <= |h| ensures !StartsAt(h, j, "\n") {
          if j < |h| { assert h[j..j + 1][0] == h[j]; }
        }
      }
    } else {
      var rest := Join(lines[1..]);
      var s := h + "\n" + rest;
      FindFirstBreak(h, rest, 0);
      assert s[..|h|] == h;
      assert s[|h| + 1..] == rest;
      SplitJoin(lines[1..]);
      assert Split(s) == [h] + lines[1..];
    }
  }
}
