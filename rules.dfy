/**
 * The rule catalog: fourteen rules in a fixed order, each with the identifier users name in their
 * configuration and the message a finding reports. A rule's pattern is given separately (module Patterns).
 */
module Rules {

  datatype RuleId =
    | Console | Var | EmptyCatch | LongLines | SingleLetterVars | TodoComment | LooseEq
    | Eval | ForLoop | WhileTrue | Alert | DocumentWrite | NewArray | NewObject

  /** The catalog in declaration order. */
  const CATALOG: seq<RuleId> :=
    [ Console, Var, EmptyCatch, LongLines, SingleLetterVars, TodoComment, LooseEq,
      Eval, ForLoop, WhileTrue, Alert, DocumentWrite, NewArray, NewObject ]

  /** The position of a rule in the catalog. */
  function Rank(r: RuleId): nat
  {
    match r
    case Console => 0
    case Var => 1
    case EmptyCatch => 2
    case LongLines => 3
    case SingleLetterVars => 4
    case TodoComment => 5
    case LooseEq => 6
    case Eval => 7
    case ForLoop => 8
    case WhileTrue => 9
    case Alert => 10
    case DocumentWrite => 11
    case NewArray => 12
    case NewObject => 13
  }

  /** The identifier a configuration uses to disable the rule. */
  function Id(r: RuleId): string
  {
    match r
    case Console => "console"
    case Var => "var"
    case EmptyCatch => "empty-catch"
    case LongLines => "long-lines"
    case SingleLetterVars => "single-letter-vars"
    case TodoComment => "todo-comment"
    case LooseEq => "loose-eq"
    case Eval => "eval"
    case ForLoop => "for-loop"
    case WhileTrue => "while-true"
    case Alert => "alert"
    case DocumentWrite => "document-write"
    case NewArray => "new-array"
    case NewObject => "new-object"
  }

  /** The message a finding of the rule carries. */
  function Message(r: RuleId): string
  {
    match r
    case Console => "Busted! Console statements left behind. Clean up your mess before going to prod."
    case Var => "'var'? Really? It's 2025. Use 'let' or 'const' like a grown-up."
    case EmptyCatch => "Empty catch block spotted. Just ignoring errors, huh? Bold strategy."
    case LongLines => "Whoa there! Line's too long. Code isn't a bedtime story — break it up."
    case SingleLetterVars => "Single-letter variables? What is this, algebra class? Be descriptive."
    case TodoComment => "Found a TODO/FIXME. Future you is judging you already."
    case LooseEq => "Loose equality? That’s how bugs sneak in. Use `===` and stay sharp."
    case Eval => "`eval()`? Are you trying to summon demons? Don’t."
    case ForLoop => "Classic for-loop detected. Are we stuck in 2009? Use modern methods."
    case WhileTrue => "Infinite loop? Better have snacks. Or better yet, a break condition."
    case Alert => "alert() detected. This isn't 1999."
    case DocumentWrite => "document.write() detected. This is considered harmful."
    case NewArray => "`new Array()`? Nah. Use `[]` and move on with your life"
    case NewObject => "`new Object()` spotted. Use `{}` like everyone else."
  }

  /** The catalog lists every rule exactly once, each at its rank. */
  lemma CatalogComplete(r: RuleId)
    ensures |CATALOG| == 14 && Rank(r) < 14 && CATALOG[Rank(r)] == r
  {
  }

  /** No two rules share an identifier, so disabling one identifier disables one rule. */
  lemma IdInjective(r1: RuleId, r2: RuleId)
    ensures Id(r1) == Id(r2) ==> r1 == r2
  {
    if Id(r1) == Id(r2) {
      assert |Id(r1)| == |Id(r2)| && Id(r1)[|Id(r1)| - 1] == Id(r2)[|Id(r2)| - 1];
    }
  }

  /** The rules of `rs` appear in catalog order, each at most once. */
  predicate InCatalogOrder(rs: seq<RuleId>)
  {
    forall i, j :: 0 <= i < j < |rs| ==> Rank(rs[i]) < Rank(rs[j])
  }

  /** `rules.filter(keep)`: the rules that pass the test, in their original order. */
  function Filter(rules: seq<RuleId>, keep: RuleId -> bool): (kept: seq<RuleId>)
    ensures forall r :: r in kept <==> r in rules && keep(r)
  {
    if rules == [] then []
    else
      var rest := Filter(rules[..|rules| - 1], keep);
      var last := rules[|rules| - 1];
      assert forall r :: r in rules <==> r in rules[..|rules| - 1] || r == last;
      if keep(last) then rest + [last] else rest
  }

  /** Filtering keeps the rules' relative order. */
  lemma {:induction false} FilterOrdered(rules: seq<RuleId>, keep: RuleId -> bool)
    requires InCatalogOrder(rules)
    ensures InCatalogOrder(Filter(rules, keep))
  {
    if rules != [] {
      var init, last := rules[..|rules| - 1], rules[|rules| - 1];
      FilterOrdered(init, keep);
      var rest := Filter(init, keep);
      forall x | x in rest ensures Rank(x) < Rank(last) {
        var i :| 0 <= i < |init| && init[i] == x;
      }
    }
  }

  /** Filtering removes nothing when every rule passes the test. */
  lemma {:induction false} FilterAll(rules: seq<RuleId>, keep: RuleId -> bool)
    requires forall r :: r in rules ==> keep(r)
    ensures Filter(rules, keep) == rules
  {
    if rules != [] {
      var init, last := rules[..|rules| - 1], rules[|rules| - 1];
      assert forall r :: r in init ==> r in rules;
      FilterAll(init, keep);
      assert last in rules;
      assert rules == init + [last];
    }
  }

  /** `rules.filter(rule => !disabled.has(rule.id))`. */
  function Keep(rules: seq<RuleId>, disabled: set<string>): (kept: seq<RuleId>)
    ensures forall r :: r in kept <==> r in rules && Id(r) !in disabled
    ensures InCatalogOrder(rules) ==> InCatalogOrder(kept)
  {
    if InCatalogOrder(rules) then FilterOrdered(rules, r => Id(r) !in disabled); Filter(rules, r => Id(r) !in disabled)
    else Filter(rules, r => Id(r) !in disabled)
  }

  /** Each catalog entry sits at its own rank, so the catalog is in catalog order. */
  lemma CatalogOrdered()
    ensures forall i :: 0 <= i < |CATALOG| ==> Rank(CATALOG[i]) == i
    ensures InCatalogOrder(CATALOG)
  {
    forall i | 0 <= i < |CATALOG| ensures Rank(CATALOG[i]) == i {
      CatalogComplete(CATALOG[i]);
    }
  }

  /**
   * The rules that stay active under a configuration: exactly the catalog entries whose identifier is not
   * disabled, in catalog order.
   */
  function ActiveRules(disabled: set<string>): (active: seq<RuleId>)
    ensures forall r :: r in active <==> Id(r) !in disabled
    ensures InCatalogOrder(active)
  {
    assert forall r :: r in CATALOG by {
      forall r ensures r in CATALOG { CatalogComplete(r); }
    }
    CatalogOrdered();
    Keep(CATALOG, disabled)
  }

  /** Filtering keeps every rule when none of their identifiers is disabled. */
  lemma KeepAll(rules: seq<RuleId>, disabled: set<string>)
    requires forall r :: r in rules ==> Id(r) !in disabled
    ensures Keep(rules, disabled) == rules
  {
    FilterAll(rules, r => Id(r) !in disabled);
  }

  /**
   * When the configuration disables no identifier of the catalog (it is empty, absent, or names only
   * unknown rules), the whole catalog is active, in order.
   */
  lemma NothingDisabled(disabled: set<string>)
    requires forall r :: Id(r) !in disabled
    ensures ActiveRules(disabled) == CATALOG
  {
    KeepAll(CATALOG, disabled);
  }
}
