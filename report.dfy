/**
 * The end of a run: the verdict, and the grouping of findings by file that the printed report walks
 * through. Grouping keys are JavaScript property names, so a finding without a file is filed under the
 * key "null".
 */
module Report {
  import opened Wrappers
  import opened Scan

  /** `{ ok: true }`, or `{ ok: false, issues }` with every finding. */
  datatype Outcome = Pass | Reject(issues: seq<Finding>)

  /** The verdict on the findings of a scan. */
  function Decide(issues: seq<Finding>): (v: Outcome)
    ensures v.Pass? <==> |issues| == 0
    ensures v.Reject? ==> v.issues == issues && |v.issues| > 0
  {
    if |issues| > 0 then Reject(issues) else Pass
  }

  /** The property name `acc[issue.file]` uses: the path, or "null" for a finding before any file header. */
  function FileKey(file: Option<string>): string
  {
    match file
    case None => "null"
    case Some(path) => path
  }

  /** A finding without a file and one in a file literally named `null` land in the same group. */
  lemma NullKeyShared()
    ensures FileKey(None) == FileKey(Some("null"))
  {
  }

  function KeyOf(f: Finding): string
  {
    FileKey(f.file)
  }

  /** The findings filed under `key`, in their original order. */
  function OfFile(issues: seq<Finding>, key: string): (group: seq<Finding>)
    ensures forall f :: f in group <==> f in issues && KeyOf(f) == key
  {
    if issues == [] then []
    else
      var rest := OfFile(issues[..|issues| - 1], key);
      var last := issues[|issues| - 1];
      assert forall f :: f in issues <==> f in issues[..|issues| - 1] || f == last;
      if KeyOf(last) == key then rest + [last] else rest
  }

  /** Filtering distributes over concatenation, so each group keeps the findings' relative order. */
  lemma {:induction false} OfFileAppend(a: seq<Finding>, b: seq<Finding>, key: string)
    ensures OfFile(a + b, key) == OfFile(a, key) + OfFile(b, key)
  {
    if b == [] {
      assert a + b == a;
    } else {
      var b' := b[..|b| - 1];
      assert (a + b)[..|a + b| - 1] == a + b';
      assert (a + b)[|a + b| - 1] == b[|b| - 1];
      OfFileAppend(a, b', key);
    }
  }

  /** The group keys in the order their first finding appears. */
  function FirstSeen(issues: seq<Finding>): (keys: seq<string>)
    ensures forall k :: k in keys <==> exists f :: f in issues && KeyOf(f) == k
  {
    if issues == [] then []
    else
      var rest := FirstSeen(issues[..|issues| - 1]);
      var last := issues[|issues| - 1];
      assert forall f :: f in issues <==> f in issues[..|issues| - 1] || f == last;
      if KeyOf(last) in rest then rest else rest + [KeyOf(last)]
  }

  predicate Distinct(keys: seq<string>)
  {
    forall i, j :: 0 <= i < j < |keys| ==> keys[i] != keys[j]
  }

  /** Each file is listed once. */
  lemma {:induction false} FirstSeenDistinct(issues: seq<Finding>)
    ensures Distinct(FirstSeen(issues))
  {
    if issues != [] {
      FirstSeenDistinct(issues[..|issues| - 1]);
    }
  }

  /**
   * Files are listed in the order their first finding appears: some finding of the file listed earlier
   * comes before every finding of the file listed later.
   */
  lemma {:induction false} FirstSeenOrder(issues: seq<Finding>, i: nat, j: nat)
    requires i < j < |FirstSeen(issues)|
    ensures exists p :: 0 <= p < |issues| && KeyOf(issues[p]) == FirstSeen(issues)[i]
                        && forall q :: 0 <= q <= p ==> KeyOf(issues[q]) != FirstSeen(issues)[j]
  {
    var init := issues[..|issues| - 1];
    var last := issues[|issues| - 1];
    var keys := FirstSeen(init);
    var all := FirstSeen(issues);
    assert all == if KeyOf(last) in keys then keys else keys + [KeyOf(last)];
    if j < |keys| {
      assert all[i] == keys[i] && all[j] == keys[j];
      FirstSeenOrder(init, i, j);
      var p :| 0 <= p < |init| && KeyOf(init[p]) == keys[i] && forall q :: 0 <= q <= p ==> KeyOf(init[q]) != keys[j];
      assert forall q :: 0 <= q <= p ==> issues[q] == init[q];
      assert KeyOf(issues[p]) == all[i];
    } else {
      assert all[i] == keys[i] && all[j] == KeyOf(last) && KeyOf(last) !in keys;
      assert keys[i] in keys;
      var f :| f in init && KeyOf(f) == keys[i];
      var p :| 0 <= p < |init| && init[p] == f;
      forall q | 0 <= q <= p ensures KeyOf(issues[q]) != all[j] {
        assert issues[q] == init[q] && init[q] in init;
      }
      assert KeyOf(issues[p]) == all[i];
    }
  }

  /** The groups of `keys`, one after another. */
  function Regroup(issues: seq<Finding>, keys: seq<string>): seq<Finding>
  {
    if keys == [] then [] else Regroup(issues, keys[..|keys| - 1]) + OfFile(issues, keys[|keys| - 1])
  }

  /** Adding one finding to the scanned list adds it to the regrouped list once if its key is listed, else not at all. */
  lemma {:induction false} RegroupSnoc(issues: seq<Finding>, x: Finding, keys: seq<string>)
    requires Distinct(keys)
    ensures multiset(Regroup(issues + [x], keys))
            == multiset(Regroup(issues, keys)) + (if KeyOf(x) in keys then multiset{x} else multiset{})
  {
    if keys != [] {
      var init := keys[..|keys| - 1];
      var k := keys[|keys| - 1];
      RegroupSnoc(issues, x, init);
      assert (issues + [x])[..|issues + [x]| - 1] == issues;
      assert KeyOf(x) in keys <==> KeyOf(x) in init || KeyOf(x) == k;
      assert KeyOf(x) == k ==> KeyOf(x) !in init;
    }
  }

  /** Regrouping by keys no finding has yields nothing. */
  lemma {:induction false} RegroupAbsentKey(issues: seq<Finding>, key: string)
    requires key !in FirstSeen(issues)
    ensures OfFile(issues, key) == []
  {
    if issues != [] {
      var init := issues[..|issues| - 1];
      var last := issues[|issues| - 1];
      assert forall f :: f in init ==> f in issues;
      assert last in issues;
      RegroupAbsentKey(init, key);
    }
  }

  /**
   * Grouping keeps every finding exactly once: listing the groups in first-seen file order gives a
   * permutation of the scanned findings.
   */
  lemma {:induction false} GroupingIsPermutation(issues: seq<Finding>)
    ensures multiset(Regroup(issues, FirstSeen(issues))) == multiset(issues)
  {
    if issues != [] {
      var init := issues[..|issues| - 1];
      var x := issues[|issues| - 1];
      assert issues == init + [x];
      GroupingIsPermutation(init);
      FirstSeenDistinct(init);
      RegroupSnoc(init, x, FirstSeen(init));
      RegroupNewKey(init, x);
    }
  }

  /** A finding whose file is new opens one more group, holding just that finding. */
  lemma RegroupNewKey(init: seq<Finding>, x: Finding)
    ensures multiset(Regroup(init + [x], FirstSeen(init + [x])))
            == multiset(Regroup(init + [x], FirstSeen(init))) + (if KeyOf(x) in FirstSeen(init) then multiset{} else multiset{x})
  {
    var issues := init + [x];
    assert issues[..|issues| - 1] == init;
    var keys := FirstSeen(init);
    if KeyOf(x) !in keys {
      RegroupAbsentKey(init, KeyOf(x));
      assert OfFile(issues, KeyOf(x)) == [x];
      assert FirstSeen(issues) == keys + [KeyOf(x)];
      assert (keys + [KeyOf(x)])[..|keys|] == keys;
    }
  }

  /**
   * The `reduce` that fills `issuesByFile`: one pass over the findings, opening a group the first time a
   * file is seen and appending to it.
   */
  method GroupByFile(issues: seq<Finding>) returns (files: seq<string>, groups: map<string, seq<Finding>>)
    ensures files == FirstSeen(issues) && Distinct(files)
    ensures forall k :: k in groups <==> k in files
    ensures forall k :: k in groups ==> groups[k] == OfFile(issues, k)
  {
    files := [];
    groups := map[];
    for i := 0 to |issues|
      invariant files == FirstSeen(issues[..i])
      invariant forall k :: k in groups <==> k in files
      invariant forall k :: k in groups ==> groups[k] == OfFile(issues[..i], k)
    {
      assert issues[..i + 1][..i] == issues[..i];
      var key := KeyOf(issues[i]);
      if key !in groups {
        RegroupAbsentKey(issues[..i], key);
        groups := groups[key := []];
        files := files + [key];
      }
      groups := groups[key := groups[key] + [issues[i]]];
    }
    assert issues[..|issues|] == issues;
    FirstSeenDistinct(issues);
  }

  /**
   * The names a plain JavaScript object inherits from `Object.prototype`. Each one reads as a truthy
   * value (a function, or the prototype itself for `__proto__`) before the reduce has stored anything.
   */
  const INHERITED: set<string> := {
    "constructor", "__proto__", "toString", "toLocaleString", "valueOf", "hasOwnProperty", "isPrototypeOf",
    "propertyIsEnumerable", "__defineGetter__", "__defineSetter__", "__lookupGetter__", "__lookupSetter__"
  }

  /**
   * The reduce as written, on an accumulator that starts as `{}`: a key already stored gets the finding
   * appended; an absent key that is inherited is truthy, so no array is created and `.push` on it throws
   * (None); any other absent key gets a new array.
   */
  function ReduceAsWritten(issues: seq<Finding>): (acc: Option<map<string, seq<Finding>>>)
  {
    if issues == [] then Some(map[])
    else
      var last := issues[|issues| - 1];
      var key := KeyOf(last);
      match ReduceAsWritten(issues[..|issues| - 1])
      case None => None
      case Some(acc) =>
        if key in acc then Some(acc[key := acc[key] + [last]])
        else if key in INHERITED then None
        else Some(acc[key := [last]])
  }

  /** The reduce as written throws exactly when some finding's file is named like an inherited property. */
  lemma {:induction false} ReduceAsWrittenThrows(issues: seq<Finding>)
    ensures ReduceAsWritten(issues).None? <==> exists f :: f in issues && KeyOf(f) in INHERITED
    ensures ReduceAsWritten(issues).Some? ==>
              forall k :: (k in ReduceAsWritten(issues).value <==> k in FirstSeen(issues))
                          && (k in ReduceAsWritten(issues).value ==> ReduceAsWritten(issues).value[k] == OfFile(issues, k))
  {
    if issues != [] {
      var init := issues[..|issues| - 1];
      var last := issues[|issues| - 1];
      assert forall f :: f in issues <==> f in init || f == last;
      ReduceAsWrittenThrows(init);
      match ReduceAsWritten(init)
      case None =>
      case Some(acc) =>
        var key := KeyOf(last);
        if key !in acc {
          RegroupAbsentKey(init, key);
          if key in INHERITED {
            assert last in issues;
          }
        }
    }
  }

  /** A counterexample: one finding in a root file named `constructor` makes the report crash. */
  lemma ConstructorFileCrashes(code: string, message: string, lineNumber: nat, matched: string)
    ensures ReduceAsWritten([Finding(Some("constructor"), code, message, lineNumber, matched)]) == None
  {
    var f := Finding(Some("constructor"), code, message, lineNumber, matched);
    assert [f][..0] == [];
  }
}
