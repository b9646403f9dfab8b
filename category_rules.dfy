/**
 * The example rule file of the category plugin: a custom rule that files the monthly
 * iCloud storage charge under online services, then a string rule that files every other
 * iTunes charge under entertainment.
 */
module CategoryRules {
  import opened Wrappers
  import opened Text
  import opened Rows
  import opened EffectPlugins
  import opened SimpleRules

  const ICloudNote := "iCloud: 200GB Storage Plan"

  /**
   * The custom predicate of the first rule: an original payee containing "ITUNES" (case
   * matters here) and an amount of -3.18 set the category title and the note, and answer true.
   */
  function ICloudPlan(row: Row): (c: CustomResult)
    ensures c.truthy <==> Contains(row.originalPayee, "ITUNES") && row.amount == -318
  {
    var needsUpdate := Contains(row.originalPayee, "ITUNES") && row.amount == -318;
    if needsUpdate then CustomResult(true, Patch(row.payee, Some(ICloudNote), Some("Online Services")))
    else CustomResult(false, Patch(row.payee, row.note, row.categoryTitle))
  }

  /** The rule file, in order. */
  const Rules: seq<Rule> := [
    Rule(None, None, None, None, Some(ICloudPlan), NoValue),
    Rule(Some(["ITUNES"]), None, None, None, None, Value("Entertainment"))
  ]

  /** The rules as the category plugin holds them after `prepareRules`. */
  lemma PreparedRules()
    ensures Prepared(Rules) == [Rules[0], Rule(Some(["itunes"]), None, None, None, None, Value("Entertainment"))]
    ensures RulesFit(Category, Prepared(Rules))
    ensures forall k :: 0 <= k < |Prepared(Rules)| ==> Quiet(Prepared(Rules)[k])
  {
    assert Lower("ITUNES") == "itunes";
    assert LowerAll(["ITUNES"]) == ["itunes"];
  }

  /** The iCloud charge is filed under online services with the plan as its note; the entertainment rule is never reached. */
  lemma ICloudChargeIsOnlineServices(row: Row)
    requires row.tags.Some?
    requires Contains(row.originalPayee, "ITUNES") && row.amount == -318
    ensures Interpret(Category, Prepared(Rules), row)
      == CustomOutcome(true, row.(categoryTitle := Some("Online Services"), note := Some(ICloudNote)))
  {
    PreparedRules();
    var rules := Prepared(Rules);
    assert ScanTypes(rules[0], 4, row).truthy;
    assert ScanTypes(rules[0], 0, row) == ScanTypes(rules[0], 4, row);
  }

  /** Any other charge whose original payee mentions iTunes, in any case, is filed under entertainment and nothing else changes. */
  lemma OtherITunesChargeIsEntertainment(row: Row)
    requires row.tags.Some?
    requires Contains(Lower(row.originalPayee), "itunes")
    requires !(Contains(row.originalPayee, "ITUNES") && row.amount == -318)
    ensures Interpret(Category, Prepared(Rules), row)
      == CustomOutcome(true, row.(categoryTitle := Some("Entertainment")))
  {
    PreparedRules();
    var rules := Prepared(Rules);
    assert ScanTypes(rules[0], 4, row) == CustomOutcome(false, row);
    assert ScanTypes(rules[0], 0, row) == ScanTypes(rules[0], 4, row);
    assert StringMatches(Some(row.originalPayee), ["itunes"]) by {
      assert Contains(Lower(row.originalPayee), ["itunes"][0]);
    }
    assert ScanTypes(rules[1], 0, row) == CustomOutcome(true, row);
    assert ScanRules(rules, 0, row) == ScanRules(rules, 1, row) == Scan(Some(1), row);
  }

  /** A charge whose original payee does not mention iTunes in any case matches no rule and is left unchanged. */
  lemma NonITunesChargeIsUnmatched(row: Row)
    requires row.tags.Some?
    requires !Contains(Lower(row.originalPayee), "itunes")
    ensures Interpret(Category, Prepared(Rules), row) == CustomOutcome(false, row)
  {
    PreparedRules();
    var rules := Prepared(Rules);
    assert Lower("ITUNES") == "itunes";
    if Contains(row.originalPayee, "ITUNES") {
      ContainsLower(row.originalPayee, "ITUNES");
      assert false;
    }
    assert !Fires(rules[0], row);
    assert !StringMatches(Some(row.originalPayee), ["itunes"]);
    assert !Fires(rules[1], row);
    InterpretNoMatch(Category, rules, row);
  }
}
