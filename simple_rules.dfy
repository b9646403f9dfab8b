/**
 * The rule language of `SimplePlugin` and what interpreting it means: a rule names
 * lower-cased substrings to look for in the original payee, the payee or the note, an
 * amount, or a custom predicate; the first (rule, field) pair that matches decides, in
 * rule order and in the fixed field order.
 */
module SimpleRules {
  import opened Wrappers
  import opened Text
  import opened Rows
  import opened EffectPlugins

  /** The outcome of testing one field of a rule: truthy or not, with the row as the test left it. */
  datatype CustomOutcome = CustomOutcome(truthy: bool, row: Row)

  /** The fields a custom predicate may write: the payee, the note and the category title, as it leaves them. */
  datatype Patch = Patch(payee: Option<string>, note: Option<string>, categoryTitle: Option<string>)

  /** What a custom predicate returns, and the fields as it leaves them. */
  datatype CustomResult = CustomResult(truthy: bool, patch: Patch)

  /** The row after a custom predicate wrote its fields. */
  function Patched(row: Row, p: Patch): (r: Row)
    ensures r.tags == row.tags
  {
    row.(payee := p.payee, note := p.note, categoryTitle := p.categoryTitle)
  }

  /** One rule; an absent key is `None`. */
  datatype Rule = Rule(
    originalPayee: Option<seq<string>>,
    payee: Option<seq<string>>,
    note: Option<seq<string>>,
    amount: Option<int>,
    custom: Option<Row -> CustomResult>,
    newValue: NewValue)

  /** The match types, `types` of the plugin. */
  datatype MatchType = OriginalPayeeType | PayeeType | NoteType | AmountType | CustomType

  /** `types`: the order in which the fields of a rule are tried. */
  const Types: seq<MatchType> := [OriginalPayeeType, PayeeType, NoteType, AmountType, CustomType]

  /** `matchType in rule` */
  predicate Has(rule: Rule, t: MatchType) {
    match t
    case OriginalPayeeType => rule.originalPayee.Some?
    case PayeeType => rule.payee.Some?
    case NoteType => rule.note.Some?
    case AmountType => rule.amount.Some?
    case CustomType => rule.custom.Some?
  }

  /** `matchType in customMatchFunctionsMap`: the types not matched as strings. */
  predicate IsCustomMatch(t: MatchType) {
    t == AmountType || t == CustomType
  }

  /** The options of a string field of a rule. */
  function Options(rule: Rule, t: MatchType): seq<string>
    requires Has(rule, t) && !IsCustomMatch(t)
  {
    match t
    case OriginalPayeeType => rule.originalPayee.value
    case PayeeType => rule.payee.value
    case NoteType => rule.note.value
  }

  /** `row[matchType]` for a string field. */
  function FieldValue(row: Row, t: MatchType): Option<string>
    requires !IsCustomMatch(t)
  {
    match t
    case OriginalPayeeType => Some(row.originalPayee)
    case PayeeType => row.payee
    case NoteType => row.note
  }

  /** `stringMatch`: the field is truthy and, lower-cased, contains one of the options. */
  predicate StringMatches(value: Option<string>, options: seq<string>) {
    Truthy(value) && exists k :: 0 <= k < |options| && Contains(Lower(value.value), options[k])
  }

  /** The outcome of the rule function for one present field: the custom predicate, `amountMatch` (always undefined), or `stringMatch`. */
  function Test(rule: Rule, t: MatchType, row: Row): CustomOutcome
    requires Has(rule, t)
  {
    match t
    case CustomType => var c := rule.custom.value(row); CustomOutcome(c.truthy, Patched(row, c.patch))
    case AmountType => CustomOutcome(false, row)
    case _ => CustomOutcome(StringMatches(FieldValue(row, t), Options(rule, t)), row)
  }

  /** The rules suit the plugin: their new values have the type its `updateRow` takes. */
  predicate RulesFit(e: Effect, rules: seq<Rule>) {
    forall i :: 0 <= i < |rules| ==> Fits(e, rules[i].newValue)
  }

  /** The fields of one rule from index `j` of `Types` on: the first truthy outcome, or none. */
  function ScanTypes(rule: Rule, j: nat, row: Row): (o: CustomOutcome)
    ensures o.row == Patched(row, Patch(o.row.payee, o.row.note, o.row.categoryTitle))
    decreases |Types| - j
  {
    if j >= |Types| then CustomOutcome(false, row)
    else if !Has(rule, Types[j]) then ScanTypes(rule, j + 1, row)
    else
      var o := Test(rule, Types[j], row);
      if o.truthy then o else ScanTypes(rule, j + 1, o.row)
  }

  /** Where the scan over the rules stopped (the index of the rule that matched, if any) and the row it left. */
  datatype Scan = Scan(fired: Option<nat>, row: Row)

  /** The rules from index `i` on, each scanned over its fields; the first truthy field stops the scan. */
  function ScanRules(rules: seq<Rule>, i: nat, row: Row): (s: Scan)
    ensures s.fired.Some? ==> i <= s.fired.value < |rules|
    ensures s.row == Patched(row, Patch(s.row.payee, s.row.note, s.row.categoryTitle))
    decreases |rules| - i
  {
    if i >= |rules| then Scan(None, row)
    else
      var o := ScanTypes(rules[i], 0, row);
      if o.truthy then Scan(Some(i), o.row) else ScanRules(rules, i + 1, o.row)
  }

  /**
   * `needsUpdate` of a rule plugin: whether a rule matched, and the row afterwards. The
   * matching rule's `newValue`, when truthy, is applied with the plugin's `updateRow`.
   */
  function Interpret(e: Effect, rules: seq<Rule>, row: Row): CustomOutcome
    requires RulesFit(e, rules) && row.tags.Some?
  {
    var s := ScanRules(rules, 0, row);
    if s.fired.None? then CustomOutcome(false, s.row)
    else
      var v := rules[s.fired.value].newValue;
      CustomOutcome(true, if TruthyValue(v) then UpdateRow(e, s.row, v) else s.row)
  }

  /* ---------------------------------------------------------------- first match wins */

  /** A rule whose custom predicate, when it answers false, leaves the row alone. */
  ghost predicate Quiet(rule: Rule) {
    rule.custom.Some? ==> forall r :: !rule.custom.value(r).truthy ==> Patched(r, rule.custom.value(r).patch) == r
  }

  /** Field `k` of `Types` is present in the rule and matches the row. */
  predicate FieldFires(rule: Rule, k: int, row: Row)
    requires 0 <= k < |Types|
  {
    Has(rule, Types[k]) && Test(rule, Types[k], row).truthy
  }

  /** Some field of the rule matches the row. */
  predicate Fires(rule: Rule, row: Row) {
    exists k :: 0 <= k < |Types| && FieldFires(rule, k, row)
  }

  /**
   * Within a quiet rule, the scan stops at the first field (in `Types` order) that matches,
   * with that field's outcome; when none matches, the row is unchanged.
   */
  lemma {:induction false} ScanTypesFirst(rule: Rule, j: nat, row: Row)
    requires Quiet(rule) && j <= |Types|
    ensures var o := ScanTypes(rule, j, row);
      && (o.truthy <==> exists k :: j <= k < |Types| && FieldFires(rule, k, row))
      && (!o.truthy ==> o.row == row)
      && (o.truthy ==> exists k :: j <= k < |Types| && FieldFires(rule, k, row) && o == Test(rule, Types[k], row)
                          && forall m :: j <= m < k ==> !FieldFires(rule, m, row))
    decreases |Types| - j
  {
    if j < |Types| {
      ScanTypesFirst(rule, j + 1, row);
      var o := ScanTypes(rule, j, row);
      if Has(rule, Types[j]) && Test(rule, Types[j], row).truthy {
        assert FieldFires(rule, j, row) && o == Test(rule, Types[j], row);
      } else {
        assert !FieldFires(rule, j, row);
        if Has(rule, Types[j]) {
          assert Test(rule, Types[j], row).row == row;
        }
        assert o == ScanTypes(rule, j + 1, row);
        if o.truthy {
          var k :| j + 1 <= k < |Types| && FieldFires(rule, k, row) && o == Test(rule, Types[k], row)
                   && forall m :: j + 1 <= m < k ==> !FieldFires(rule, m, row);
          assert forall m :: j <= m < k ==> !FieldFires(rule, m, row);
        }
      }
    }
  }

  /** The scan over one quiet rule answers true exactly when the rule fires; otherwise it leaves the row alone. */
  lemma ScanTypesFires(rule: Rule, row: Row)
    requires Quiet(rule)
    ensures ScanTypes(rule, 0, row).truthy == Fires(rule, row)
    ensures !Fires(rule, row) ==> ScanTypes(rule, 0, row).row == row
  {
    ScanTypesFirst(rule, 0, row);
  }

  /** The reference for the scan over the rules: the index of the first rule from `i` on that fires. */
  function FirstFiring(rules: seq<Rule>, i: nat, row: Row): (f: Option<nat>)
    decreases |rules| - i
  {
    if i >= |rules| then None
    else if Fires(rules[i], row) then Some(i)
    else FirstFiring(rules, i + 1, row)
  }

  /** `FirstFiring` is the least index from `i` on of a rule that fires, or none when no such rule exists. */
  lemma {:induction false} FirstFiringSpec(rules: seq<Rule>, i: nat, row: Row)
    ensures var f := FirstFiring(rules, i, row);
      && (f.None? <==> forall j :: i <= j < |rules| ==> !Fires(rules[j], row))
      && (f.Some? ==> i <= f.value < |rules| && Fires(rules[f.value], row)
                      && forall j :: i <= j < f.value ==> !Fires(rules[j], row))
    decreases |rules| - i
  {
    if i < |rules| && !Fires(rules[i], row) {
      FirstFiringSpec(rules, i + 1, row);
    }
  }

  /**
   * First match wins: over quiet rules, the scan stops at the first rule that fires (see
   * `FirstFiringSpec`) with the row as that rule's fields left it, and when no rule fires
   * the row is unchanged.
   */
  lemma {:induction false} ScanRulesFirst(rules: seq<Rule>, i: nat, row: Row)
    requires forall k :: 0 <= k < |rules| ==> Quiet(rules[k])
    requires i <= |rules|
    ensures var s := ScanRules(rules, i, row);
      && s.fired == FirstFiring(rules, i, row)
      && s.row == (if s.fired.None? then row else ScanTypes(rules[s.fired.value], 0, row).row)
    decreases |rules| - i
  {
    if i < |rules| {
      ScanRulesStep(rules, i, row);
      if !Fires(rules[i], row) {
        ScanRulesFirst(rules, i + 1, row);
      }
    }
  }

  /** One step of the scan over quiet rules: a rule that fires stops it, one that does not passes the row on unchanged. */
  lemma ScanRulesStep(rules: seq<Rule>, i: nat, row: Row)
    requires i < |rules| && Quiet(rules[i])
    ensures ScanRules(rules, i, row) ==
      if Fires(rules[i], row) then Scan(Some(i), ScanTypes(rules[i], 0, row).row) else ScanRules(rules, i + 1, row)
  {
    ScanTypesFires(rules[i], row);
  }

  /** Over quiet rules, a row no rule matches is left exactly as it was. */
  lemma InterpretNoMatch(e: Effect, rules: seq<Rule>, row: Row)
    requires RulesFit(e, rules) && row.tags.Some?
    requires forall k :: 0 <= k < |rules| ==> Quiet(rules[k])
    requires forall j :: 0 <= j < |rules| ==> !Fires(rules[j], row)
    ensures Interpret(e, rules, row) == CustomOutcome(false, row)
  {
    ScanRulesFirst(rules, 0, row);
    FirstFiringSpec(rules, 0, row);
  }

  /**
   * Over quiet rules, `needsUpdate` answers true exactly when some rule matches; the
   * first matching rule's new value is then applied, once, and only when it is truthy.
   */
  lemma InterpretFirstMatch(e: Effect, rules: seq<Rule>, row: Row, i: nat)
    requires RulesFit(e, rules) && row.tags.Some?
    requires forall k :: 0 <= k < |rules| ==> Quiet(rules[k])
    requires i < |rules| && Fires(rules[i], row) && forall j :: 0 <= j < i ==> !Fires(rules[j], row)
    ensures var after := ScanTypes(rules[i], 0, row).row;
      var v := rules[i].newValue;
      && after.tags.Some?
      && Interpret(e, rules, row) == CustomOutcome(true, if TruthyValue(v) then UpdateRow(e, after, v) else after)
  {
    ScanRulesFirst(rules, 0, row);
    FirstFiringSpec(rules, 0, row);
    var f := FirstFiring(rules, 0, row);
    assert f == Some(i);
  }

  /** `amountMatch` never returns a value, so a rule keyed only by amount never matches and changes nothing. */
  lemma AmountOnlyRuleNeverFires(rule: Rule, row: Row)
    requires rule.originalPayee.None? && rule.payee.None? && rule.note.None? && rule.custom.None?
    ensures ScanTypes(rule, 0, row) == CustomOutcome(false, row)
    ensures !Fires(rule, row)
  {
    assert ScanTypes(rule, 3, row) == CustomOutcome(false, row);
  }

  /* ---------------------------------------------------------------- prepared rules */

  /** `options.map((o) => o.toLowerCase())` */
  function LowerAll(options: seq<string>): (r: seq<string>)
    ensures |r| == |options|
  {
    seq(|options|, k requires 0 <= k < |options| => Lower(options[k]))
  }

  lemma LowerAllIdempotent(options: seq<string>)
    ensures LowerAll(LowerAll(options)) == LowerAll(options)
  {
    forall k | 0 <= k < |options| ensures LowerAll(LowerAll(options))[k] == LowerAll(options)[k] {
      LowerIdempotent(options[k]);
    }
  }

  function LowerOpt(options: Option<seq<string>>): Option<seq<string>> {
    if options.Some? then Some(LowerAll(options.value)) else None
  }

  /** A prepared rule: the options of every string field present are lower-cased. */
  function PrepareRule(rule: Rule): Rule {
    rule.(originalPayee := LowerOpt(rule.originalPayee), payee := LowerOpt(rule.payee), note := LowerOpt(rule.note))
  }

  /** `prepareRules`: every rule prepared, in order. */
  function Prepared(rules: seq<Rule>): (r: seq<Rule>)
    ensures |r| == |rules|
  {
    seq(|rules|, i requires 0 <= i < |rules| => PrepareRule(rules[i]))
  }

  /** Every option of a string field is lower case. */
  predicate LowerRule(rule: Rule) {
    forall t :: !IsCustomMatch(t) && Has(rule, t) ==> forall k :: 0 <= k < |Options(rule, t)| ==> IsLower(Options(rule, t)[k])
  }

  /**
   * Preparing keeps the rules, their order, the fields they have, the amount, the custom
   * predicate and the new value, and lower-cases each string option.
   */
  lemma PreparedSpec(rules: seq<Rule>)
    ensures var r := Prepared(rules);
      forall i :: 0 <= i < |rules| ==>
        && (forall t :: Has(r[i], t) == Has(rules[i], t))
        && r[i].amount == rules[i].amount && r[i].custom == rules[i].custom && r[i].newValue == rules[i].newValue
        && (forall t :: !IsCustomMatch(t) && Has(rules[i], t) ==>
              |Options(r[i], t)| == |Options(rules[i], t)|
              && forall k :: 0 <= k < |Options(r[i], t)| ==> Options(r[i], t)[k] == Lower(Options(rules[i], t)[k]))
        && LowerRule(r[i])
  {
    var r := Prepared(rules);
    forall i, t, k | 0 <= i < |rules| && !IsCustomMatch(t) && Has(r[i], t) && 0 <= k < |Options(r[i], t)|
      ensures IsLower(Options(r[i], t)[k])
    {
      LowerIsLower(Options(rules[i], t)[k]);
    }
  }

  /** Preparing prepared rules changes nothing. */
  lemma PreparedIdempotent(rules: seq<Rule>)
    ensures Prepared(Prepared(rules)) == Prepared(rules)
  {
    forall i | 0 <= i < |rules| ensures PrepareRule(PrepareRule(rules[i])) == PrepareRule(rules[i]) {
      var rule := rules[i];
      if rule.originalPayee.Some? {
        LowerAllIdempotent(rule.originalPayee.value);
      }
      if rule.payee.Some? {
        LowerAllIdempotent(rule.payee.value);
      }
      if rule.note.Some? {
        LowerAllIdempotent(rule.note.value);
      }
    }
  }

  /**
   * A prepared string rule matches case-insensitively: a non-empty field that contains an
   * option in any case matches it.
   */
  lemma PreparedMatchIgnoresCase(value: string, options: seq<string>, k: int)
    requires value != "" && 0 <= k < |options| && Contains(value, options[k])
    ensures StringMatches(Some(value), LowerAll(options))
  {
    ContainsLower(value, options[k]);
    assert LowerAll(options)[k] == Lower(options[k]);
  }

  /** A capital outside ASCII is lower-cased too: the option 'CAFÉ' matches the payee "Café Roma". */
  lemma AccentedOptionMatches()
    ensures LowerAll(["CAFÉ"]) == ["café"]
    ensures StringMatches(Some("Café Roma"), LowerAll(["CAFÉ"]))
  {
    assert Lower("CAFÉ") == "café";
    assert Lower("Café Roma")[0..4] == "café";
    ContainsAt(Lower("Café Roma"), "café", 0);
    assert Contains(Lower(Some("Café Roma").value), LowerAll(["CAFÉ"])[0]);
  }

  /** Fields that agree once lower-cased match the same prepared options. */
  lemma PreparedMatchCaseBlind(a: string, b: string, options: seq<string>)
    requires Lower(a) == Lower(b)
    ensures StringMatches(Some(a), options) == StringMatches(Some(b), options)
  {
    assert |a| == |Lower(a)| == |b|;
  }
}
