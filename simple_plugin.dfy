/**
 * `SimplePlugin` and its four concrete plugins (label, category, name, note): an object
 * that loads its rule file once, lower-cases the string options, and then tests rows
 * against the rules in order. Which subclass a plugin is, is its `effect`.
 */
module SimplePlugins {
  import opened Wrappers
  import opened Text
  import opened Rows
  import opened EffectPlugins
  import opened SimpleRules

  /** The path of the rule file a plugin named `name` loads. */
  function RulesPath(name: string): string {
    "./rules/" + Lower(name) + ".rules"
  }

  /** Each concrete plugin reads its own rule file; the category plugin reads `category.rules`. */
  lemma RulesPaths()
    ensures RulesPath(PluginName(Category)) == "./rules/category.rules"
    ensures RulesPath(PluginName(Label)) == "./rules/label.rules"
    ensures RulesPath(PluginName(Name)) == "./rules/name.rules"
    ensures RulesPath(PluginName(Note)) == "./rules/note.rules"
  {
  }

  /** `preparedRule[type] = options` for a string field. */
  function WithOptions(rule: Rule, t: MatchType, options: seq<string>): Rule
    requires !IsCustomMatch(t)
  {
    match t
    case OriginalPayeeType => rule.(originalPayee := Some(options))
    case PayeeType => rule.(payee := Some(options))
    case NoteType => rule.(note := Some(options))
  }

  class SimplePlugin {
    const name: string
    const effect: Effect
    var rules: seq<Rule>

    /** The loaded rules suit the plugin's `updateRow`. */
    ghost predicate Valid()
      reads this
    {
      RulesFit(effect, rules)
    }

    /**
     * A concrete plugin: its name, then `prepareRules` on the rule file named after it.
     * `ruleFiles` stands for the modules `require` can load.
     */
    constructor (effect: Effect, ruleFiles: map<string, seq<Rule>>)
      requires effect != Base
      requires RulesPath(PluginName(effect)) in ruleFiles
      requires RulesFit(effect, ruleFiles[RulesPath(PluginName(effect))])
      ensures name == PluginName(effect) && this.effect == effect
      ensures rules == Prepared(ruleFiles[RulesPath(name)])
      ensures Valid()
    {
      name := PluginName(effect);
      this.effect := effect;
      rules := [];
      new;
      PrepareRules(ruleFiles);
    }

    /** `prepareRules`: load the plugin's rule file and lower-case every string option. */
    method PrepareRules(ruleFiles: map<string, seq<Rule>>)
      requires RulesPath(name) in ruleFiles
      requires RulesFit(effect, ruleFiles[RulesPath(name)])
      modifies this`rules
      ensures rules == Prepared(ruleFiles[RulesPath(name)])
      ensures Valid()
    {
      var source := ruleFiles[RulesPath(name)];
      var prepared: seq<Rule> := [];
      for i := 0 to |source|
        invariant |prepared| == i
        invariant forall k :: 0 <= k < i ==> prepared[k] == PrepareRule(source[k])
      {
        var rule := source[i];
        var preparedRule := rule;
        for typeIndex := 0 to |Types|
          invariant preparedRule == rule.(
            originalPayee := if typeIndex > 0 then LowerOpt(rule.originalPayee) else rule.originalPayee,
            payee := if typeIndex > 1 then LowerOpt(rule.payee) else rule.payee,
            note := if typeIndex > 2 then LowerOpt(rule.note) else rule.note)
        {
          var t := Types[typeIndex];
          if Has(rule, t) && !IsCustomMatch(t) {
            preparedRule := WithOptions(preparedRule, t, LowerAll(Options(rule, t)));
          }
        }
        prepared := prepared + [preparedRule];
      }
      rules := prepared;
    }

    /**
     * `needsUpdate(row)`: the rules in order, each over its fields in `Types` order; the
     * first field that matches applies the rule's new value (when truthy) and answers true.
     */
    method NeedsUpdate(row: Row) returns (matched: bool, updated: Row)
      requires Valid() && row.tags.Some?
      ensures CustomOutcome(matched, updated) == Interpret(effect, rules, row)
    {
      updated := row;
      for ruleIndex := 0 to |rules|
        invariant ScanRules(rules, 0, row) == ScanRules(rules, ruleIndex, updated)
        invariant updated.tags == row.tags
      {
        var rule := rules[ruleIndex];
        ghost var start := updated;
        for typeIndex := 0 to |Types|
          invariant ScanTypes(rule, 0, start) == ScanTypes(rule, typeIndex, updated)
          invariant updated.tags == row.tags
        {
          var matchType := Types[typeIndex];
          if Has(rule, matchType) {
            var outcome := RuleFunction(matchType, updated, rule);
            updated := outcome.row;
            if outcome.truthy {
              if TruthyValue(rule.newValue) {
                updated := UpdateRow(updated, rule.newValue);
              }
              matched := true;
              return;
            }
          }
        }
      }
      matched := false;
    }

    /**
     * `getRuleFunction(matchType)` applied to the row: `amountMatch` or `customMatch` for
     * the custom types, `stringMatch` otherwise.
     */
    method RuleFunction(matchType: MatchType, row: Row, rule: Rule) returns (outcome: CustomOutcome)
      requires Has(rule, matchType)
      ensures outcome == Test(rule, matchType, row)
    {
      if IsCustomMatch(matchType) {
        if matchType == AmountType {
          var m := AmountMatch(row, rule.amount.value);
          outcome := CustomOutcome(m, row);
        } else {
          var c := rule.custom.value(row);
          outcome := CustomOutcome(c.truthy, Patched(row, c.patch));
        }
      } else {
        var m := StringMatch(FieldValue(row, matchType), Options(rule, matchType));
        outcome := CustomOutcome(m, row);
      }
    }

    /** `stringMatch`: a truthy field whose lower-cased text contains one of the options. */
    static method StringMatch(rowValue: Option<string>, matchOptions: seq<string>) returns (found: bool)
      ensures found == StringMatches(rowValue, matchOptions)
    {
      if !Truthy(rowValue) {
        return false;
      }
      var value := Lower(rowValue.value);
      for k := 0 to |matchOptions|
        invariant forall m :: 0 <= m < k ==> !Contains(value, matchOptions[m])
      {
        if Contains(value, matchOptions[k]) {
          return true;
        }
      }
      return false;
    }

    /** `amountMatch`: the comparison's value is dropped, so the answer is always falsy. */
    static method AmountMatch(row: Row, matchAmount: int) returns (found: bool)
      ensures !found
    {
      found := false;
    }

    /** `updateRow(row, newValue)` of the plugin's class; the label plugin adds its labels one at a time. */
    method UpdateRow(row: Row, newValue: NewValue) returns (updated: Row)
      requires Fits(effect, newValue) && TruthyValue(newValue)
      requires effect == Label ==> row.tags.Some?
      ensures updated == EffectPlugins.UpdateRow(effect, row, newValue)
    {
      match effect
      case Base =>
        updated := row;
      case Label =>
        var labels := newValue.labels;
        updated := row;
        for k := 0 to |labels|
          invariant updated.tags.Some? && updated == AddTags(row, labels[..k])
        {
          assert labels[..k + 1][..k] == labels[..k];
          updated := AddTag(updated, labels[k]);
        }
        assert labels[..|labels|] == labels;
      case Category =>
        updated := row.(categoryTitle := Some(newValue.text));
      case Name =>
        updated := row.(payee := Some(newValue.text));
      case Note =>
        updated := row.(note := Some(newValue.text));
    }
  }
}
