/**
 * `RulesEngine.apply`: every row is given fresh shared data and a tag list, run through
 * every plugin in order (over its split items when it has them, otherwise itself), and
 * reported, tagged 'ΔBot', when some plugin matched and the row changed.
 */
module Engine {
  import opened Wrappers
  import opened Seqs
  import opened Rows
  import opened AmazonIndex
  import AmazonMatch
  import opened EffectPlugins
  import opened SimpleRules
  import opened SimplePlugins
  import AmazonPluginRevision1

  const BotTag := "ΔBot"

  /** What a plugin is, as far as rows are concerned: the Amazon matcher's tables or a rule plugin's rules. */
  datatype PluginSpec =
    | AmazonSpec(ix: Index, parse: string -> ParsedDate)
    | RulesSpec(effect: Effect, rules: seq<Rule>)

  /** No bucket holds an empty order id (an empty id would make the comparator throw while sorting). */
  predicate NoEmptyIds(ix: Index) {
    && (forall k :: k in ix.amazonOrders ==> "" !in ix.amazonOrders[k])
    && (forall k :: k in ix.refundPrices ==> "" !in ix.refundPrices[k])
  }

  /** A plugin ready to run: loaded tables without empty ids, or rules that suit the plugin. */
  ghost predicate SpecReady(p: PluginSpec) {
    match p
    case AmazonSpec(ix, _) => Valid(ix) && NoEmptyIds(ix)
    case RulesSpec(e, rules) => RulesFit(e, rules)
  }

  /** A row a plugin may be run on: it has tags and shared data. */
  predicate ViewReady(v: Row) {
    v.tags.Some? && v.sharedPluginData.Some?
  }

  /** Split items, when present, are ready. */
  predicate ItemsReady(row: Row) {
    row.splitItems.Some? ==> forall k :: 0 <= k < |row.splitItems.value| ==> ViewReady(row.splitItems.value[k])
  }

  /** A row ready for the plugins, and so are its split items. */
  predicate RowReady(row: Row) {
    ViewReady(row) && ItemsReady(row)
  }

  /* ---------------------------------------------------------------- plugins keep rows ready */

  /** `createUpdateItem` keeps shared data, keeps split items, and leaves tags present. */
  lemma UpdateItemKeeps(row: Row, title: string, seller: string, orderDate: string, category: string,
                        originalPrice: Option<int>, orderId: string, itemAmount: int)
    requires ViewReady(row)
    ensures var r := AmazonMatch.UpdateItem(row, title, seller, orderDate, category, originalPrice, orderId, itemAmount);
      ViewReady(r) && r.splitItems == row.splitItems
  {
    AmazonMatch.UpdateItemStages(row, title, seller, orderDate, category, originalPrice, orderId, itemAmount);
    var f := AmazonMatch.UpdatedFields(row, title, seller, orderDate, category, originalPrice, orderId, itemAmount);
    AddTagsEffect(f, AmazonMatch.UpdateTags(category, originalPrice.Some?, AmazonMatch.IsSplit(row)));
  }

  /** The Amazon plugin leaves a ready view ready, and any split items it creates are ready. */
  lemma ResolveReady(ix: Index, parse: string -> ParsedDate, v: Row)
    requires Valid(ix) && ViewReady(v)
    ensures var r := AmazonMatch.Resolve(ix, parse, v).row;
      ViewReady(r) && (r.splitItems == v.splitItems || RowReady(r))
  {
    if AmazonMatch.Guarded(v) {
    } else if v.amount > 0 && v.amount in ix.refundPrices {
      var id := ix.refundPrices[v.amount][0];
      var refund := ix.amazonRefunds[id];
      UpdateItemKeeps(v, refund.title, refund.seller, refund.orderDate, refund.category, None, id, v.amount);
    } else {
      var dated := AmazonMatch.WithParsedDate(v, parse(v.date));
      var m := AmazonMatch.FindBestMatch(ix, dated);
      if m.Some? && m.value != "" {
        AmazonMatch.FindBestMatchSpec(ix, dated);
        var items := ix.amazonItems[m.value];
        if |items| > 1 {
          var marked := dated.(sharedPluginData := Some(dated.sharedPluginData.value.(split := true)));
          var rs := AmazonMatch.SplitRows(marked, items, m.value);
          forall k | 0 <= k < |rs| ensures ViewReady(rs[k]) {
            var item := items[k];
            UpdateItemKeeps(marked, item.title, item.seller, item.orderDate, item.category, item.originalPrice, m.value, -item.itemTotal);
          }
        } else {
          var item := items[0];
          UpdateItemKeeps(dated, item.title, item.seller, item.orderDate, item.category, item.originalPrice, m.value, -item.itemTotal);
        }
      }
    }
  }

  /** A rule plugin keeps the shared data and the split items, and leaves tags present. */
  lemma InterpretReady(e: Effect, rules: seq<Rule>, v: Row)
    requires RulesFit(e, rules) && ViewReady(v)
    ensures var r := Interpret(e, rules, v).row;
      ViewReady(r) && r.splitItems == v.splitItems
  {
    var s := ScanRules(rules, 0, v);
    if s.fired.Some? && e == Label && TruthyValue(rules[s.fired.value].newValue) {
      AddTagsEffect(s.row, rules[s.fired.value].newValue.labels);
    }
  }

  /* ---------------------------------------------------------------- the pass, as functions */

  /** `plugin.needsUpdate(view)`: whether the plugin matched, and the view afterwards. */
  function RunPlugin(p: PluginSpec, v: Row): (o: AmazonMatch.Outcome)
    requires SpecReady(p) && ViewReady(v)
    ensures ViewReady(o.row) && (o.row.splitItems == v.splitItems || RowReady(o.row))
  {
    match p
    case AmazonSpec(ix, parse) =>
      ResolveReady(ix, parse, v);
      AmazonMatch.Resolve(ix, parse, v)
    case RulesSpec(e, rules) =>
      InterpretReady(e, rules, v);
      var c := Interpret(e, rules, v);
      AmazonMatch.Outcome(c.truthy, c.row)
  }

  /** Whether any split item matched, and the split items afterwards. */
  datatype Sweep = Sweep(matched: bool, items: seq<Row>)

  /** The plugin over the split items from index `k` on, each item updated in place. */
  function RunItems(p: PluginSpec, items: seq<Row>, k: nat): (s: Sweep)
    requires SpecReady(p) && k <= |items|
    requires forall j :: 0 <= j < |items| ==> ViewReady(items[j])
    ensures |s.items| == |items| && forall j :: 0 <= j < |items| ==> ViewReady(s.items[j])
    decreases |items| - k
  {
    if k == |items| then Sweep(false, items)
    else
      var o := RunPlugin(p, items[k]);
      var rest := RunItems(p, items[k := o.row], k + 1);
      Sweep(o.matched || rest.matched, rest.items)
  }

  /** One plugin over `row.splitItems || [row]`: true when it matched any of them. */
  function RunViews(p: PluginSpec, row: Row): (o: AmazonMatch.Outcome)
    requires SpecReady(p) && RowReady(row)
    ensures RowReady(o.row)
  {
    if row.splitItems.None? then RunPlugin(p, row)
    else
      var s := RunItems(p, row.splitItems.value, 0);
      AmazonMatch.Outcome(s.matched, row.(splitItems := Some(s.items)))
  }

  /** The plugins from index `j` on, in order, over the row's views. */
  function RunPlugins(ps: seq<PluginSpec>, row: Row, j: nat): (o: AmazonMatch.Outcome)
    requires forall i :: 0 <= i < |ps| ==> SpecReady(ps[i])
    requires RowReady(row)
    ensures RowReady(o.row)
    decreases |ps| - j
  {
    if j >= |ps| then AmazonMatch.Outcome(false, row)
    else
      var o := RunViews(ps[j], row);
      var rest := RunPlugins(ps, o.row, j + 1);
      AmazonMatch.Outcome(o.matched || rest.matched, rest.row)
  }

  /** The row as the plugins first see it: empty shared data, and an empty tag list when it had none. */
  function Prepare(row: Row): Row {
    row.(sharedPluginData := Some(EmptySharedPluginData), tags := Some(row.tags.GetOr([])))
  }

  /**
   * One row of `apply`: run the plugins, delete the shared data, and when some plugin matched
   * and the row differs from the row as it came in, add 'ΔBot' and report it.
   */
  function ProcessRow(ps: seq<PluginSpec>, row: Row): AmazonMatch.Outcome
    requires forall i :: 0 <= i < |ps| ==> SpecReady(ps[i])
    requires ItemsReady(row)
  {
    var run := RunPlugins(ps, Prepare(row), 0);
    var cleared := run.row.(sharedPluginData := None);
    if run.matched && cleared != row then AmazonMatch.Outcome(true, AddTag(cleared, BotTag))
    else AmazonMatch.Outcome(false, cleared)
  }

  /** The updates `apply` returns: the reported rows, in row order. */
  function Updates(ps: seq<PluginSpec>, rows: seq<Row>): seq<Row>
    requires forall i :: 0 <= i < |ps| ==> SpecReady(ps[i])
    requires forall k :: 0 <= k < |rows| ==> ItemsReady(rows[k])
  {
    if rows == [] then []
    else
      var o := ProcessRow(ps, rows[|rows| - 1]);
      Updates(ps, rows[..|rows| - 1]) + (if o.matched then [o.row] else [])
  }

  /* ---------------------------------------------------------------- what a pass promises */

  /**
   * Every processed row has its shared data deleted and a tag list; a reported row carries
   * 'ΔBot' and differs from the row as it came in; a row not reported gets nothing from the
   * engine beyond that bookkeeping.
   */
  lemma ProcessRowSpec(ps: seq<PluginSpec>, row: Row)
    requires forall i :: 0 <= i < |ps| ==> SpecReady(ps[i])
    requires ItemsReady(row)
    ensures var o := ProcessRow(ps, row);
      var run := RunPlugins(ps, Prepare(row), 0);
      && o.row.sharedPluginData.None? && o.row.tags.Some?
      && (o.matched <==> run.matched && run.row.(sharedPluginData := None) != row)
      && (o.matched ==> BotTag in o.row.tags.value)
      && (!o.matched ==> o.row == run.row.(sharedPluginData := None))
  {
  }

  /** A matched row that came in without a tag list is always reported: the engine gave it one. */
  lemma TaglessMatchIsReported(ps: seq<PluginSpec>, row: Row)
    requires forall i :: 0 <= i < |ps| ==> SpecReady(ps[i])
    requires ItemsReady(row) && row.tags.None?
    requires RunPlugins(ps, Prepare(row), 0).matched
    ensures ProcessRow(ps, row).matched
  {
    ProcessRowSpec(ps, row);
    var run := RunPlugins(ps, Prepare(row), 0);
    assert run.row.(sharedPluginData := None).tags != row.tags;
  }

  /** The plugins that leave a row alone when they do not match: the Amazon matcher and quiet rule plugins. */
  ghost predicate QuietSpec(p: PluginSpec) {
    p.RulesSpec? ==> forall k :: 0 <= k < |p.rules| ==> Quiet(p.rules[k])
  }

  /** A plugin that does not match a row without split items changes nothing but its shared data. */
  lemma {:induction false} RunPluginUnmatched(p: PluginSpec, v: Row)
    requires SpecReady(p) && QuietSpec(p) && ViewReady(v) && v.splitItems.None?
    requires !RunPlugin(p, v).matched
    ensures RunPlugin(p, v).row == v.(sharedPluginData := RunPlugin(p, v).row.sharedPluginData)
  {
    match p
    case AmazonSpec(ix, parse) =>
      if !AmazonMatch.Guarded(v) && !(v.amount > 0 && v.amount in ix.refundPrices) {
        var dated := AmazonMatch.WithParsedDate(v, parse(v.date));
        var m := AmazonMatch.FindBestMatch(ix, dated);
        assert !(m.Some? && m.value != "");
      }
    case RulesSpec(e, rules) =>
      ScanRulesFirst(rules, 0, v);
  }

  /**
   * Nothing else changes: when no plugin matches a row that has no split items, the row
   * comes back as it went in, except that it has a tag list and no shared data.
   */
  lemma {:induction false} RunPluginsUnmatched(ps: seq<PluginSpec>, row: Row, j: nat)
    requires forall i :: 0 <= i < |ps| ==> SpecReady(ps[i]) && QuietSpec(ps[i])
    requires RowReady(row) && row.splitItems.None?
    requires !RunPlugins(ps, row, j).matched
    ensures RunPlugins(ps, row, j).row.(sharedPluginData := None) == row.(sharedPluginData := None)
    decreases |ps| - j
  {
    if j < |ps| {
      var o := RunViews(ps[j], row);
      RunPluginUnmatched(ps[j], row);
      RunPluginsUnmatched(ps, o.row, j + 1);
    }
  }

  /** An unmatched row without split items is never reported, and only the engine's bookkeeping touches it. */
  lemma UnmatchedRowIsKept(ps: seq<PluginSpec>, row: Row)
    requires forall i :: 0 <= i < |ps| ==> SpecReady(ps[i]) && QuietSpec(ps[i])
    requires row.splitItems.None?
    requires !RunPlugins(ps, Prepare(row), 0).matched
    ensures !ProcessRow(ps, row).matched
    ensures ProcessRow(ps, row).row == row.(tags := Some(row.tags.GetOr([])), sharedPluginData := None)
  {
    RunPluginsUnmatched(ps, Prepare(row), 0);
  }

  /** The rows as `apply` leaves them, in order. */
  function Processed(ps: seq<PluginSpec>, rows: seq<Row>): (r: seq<Row>)
    requires forall i :: 0 <= i < |ps| ==> SpecReady(ps[i])
    requires forall k :: 0 <= k < |rows| ==> ItemsReady(rows[k])
    ensures |r| == |rows|
  {
    if rows == [] then [] else Processed(ps, rows[..|rows| - 1]) + [ProcessRow(ps, rows[|rows| - 1]).row]
  }

  /** The updates are the reported rows, in order: a subsequence of the processed rows, each tagged 'ΔBot' and stripped of its shared data. */
  lemma {:induction false} UpdatesSpec(ps: seq<PluginSpec>, rows: seq<Row>)
    requires forall i :: 0 <= i < |ps| ==> SpecReady(ps[i])
    requires forall k :: 0 <= k < |rows| ==> ItemsReady(rows[k])
    ensures IsSubsequence(Updates(ps, rows), Processed(ps, rows))
    ensures forall u :: u in Updates(ps, rows) ==> u.tags.Some? && BotTag in u.tags.value && u.sharedPluginData.None?
    decreases |rows|
  {
    if rows != [] {
      var n := |rows| - 1;
      UpdatesSpec(ps, rows[..n]);
      var o := ProcessRow(ps, rows[n]);
      ProcessRowSpec(ps, rows[n]);
      assert Updates(ps, rows) == Updates(ps, rows[..n]) + (if o.matched then [o.row] else []);
      assert Processed(ps, rows) == Processed(ps, rows[..n]) + [o.row];
      if o.matched {
        SubsequenceAppend(Updates(ps, rows[..n]), Processed(ps, rows[..n]), o.row);
      } else {
        assert Updates(ps, rows) == Updates(ps, rows[..n]);
        SubsequenceSkip(Updates(ps, rows[..n]), Processed(ps, rows[..n]), o.row);
      }
    }
  }

  /** Processing one more row appends it to the processed rows, and to the updates when it is reported. */
  lemma ProcessedStep(ps: seq<PluginSpec>, rows: seq<Row>, i: nat)
    requires forall j :: 0 <= j < |ps| ==> SpecReady(ps[j])
    requires forall j :: 0 <= j < |rows| ==> ItemsReady(rows[j])
    requires i < |rows|
    ensures var o := ProcessRow(ps, rows[i]);
      && Processed(ps, rows[..i + 1]) == Processed(ps, rows[..i]) + [o.row]
      && Updates(ps, rows[..i + 1]) == Updates(ps, rows[..i]) + (if o.matched then [o.row] else [])
  {
    assert rows[..i + 1][..i] == rows[..i];
  }

  /** Row `k` of the processed rows is row `k` as `ProcessRow` leaves it. */
  lemma {:induction false} ProcessedAt(ps: seq<PluginSpec>, rows: seq<Row>, k: nat)
    requires forall i :: 0 <= i < |ps| ==> SpecReady(ps[i])
    requires forall j :: 0 <= j < |rows| ==> ItemsReady(rows[j])
    requires k < |rows|
    ensures Processed(ps, rows)[k] == ProcessRow(ps, rows[k]).row
    decreases |rows|
  {
    if k < |rows| - 1 {
      ProcessedAt(ps, rows[..|rows| - 1], k);
    }
  }

  /* ---------------------------------------------------------------- the engine object */

  /** A plugin object: the Amazon matcher or a rule plugin. */
  datatype PluginRef = AmazonRef(amazon: AmazonPluginRevision1.AmazonPlugin) | RulesRef(simple: SimplePlugin) {
    function Obj(): object {
      match this
      case AmazonRef(a) => a
      case RulesRef(s) => s
    }
  }

  /** What a plugin object holds, as a `PluginSpec`. */
  function SpecOf(p: PluginRef): PluginSpec
    reads p.Obj()
  {
    match p
    case AmazonRef(a) => AmazonSpec(a.State(), a.parse)
    case RulesRef(s) => RulesSpec(s.effect, s.rules)
  }

  function Objs(ps: seq<PluginRef>): set<object> {
    set i | 0 <= i < |ps| :: ps[i].Obj()
  }

  class RulesEngine {
    const plugins: seq<PluginRef>

    constructor (plugins: seq<PluginRef>)
      ensures this.plugins == plugins
    {
      this.plugins := plugins;
    }

    function Specs(): (r: seq<PluginSpec>)
      reads Objs(plugins)
      ensures |r| == |plugins|
    {
      seq(|plugins|, i requires 0 <= i < |plugins| reads Objs(plugins) => SpecOf(plugins[i]))
    }

    ghost predicate Ready()
      reads Objs(plugins)
    {
      forall i :: 0 <= i < |plugins| ==> SpecReady(Specs()[i])
    }

    /**
     * `apply(rows)`: every row is processed in place, in order, and the reported rows are
     * returned in order. The plugins' tables are as they were.
     */
    method Apply(rows: array<Row>) returns (updates: seq<Row>)
      requires Ready()
      requires forall k :: 0 <= k < rows.Length ==> ItemsReady(rows[k])
      modifies rows, Objs(plugins)
      ensures Specs() == old(Specs())
      ensures rows[..] == Processed(Specs(), old(rows[..]))
      ensures updates == Updates(Specs(), old(rows[..]))
    {
      ghost var specs := Specs();
      ghost var input := rows[..];
      updates := [];
      ghost var done: seq<Row> := [];
      assert rows !in Objs(plugins);
      for i := 0 to rows.Length
        invariant rows !in Objs(plugins)
        invariant Specs() == specs && Ready()
        invariant done == Processed(specs, input[..i])
        invariant updates == Updates(specs, input[..i])
        invariant forall k :: 0 <= k < i ==> rows[k] == done[k]
        invariant forall k :: i <= k < rows.Length ==> rows[k] == input[k]
      {
        var processed, update := ProcessAt(rows, i);
        ProcessedStep(specs, input, i);
        done := done + [processed];
        if update {
          updates := updates + [processed];
        }
      }
      assert input[..rows.Length] == input;
      assert rows[..] == done;
    }

    /** The body of `apply`'s loop: row `i` is processed and written back in place; the other rows stay. */
    method ProcessAt(rows: array<Row>, i: nat) returns (processed: Row, update: bool)
      requires Ready() && rows !in Objs(plugins)
      requires i < rows.Length && ItemsReady(rows[i])
      modifies rows, Objs(plugins)
      ensures Specs() == old(Specs()) && Ready()
      ensures AmazonMatch.Outcome(update, processed) == ProcessRow(Specs(), old(rows[i]))
      ensures rows[i] == processed
      ensures forall k :: 0 <= k < rows.Length && k != i ==> rows[k] == old(rows[k])
    {
      processed, update := ProcessOne(rows[i]);
      rows[i] := processed;
    }

    /** One row of `apply`: prepare it, run the plugins, delete the shared data, and decide whether to report it. */
    method ProcessOne(row: Row) returns (processed: Row, update: bool)
      requires Ready() && ItemsReady(row)
      modifies Objs(plugins)
      ensures Specs() == old(Specs()) && Ready()
      ensures AmazonMatch.Outcome(update, processed) == ProcessRow(Specs(), row)
    {
      var current := row.(sharedPluginData := Some(EmptySharedPluginData));
      if current.tags.None? {
        current := current.(tags := Some([]));
      }
      assert current == Prepare(row);
      var matched;
      matched, current := RunPluginsOn(current);
      var cleared := current.(sharedPluginData := None);
      if matched && cleared != row {
        processed := AddTag(cleared, BotTag);
        update := true;
      } else {
        processed := cleared;
        update := false;
      }
    }

    /** `this.plugins.forEach(...)`: every plugin in order over the row's views; true when any matched. */
    method RunPluginsOn(row: Row) returns (matched: bool, current: Row)
      requires Ready() && RowReady(row)
      modifies Objs(plugins)
      ensures Specs() == old(Specs())
      ensures AmazonMatch.Outcome(matched, current) == RunPlugins(Specs(), row, 0)
    {
      ghost var specs := Specs();
      current := row;
      matched := false;
      for j := 0 to |plugins|
        invariant Specs() == specs
        invariant RowReady(current)
        invariant RunPlugins(specs, row, 0) ==
          (var r := RunPlugins(specs, current, j); AmazonMatch.Outcome(matched || r.matched, r.row))
      {
        assert SpecOf(plugins[j]) == specs[j];
        var m, u := RunViewsOf(plugins[j], current);
        matched := matched || m;
        current := u;
      }
    }

    /** `(row.splitItems || [row]).forEach(...)` for one plugin. */
    method RunViewsOf(p: PluginRef, row: Row) returns (matched: bool, updated: Row)
      requires p in plugins && SpecReady(SpecOf(p)) && RowReady(row)
      modifies p.Obj()
      ensures unchanged(p.Obj()) && Specs() == old(Specs())
      ensures AmazonMatch.Outcome(matched, updated) == RunViews(SpecOf(p), row)
    {
      if row.splitItems.None? {
        matched, updated := RunOne(p, row);
      } else {
        ghost var spec := SpecOf(p);
        var items := row.splitItems.value;
        matched := false;
        for k := 0 to |items|
          invariant unchanged(p.Obj()) && SpecOf(p) == spec
          invariant |items| == |row.splitItems.value|
          invariant forall j :: 0 <= j < |items| ==> ViewReady(items[j])
          invariant RunItems(spec, row.splitItems.value, 0) ==
            (var r := RunItems(spec, items, k); Sweep(matched || r.matched, r.items))
        {
          var m, u := RunOne(p, items[k]);
          matched := matched || m;
          items := items[k := u];
        }
        updated := row.(splitItems := Some(items));
      }
    }

    /** `plugin.needsUpdate(view)`. */
    method RunOne(p: PluginRef, v: Row) returns (matched: bool, updated: Row)
      requires SpecReady(SpecOf(p)) && ViewReady(v)
      modifies p.Obj()
      ensures unchanged(p.Obj())
      ensures AmazonMatch.Outcome(matched, updated) == RunPlugin(SpecOf(p), v)
    {
      match p
      case AmazonRef(a) =>
        NoEmptyIdsSortsSafely(a.State(), a.parse, v);
        matched, updated := a.NeedsUpdate(v);
      case RulesRef(s) =>
        matched, updated := s.NeedsUpdate(v);
    }
  }

  /** Without empty order ids, every sort the first Amazon revision reaches is safe. */
  lemma NoEmptyIdsSortsSafely(ix: Index, parse: string -> ParsedDate, row: Row)
    requires Valid(ix) && NoEmptyIds(ix)
    ensures AmazonPluginRevision1.SortsSafely(ix, parse, row)
  {
    var ids := AmazonMatch.CandidateIds(ix, row.amount);
    assert "" !in ids;
  }
}
