/**
 * How an Amazon plugin resolves one ledger row against its tables, as specification
 * functions: the guard, the refund path, the price/date bucket path (which may explode a
 * multi-item order into split rows), and the gift-card fallback, with the row updates
 * `createUpdateItem`, `createPurchaseUpdate` and `createRefundUpdate` make. Both plugin
 * revisions are proved to compute `Resolve`.
 */
module AmazonMatch {
  import opened Wrappers
  import opened Seqs
  import opened Text
  import opened Rows
  import opened AmazonRecords
  import opened AmazonIndex

  /** What `needsUpdate` returns (truthy or not) and the row (view) it leaves behind. */
  datatype Outcome = Outcome(matched: bool, row: Row)

  /** `originalPayee.toLowerCase().match(/Amazon|amzn/gi) !== null` */
  predicate MentionsAmazon(originalPayee: string) {
    Contains(Lower(originalPayee), "amazon") || Contains(Lower(originalPayee), "amzn")
  }

  /** The guard of `needsUpdate`: rows with a note, or not from Amazon, are left alone. */
  predicate Guarded(row: Row) {
    Truthy(row.note) || !MentionsAmazon(row.originalPayee)
  }

  /* ---------------------------------------------------------------- row updates */

  /** The note `createUpdateItem` writes: the title, the original price when the item was adjusted, the order link. */
  function ItemNote(title: string, originalPrice: Option<int>, orderId: string): (note: string)
    ensures IsPrefix(title, note)
    ensures |note| >= |title| + 2 + |OrderLink(orderId)| && note[|note| - |OrderLink(orderId)| - 2..] == "\n\n" + OrderLink(orderId)
    ensures originalPrice.None? ==> |note| == |title| + 2 + |OrderLink(orderId)|
    ensures originalPrice.Some? ==> note[|title|..|title| + 17] == "\n\nOriginal price:"
  {
    var price := if originalPrice.Some? then "\n\nOriginal price: " + DollarText(originalPrice.value) else "";
    var link := "\n\n" + OrderLink(orderId);
    var note := title + price + link;
    assert note[..|title|] == title;
    assert note[|note| - |link|..] == link;
    assert originalPrice.Some? ==> note[|title|..|title| + 17] == price[..17] == "\n\nOriginal price:";
    note
  }

  /** The tags `createUpdateItem` adds, in order: 'Amazon', the category, 'Adjustment', 'Split'. */
  function UpdateTags(category: string, adjusted: bool, split: bool): (ts: seq<string>)
    ensures "Amazon" in ts
    ensures forall t :: t in ts <==> t == "Amazon" || (t == category && category != "") || (t == "Adjustment" && adjusted) || (t == "Split" && split)
  {
    ["Amazon"] + (if category != "" then [category] else []) + (if adjusted then ["Adjustment"] else []) + (if split then ["Split"] else [])
  }

  /** The row's `split` flag (`row.sharedPluginData?.split`). */
  predicate IsSplit(row: Row) {
    row.sharedPluginData.Some? && row.sharedPluginData.value.split
  }

  /** The row with `note`, `payee`, `date`, the shared category and `amount` as `createUpdateItem` writes them, tags aside. */
  function UpdatedFields(row: Row, title: string, seller: string, orderDate: string, category: string,
                         originalPrice: Option<int>, orderId: string, itemAmount: int): Row
  {
    row.(note := Some(ItemNote(title, originalPrice, orderId)), payee := Some(seller), date := FormatAmazonDate(orderDate),
         sharedPluginData := if category != "" then Some(row.sharedPluginData.GetOr(EmptySharedPluginData).(amazonCategory := Some(category)))
                             else row.sharedPluginData,
         amount := itemAmount)
  }

  /**
   * `createUpdateItem(row, item, orderId, itemAmount)`: note, 'Amazon' tag, payee, date,
   * the category (kept in the shared data and added as a tag when present), amount,
   * 'Adjustment' for an adjusted item and 'Split' for a split row, in that order.
   */
  function UpdateItem(row: Row, title: string, seller: string, orderDate: string, category: string,
                      originalPrice: Option<int>, orderId: string, itemAmount: int): (r: Row)
    requires row.tags.Some?
    ensures r.tags.Some?
  {
    var r1 := AddTag(row.(note := Some(ItemNote(title, originalPrice, orderId))), "Amazon");
    var r2 := r1.(payee := Some(seller), date := FormatAmazonDate(orderDate));
    var r3 := if category != "" then
        AddTag(r2.(sharedPluginData := Some(r2.sharedPluginData.GetOr(EmptySharedPluginData).(amazonCategory := Some(category)))), category)
      else r2;
    var r4 := r3.(amount := itemAmount);
    var r5 := if originalPrice.Some? then AddTag(r4, "Adjustment") else r4;
    if r5.sharedPluginData.Some? && r5.sharedPluginData.value.split then AddTag(r5, "Split") else r5
  }

  /**
   * What `createUpdateItem` writes: the fields of `UpdatedFields`, and the tags of
   * `UpdateTags` added one by one with `addTag`, so existing tags keep their place, each
   * of them ends up present, and nothing else is added.
   */
  lemma UpdateItemSpec(row: Row, title: string, seller: string, orderDate: string, category: string,
                       originalPrice: Option<int>, orderId: string, itemAmount: int)
    requires row.tags.Some?
    ensures var r := UpdateItem(row, title, seller, orderDate, category, originalPrice, orderId, itemAmount);
      var ts := UpdateTags(category, originalPrice.Some?, IsSplit(row));
      && r == AddTags(UpdatedFields(row, title, seller, orderDate, category, originalPrice, orderId, itemAmount), ts)
      && |r.tags.value| >= |row.tags.value| && r.tags.value[..|row.tags.value|] == row.tags.value
      && (forall t :: t in r.tags.value <==> t in row.tags.value || t in ts)
      && (NoDup(row.tags.value) ==> NoDup(r.tags.value))
  {
    var r := UpdateItem(row, title, seller, orderDate, category, originalPrice, orderId, itemAmount);
    var f := UpdatedFields(row, title, seller, orderDate, category, originalPrice, orderId, itemAmount);
    var ts := UpdateTags(category, originalPrice.Some?, IsSplit(row));
    UpdateItemStages(row, title, seller, orderDate, category, originalPrice, orderId, itemAmount);
    AddTagsEffect(f, ts);
    forall t ensures t in r.tags.value <==> t in row.tags.value || t in ts {
    }
  }

  /** `UpdateItem`, stage by stage, is `addTag` of the tags of `UpdateTags` on the updated fields. */
  lemma UpdateItemStages(row: Row, title: string, seller: string, orderDate: string, category: string,
                         originalPrice: Option<int>, orderId: string, itemAmount: int)
    requires row.tags.Some?
    ensures UpdateItem(row, title, seller, orderDate, category, originalPrice, orderId, itemAmount)
      == AddTags(UpdatedFields(row, title, seller, orderDate, category, originalPrice, orderId, itemAmount),
                 UpdateTags(category, originalPrice.Some?, IsSplit(row)))
  {
    var f := UpdatedFields(row, title, seller, orderDate, category, originalPrice, orderId, itemAmount);
    var a := ["Amazon"];
    var b := a + (if category != "" then [category] else []);
    var c := b + (if originalPrice.Some? then ["Adjustment"] else []);
    var ts := c + (if IsSplit(row) then ["Split"] else []);
    assert ts == UpdateTags(category, originalPrice.Some?, IsSplit(row));
    var r1 := AddTag(row.(note := Some(ItemNote(title, originalPrice, orderId))), "Amazon");
    var r2 := r1.(payee := Some(seller), date := FormatAmazonDate(orderDate));
    var r3 := if category != "" then
        AddTag(r2.(sharedPluginData := Some(r2.sharedPluginData.GetOr(EmptySharedPluginData).(amazonCategory := Some(category)))), category)
      else r2;
    var r4 := r3.(amount := itemAmount);
    var r5 := if originalPrice.Some? then AddTag(r4, "Adjustment") else r4;
    assert AddTags(f, a) == AddTag(f, "Amazon") by {
      assert a[..0] == [];
    }
    assert r4 == AddTags(f, b) by {
      if category != "" {
        assert b[..|b| - 1] == a;
      } else {
        assert b == a;
      }
    }
    assert r5 == AddTags(f, c) by {
      if originalPrice.Some? {
        assert c[..|c| - 1] == b;
      } else {
        assert c == b;
      }
    }
    assert IsSplit(r5) == IsSplit(row);
    if IsSplit(row) {
      assert ts[..|ts| - 1] == c;
    } else {
      assert ts == c;
    }
  }

  /** `createPurchaseUpdate`: the row becomes the purchase of `item`, a debit of its (adjusted) 'Item Total'. */
  function PurchaseUpdate(row: Row, item: Item, orderId: string): Row
    requires row.tags.Some?
  {
    UpdateItem(row, item.title, item.seller, item.orderDate, item.category, item.originalPrice, orderId, -item.itemTotal)
  }

  /** `createRefundUpdate`: the row keeps its amount, describes the refund and gets the 'Refund' tag. */
  function RefundUpdate(row: Row, refund: Refund, refundId: string): Row
    requires row.tags.Some?
  {
    AddTag(UpdateItem(row, refund.title, refund.seller, refund.orderDate, refund.category, None, refundId, row.amount), "Refund")
  }

  /** The split rows: one purchase update of a copy of `copy` per item, in item order. */
  function SplitRows(copy: Row, items: seq<Item>, orderId: string): (rs: seq<Row>)
    requires copy.tags.Some?
    ensures |rs| == |items|
  {
    seq(|items|, k requires 0 <= k < |items| => PurchaseUpdate(copy, items[k], orderId))
  }

  /** The row as the price/date path leaves it before matching: shared data present, with the parsed row date. */
  function WithParsedDate(row: Row, date: ParsedDate): (r: Row)
    ensures r.sharedPluginData.Some? && r.sharedPluginData.value.parsedDate == Some(date)
    ensures r == row.(sharedPluginData := r.sharedPluginData)
  {
    row.(sharedPluginData := Some(row.sharedPluginData.GetOr(EmptySharedPluginData).(parsedDate := Some(date))))
  }

  /** The row marked as split, with one split row per item of the order. */
  function SplitOrder(row: Row, items: seq<Item>, orderId: string): Row
    requires row.tags.Some? && row.sharedPluginData.Some?
  {
    var marked := row.(sharedPluginData := Some(row.sharedPluginData.value.(split := true)));
    marked.(splitItems := Some(SplitRows(marked, items, orderId)))
  }

  /* ---------------------------------------------------------------- matching */

  /** Every id of `ids` is an order with items. */
  predicate HasItems(ix: Index, ids: seq<string>) {
    forall id :: id in ids ==> id in ix.amazonItems && |ix.amazonItems[id]| > 0
  }

  /** The order `id` was placed within the window of `date`, by the date of its first item. */
  predicate NearOrder(ix: Index, id: string, date: ParsedDate)
    requires id in ix.amazonItems && |ix.amazonItems[id]| > 0
  {
    NearbyDate(ix.amazonItems[id][0].date, date)
  }

  /** `getPossibleMatches`: the ids of `ids` placed near `date`, in order. */
  function PossibleMatches(ix: Index, ids: seq<string>, date: ParsedDate): (r: seq<string>)
    requires HasItems(ix, ids)
    ensures forall id :: id in r <==> id in ids && NearOrder(ix, id, date)
    decreases |ids|
  {
    if ids == [] then []
    else
      var last := ids[|ids| - 1];
      PossibleMatches(ix, ids[..|ids| - 1], date) + (if NearOrder(ix, last, date) then [last] else [])
  }

  /** The first candidate is the first id of `ids` placed near `date`. */
  lemma {:induction false} PossibleMatchesFirst(ix: Index, ids: seq<string>, date: ParsedDate)
    requires HasItems(ix, ids)
    ensures |PossibleMatches(ix, ids, date)| > 0 ==>
      exists i :: 0 <= i < |ids| && ids[i] == PossibleMatches(ix, ids, date)[0] && NearOrder(ix, ids[i], date)
        && forall j :: 0 <= j < i ==> !NearOrder(ix, ids[j], date)
    decreases |ids|
  {
    if ids != [] {
      var n := |ids| - 1;
      var init := ids[..n];
      var last := ids[n];
      var before := PossibleMatches(ix, init, date);
      PossibleMatchesFirst(ix, init, date);
      if |before| > 0 {
        var i :| 0 <= i < |init| && init[i] == before[0] && NearOrder(ix, init[i], date)
          && forall j :: 0 <= j < i ==> !NearOrder(ix, init[j], date);
        assert ids[i] == init[i];
        assert PossibleMatches(ix, ids, date)[0] == before[0];
        forall j | 0 <= j < i ensures !NearOrder(ix, ids[j], date) {
          assert ids[j] == init[j];
        }
        assert 0 <= i < |ids| && ids[i] == PossibleMatches(ix, ids, date)[0] && NearOrder(ix, ids[i], date);
      } else if NearOrder(ix, last, date) {
        forall j | 0 <= j < n ensures !NearOrder(ix, ids[j], date) {
          assert ids[j] == init[j];
          assert ids[j] in init;
        }
        assert PossibleMatches(ix, ids, date)[0] == last;
        assert 0 <= n < |ids| && ids[n] == PossibleMatches(ix, ids, date)[0] && NearOrder(ix, ids[n], date);
      } else {
        assert PossibleMatches(ix, ids, date) == before;
      }
    }
  }

  /** The candidates `findBestMatch` filters: the orders in the bucket of the row's amount, without sign. */
  function CandidateIds(ix: Index, amount: int): seq<string> {
    Bucket(ix.amazonOrders, if amount < 0 then -amount else amount)
  }

  /**
   * `findBestMatch` (both revisions): the first order in the bucket of |amount| placed
   * within the window of the row's parsed date; `None` when the row has no parsed date or
   * no candidate is near.
   */
  function FindBestMatch(ix: Index, row: Row): Option<string>
    requires Valid(ix)
  {
    if row.sharedPluginData.None? || row.sharedPluginData.value.parsedDate.None? then None
    else
      var candidates := PossibleMatches(ix, CandidateIds(ix, row.amount), row.sharedPluginData.value.parsedDate.value);
      if |candidates| == 0 then None else Some(candidates[0])
  }

  /** `findBestMatch` finds an order exactly when one in the bucket is near, and then it finds the first such. */
  lemma FindBestMatchSpec(ix: Index, row: Row)
    requires Valid(ix)
    requires row.sharedPluginData.Some? && row.sharedPluginData.value.parsedDate.Some?
    ensures var ids := CandidateIds(ix, row.amount);
      var date := row.sharedPluginData.value.parsedDate.value;
      && HasItems(ix, ids)
      && (FindBestMatch(ix, row).None? <==> forall id :: id in ids ==> !NearOrder(ix, id, date))
      && (FindBestMatch(ix, row).Some? ==>
            exists i :: 0 <= i < |ids| && ids[i] == FindBestMatch(ix, row).value && NearOrder(ix, ids[i], date)
              && forall j :: 0 <= j < i ==> !NearOrder(ix, ids[j], date))
  {
    var ids := CandidateIds(ix, row.amount);
    var date := row.sharedPluginData.value.parsedDate.value;
    PossibleMatchesFirst(ix, ids, date);
    if FindBestMatch(ix, row).Some? {
      assert PossibleMatches(ix, ids, date)[0] in PossibleMatches(ix, ids, date);
    }
  }

  /** `findPossibleGiftCards`: the gift-card orders placed near `date`, in key order. */
  function NearbyGiftCards(gifts: seq<GiftCard>, date: ParsedDate): (ids: seq<string>)
    ensures forall id :: id in ids <==> exists k :: 0 <= k < |gifts| && gifts[k].orderId == id && NearbyDate(date, gifts[k].date)
    decreases |gifts|
  {
    if gifts == [] then []
    else
      var last := gifts[|gifts| - 1];
      var init := gifts[..|gifts| - 1];
      assert forall k :: 0 <= k < |init| ==> init[k] == gifts[k];
      NearbyGiftCards(init, date) + (if NearbyDate(date, last.date) then [last.orderId] else [])
  }

  const GiftCardHeader := "This purchase may involve an Amazon gift card.\n\nPossible orders:\n"

  /** One line of the gift-card note per order. */
  function GiftCardLines(ids: seq<string>): (lines: seq<string>)
    ensures |lines| == |ids|
  {
    seq(|ids|, k requires 0 <= k < |ids| => "• " + OrderLink(ids[k]))
  }

  /** The gift-card note: the header, then the order lines joined by newlines. */
  function GiftCardNote(ids: seq<string>): string {
    GiftCardHeader + Join(GiftCardLines(ids), "\n")
  }

  /** The gift-card note holds, after its header, exactly one "• " line per order, when order ids have no line breaks. */
  lemma GiftCardNoteLines(ids: seq<string>)
    requires |ids| > 0
    requires forall id :: id in ids ==> '\n' !in id
    ensures IsPrefix(GiftCardHeader, GiftCardNote(ids))
    ensures Split(GiftCardNote(ids)[|GiftCardHeader|..], '\n') == GiftCardLines(ids)
  {
    var lines := GiftCardLines(ids);
    assert GiftCardNote(ids)[|GiftCardHeader|..] == Join(lines, "\n");
    forall k | 0 <= k < |lines| ensures '\n' !in lines[k] {
      assert ids[k] in ids;
      OrderLinkOneLine(ids[k]);
      assert OneLine("• ");
      OneLineConcat("• ", OrderLink(ids[k]));
      assert OneLine(lines[k]);
    }
    SplitJoin(lines, '\n');
  }

  /* ---------------------------------------------------------------- resolving one row */

  /**
   * `needsUpdate(row)`: what the plugin returns for one view and the view it leaves behind.
   * `parse` is date-fns `parse`.
   */
  function Resolve(ix: Index, parse: string -> ParsedDate, row: Row): Outcome
    requires Valid(ix) && row.tags.Some?
  {
    if Guarded(row) then Outcome(false, row)
    else if row.amount > 0 && row.amount in ix.refundPrices then
      var id := ix.refundPrices[row.amount][0];
      Outcome(true, RefundUpdate(row, ix.amazonRefunds[id], id))
    else
      var dated := WithParsedDate(row, parse(row.date));
      var m := FindBestMatch(ix, dated);
      if m.Some? && m.value != "" then
        FindBestMatchSpec(ix, dated);
        var items := ix.amazonItems[m.value];
        if |items| > 1 then Outcome(true, SplitOrder(dated, items, m.value))
        else Outcome(true, PurchaseUpdate(dated, items[0], m.value))
      else if Contains(row.originalPayee, "PURCHASE AUTHORIZED") && |NearbyGiftCards(ix.giftCardOrders, parse(row.date))| > 0 then
        Outcome(true, AddTag(dated.(note := Some(GiftCardNote(NearbyGiftCards(ix.giftCardOrders, parse(row.date))))), "PossibleGiftCard"))
      else Outcome(false, dated)
  }

  /* ---------------------------------------------------------------- what resolving does */

  /** A row with a note, or whose original payee mentions neither "amazon" nor "amzn" in any case, is neither matched nor changed. */
  lemma ResolveGuard(ix: Index, parse: string -> ParsedDate, row: Row)
    requires Valid(ix) && row.tags.Some?
    requires Guarded(row)
    ensures Resolve(ix, parse, row) == Outcome(false, row)
  {
  }

  /**
   * The refund path: a positive amount that keys a refund bucket resolves to the first id
   * of the bucket. The row keeps its amount, takes the stored refund's seller and title,
   * and is tagged 'Amazon' and 'Refund'.
   */
  lemma ResolveRefund(ix: Index, parse: string -> ParsedDate, row: Row)
    requires Valid(ix) && row.tags.Some?
    requires !Guarded(row) && row.amount > 0 && row.amount in ix.refundPrices
    ensures var id := ix.refundPrices[row.amount][0];
      var r := Resolve(ix, parse, row);
      && id in ix.amazonRefunds
      && r.matched
      && r.row.amount == row.amount
      && r.row.payee == Some(ix.amazonRefunds[id].seller)
      && r.row.note == Some(ItemNote(ix.amazonRefunds[id].title, None, id))
      && r.row.date == FormatAmazonDate(ix.amazonRefunds[id].orderDate)
      && r.row.tags.Some? && "Amazon" in r.row.tags.value && "Refund" in r.row.tags.value
  {
    var id := ix.refundPrices[row.amount][0];
    assert id in ix.refundPrices[row.amount];
    var refund := ix.amazonRefunds[id];
    UpdateItemSpec(row, refund.title, refund.seller, refund.orderDate, refund.category, None, id, row.amount);
    var u := UpdateItem(row, refund.title, refund.seller, refund.orderDate, refund.category, None, id, row.amount);
    assert "Amazon" in UpdateTags(refund.category, false, IsSplit(row));
    assert "Amazon" in u.tags.value;
  }

  /** The order `findBestMatch` settles on for a row that passed the guard and the refund path, if any. */
  function MatchedOrder(ix: Index, parse: string -> ParsedDate, row: Row): Option<string>
    requires Valid(ix)
  {
    var m := FindBestMatch(ix, WithParsedDate(row, parse(row.date)));
    if m.Some? && m.value != "" then m else None
  }

  /** A matched order id has items (the bucketed ids are orders with items). */
  lemma MatchedOrderHasItems(ix: Index, parse: string -> ParsedDate, row: Row)
    requires Valid(ix)
    requires MatchedOrder(ix, parse, row).Some?
    ensures MatchedOrder(ix, parse, row).value in ix.amazonItems && |ix.amazonItems[MatchedOrder(ix, parse, row).value]| > 0
  {
    FindBestMatchSpec(ix, WithParsedDate(row, parse(row.date)));
  }

  /** What `createUpdateItem` leaves in the fields the matcher's lemmas read: amount, payee, note, split rows and the 'Amazon' and 'Split' tags. */
  lemma UpdateItemFields(row: Row, title: string, seller: string, orderDate: string, category: string,
                         originalPrice: Option<int>, orderId: string, itemAmount: int)
    requires row.tags.Some?
    ensures var r := UpdateItem(row, title, seller, orderDate, category, originalPrice, orderId, itemAmount);
      && r.amount == itemAmount && r.payee == Some(seller) && r.note == Some(ItemNote(title, originalPrice, orderId))
      && r.splitItems == row.splitItems
      && "Amazon" in r.tags.value
      && (IsSplit(row) ==> "Split" in r.tags.value)
      && ("Split" in r.tags.value ==> "Split" in row.tags.value || category == "Split" || IsSplit(row))
  {
    UpdateItemSpec(row, title, seller, orderDate, category, originalPrice, orderId, itemAmount);
    var f := UpdatedFields(row, title, seller, orderDate, category, originalPrice, orderId, itemAmount);
    AddTagsEffect(f, UpdateTags(category, originalPrice.Some?, IsSplit(row)));
  }

  /**
   * `createPurchaseUpdate`: the row becomes a debit of the item's price, with its seller
   * and title, tagged 'Amazon'; it gets 'Split' only when it was split, already had the
   * tag, or the item's category is 'Split'.
   */
  lemma PurchaseUpdateSpec(row: Row, item: Item, id: string)
    requires row.tags.Some?
    ensures var r := PurchaseUpdate(row, item, id);
      && r.amount == -item.itemTotal
      && r.payee == Some(item.seller)
      && r.note == Some(ItemNote(item.title, item.originalPrice, id))
      && r.splitItems == row.splitItems
      && r.tags.Some? && "Amazon" in r.tags.value
      && (IsSplit(row) ==> "Split" in r.tags.value)
      && ("Split" in r.tags.value ==> "Split" in row.tags.value || item.category == "Split" || IsSplit(row))
  {
    UpdateItemFields(row, item.title, item.seller, item.orderDate, item.category, item.originalPrice, id, -item.itemTotal);
  }

  /**
   * `splitOrder`: the row is marked split and keeps its note and amount; it gets one split
   * row per item, in item order, each a debit of that item's price with its seller and
   * title and the tags 'Amazon' and 'Split'.
   */
  lemma SplitOrderSpec(row: Row, items: seq<Item>, id: string)
    requires row.tags.Some? && row.sharedPluginData.Some?
    ensures var r := SplitOrder(row, items, id);
      && r.note == row.note && r.amount == row.amount && IsSplit(r)
      && r.splitItems.Some? && |r.splitItems.value| == |items|
      && forall k :: 0 <= k < |items| ==>
           var v := r.splitItems.value[k];
           && v.amount == -items[k].itemTotal
           && v.payee == Some(items[k].seller)
           && v.note == Some(ItemNote(items[k].title, items[k].originalPrice, id))
           && v.tags.Some? && "Amazon" in v.tags.value && "Split" in v.tags.value
  {
    var marked := row.(sharedPluginData := Some(row.sharedPluginData.value.(split := true)));
    forall k | 0 <= k < |items|
      ensures var v := PurchaseUpdate(marked, items[k], id);
        && v.amount == -items[k].itemTotal
        && v.payee == Some(items[k].seller)
        && v.note == Some(ItemNote(items[k].title, items[k].originalPrice, id))
        && v.tags.Some? && "Amazon" in v.tags.value && "Split" in v.tags.value
    {
      PurchaseUpdateSpec(marked, items[k], id);
    }
  }

  /** A row that reaches a matched order is split when the order has several items, and updated itself when it has one. */
  lemma ResolveMatched(ix: Index, parse: string -> ParsedDate, row: Row)
    requires Valid(ix) && row.tags.Some?
    requires !Guarded(row) && !(row.amount > 0 && row.amount in ix.refundPrices)
    requires MatchedOrder(ix, parse, row).Some?
    ensures var id := MatchedOrder(ix, parse, row).value;
      var dated := WithParsedDate(row, parse(row.date));
      && id in ix.amazonItems && |ix.amazonItems[id]| > 0
      && Resolve(ix, parse, row) == Outcome(true,
           if |ix.amazonItems[id]| > 1 then SplitOrder(dated, ix.amazonItems[id], id)
           else PurchaseUpdate(dated, ix.amazonItems[id][0], id))
  {
    MatchedOrderHasItems(ix, parse, row);
  }

  /**
   * A multi-item order explodes the row: the row is marked split and keeps its note, and
   * gets one split row per item, in item order, each a debit of that item's price with its
   * seller and title and the tags 'Amazon' and 'Split'.
   */
  lemma ResolveSplitOrder(ix: Index, parse: string -> ParsedDate, row: Row)
    requires Valid(ix) && row.tags.Some?
    requires !Guarded(row) && !(row.amount > 0 && row.amount in ix.refundPrices)
    requires MatchedOrder(ix, parse, row).Some?
    requires |ix.amazonItems[MatchedOrder(ix, parse, row).value]| > 1
    ensures var id := MatchedOrder(ix, parse, row).value;
      var items := ix.amazonItems[id];
      var r := Resolve(ix, parse, row);
      && r.matched
      && r.row.note == row.note && r.row.amount == row.amount && IsSplit(r.row)
      && r.row.splitItems.Some? && |r.row.splitItems.value| == |items|
      && forall k :: 0 <= k < |items| ==>
           var v := r.row.splitItems.value[k];
           && v.amount == -items[k].itemTotal
           && v.payee == Some(items[k].seller)
           && v.note == Some(ItemNote(items[k].title, items[k].originalPrice, id))
           && v.tags.Some? && "Amazon" in v.tags.value && "Split" in v.tags.value
  {
    ResolveMatched(ix, parse, row);
    var id := MatchedOrder(ix, parse, row).value;
    SplitOrderSpec(WithParsedDate(row, parse(row.date)), ix.amazonItems[id], id);
  }

  /**
   * A single-item order updates the row itself: a debit of the item's price, with its
   * seller and title, tagged 'Amazon'; a row not already split gets no 'Split' tag from it.
   */
  lemma ResolveSingleItemOrder(ix: Index, parse: string -> ParsedDate, row: Row)
    requires Valid(ix) && row.tags.Some?
    requires !Guarded(row) && !(row.amount > 0 && row.amount in ix.refundPrices)
    requires MatchedOrder(ix, parse, row).Some?
    requires |ix.amazonItems[MatchedOrder(ix, parse, row).value]| == 1
    ensures var id := MatchedOrder(ix, parse, row).value;
      var item := ix.amazonItems[id][0];
      var r := Resolve(ix, parse, row);
      && r.matched
      && r.row.amount == -item.itemTotal
      && r.row.payee == Some(item.seller)
      && r.row.note == Some(ItemNote(item.title, item.originalPrice, id))
      && r.row.splitItems == row.splitItems
      && r.row.tags.Some? && "Amazon" in r.row.tags.value
      && (!IsSplit(row) && "Split" !in row.tags.value && item.category != "Split" ==> "Split" !in r.row.tags.value)
  {
    ResolveMatched(ix, parse, row);
    var id := MatchedOrder(ix, parse, row).value;
    PurchaseUpdateSpec(WithParsedDate(row, parse(row.date)), ix.amazonItems[id][0], id);
  }

  /**
   * The gift-card fallback, when no order matched: it fires exactly for 'PURCHASE
   * AUTHORIZED' payees with a gift-card order near the row's date, writes the note listing
   * those orders and adds 'PossibleGiftCard'. Otherwise nothing is matched and the row only
   * carries its parsed date.
   */
  lemma ResolveGiftCard(ix: Index, parse: string -> ParsedDate, row: Row)
    requires Valid(ix) && row.tags.Some?
    requires !Guarded(row) && !(row.amount > 0 && row.amount in ix.refundPrices)
    requires MatchedOrder(ix, parse, row).None?
    ensures var ids := NearbyGiftCards(ix.giftCardOrders, parse(row.date));
      var r := Resolve(ix, parse, row);
      && (r.matched <==> Contains(row.originalPayee, "PURCHASE AUTHORIZED") && |ids| > 0)
      && (r.matched ==> r.row.note == Some(GiftCardNote(ids)) && "PossibleGiftCard" in r.row.tags.value
                        && r.row == WithParsedDate(row, parse(row.date)).(note := r.row.note, tags := r.row.tags))
      && (!r.matched ==> r.row == WithParsedDate(row, parse(row.date)))
  {
  }

  /** Whatever the outcome, an unmatched row differs from the input at most in its shared data. */
  lemma ResolveUnmatchedKeepsRow(ix: Index, parse: string -> ParsedDate, row: Row)
    requires Valid(ix) && row.tags.Some?
    requires !Resolve(ix, parse, row).matched
    ensures Resolve(ix, parse, row).row == row.(sharedPluginData := Resolve(ix, parse, row).row.sharedPluginData)
  {
  }

  /** A row carrying a note is settled: resolving it matches nothing and changes nothing. */
  lemma NotedRowIsSettled(ix: Index, parse: string -> ParsedDate, v: Row)
    requires Valid(ix) && v.tags.Some? && Truthy(v.note)
    ensures Resolve(ix, parse, v) == Outcome(false, v)
  {
  }

  /** What `createUpdateItem` leaves is settled, and keeps the row's split flag. */
  lemma UpdateItemSettled(ix: Index, parse: string -> ParsedDate, row: Row, title: string, seller: string, orderDate: string,
                          category: string, originalPrice: Option<int>, orderId: string, itemAmount: int)
    requires Valid(ix) && row.tags.Some?
    ensures var v := UpdateItem(row, title, seller, orderDate, category, originalPrice, orderId, itemAmount);
      v.tags.Some? && IsSplit(v) == IsSplit(row) && Truthy(v.note)
  {
    var f := UpdatedFields(row, title, seller, orderDate, category, originalPrice, orderId, itemAmount);
    var ts := UpdateTags(category, originalPrice.Some?, IsSplit(row));
    UpdateItemSpec(row, title, seller, orderDate, category, originalPrice, orderId, itemAmount);
    AddTagsEffect(f, ts);
    assert |ItemNote(title, originalPrice, orderId)| > 0;
  }

  /**
   * Resolving is idempotent: once a row is resolved, resolving what it became (the row
   * itself, or each of its split rows) matches nothing and changes nothing, because
   * every resolved view carries a note. The row starts unsplit, as every row does when
   * the engine hands it to the plugin with fresh shared data.
   */
  lemma ResolveIdempotent(ix: Index, parse: string -> ParsedDate, row: Row)
    requires Valid(ix) && row.tags.Some?
    requires !IsSplit(row) && Resolve(ix, parse, row).matched
    ensures var r := Resolve(ix, parse, row).row;
      r.tags.Some? &&
      if IsSplit(r) then
        && r.splitItems.Some?
        && forall k :: 0 <= k < |r.splitItems.value| ==>
             r.splitItems.value[k].tags.Some? && Resolve(ix, parse, r.splitItems.value[k]) == Outcome(false, r.splitItems.value[k])
      else Resolve(ix, parse, r) == Outcome(false, r)
  {
    var r := Resolve(ix, parse, row).row;
    if row.amount > 0 && row.amount in ix.refundPrices {
      var id := ix.refundPrices[row.amount][0];
      assert id in ix.refundPrices[row.amount];
      var refund := ix.amazonRefunds[id];
      UpdateItemSettled(ix, parse, row, refund.title, refund.seller, refund.orderDate, refund.category, None, id, row.amount);
      NotedRowIsSettled(ix, parse, r);
    } else if MatchedOrder(ix, parse, row).Some? {
      var id := MatchedOrder(ix, parse, row).value;
      MatchedOrderHasItems(ix, parse, row);
      var items := ix.amazonItems[id];
      var dated := WithParsedDate(row, parse(row.date));
      if |items| > 1 {
        var marked := dated.(sharedPluginData := Some(dated.sharedPluginData.value.(split := true)));
        forall k | 0 <= k < |items|
          ensures var v := PurchaseUpdate(marked, items[k], id);
            v.tags.Some? && Resolve(ix, parse, v) == Outcome(false, v)
        {
          var x := items[k];
          UpdateItemSettled(ix, parse, marked, x.title, x.seller, x.orderDate, x.category, x.originalPrice, id, -x.itemTotal);
          NotedRowIsSettled(ix, parse, PurchaseUpdate(marked, x, id));
        }
      } else {
        var x := items[0];
        UpdateItemSettled(ix, parse, dated, x.title, x.seller, x.orderDate, x.category, x.originalPrice, id, -x.itemTotal);
        NotedRowIsSettled(ix, parse, r);
      }
    } else {
      assert |GiftCardNote(NearbyGiftCards(ix.giftCardOrders, parse(row.date)))| > 0;
      NotedRowIsSettled(ix, parse, r);
    }
  }
}
