/**
 * The later revision of the Amazon matcher (the class in the `amazon.plugin` directory).
 * Its six tables are fields that `LoadAmazonOrders` rebuilds or extends, one loop per
 * `reduce` of the source, each loop proved to compute the fold of `AmazonIndex`; its
 * `NeedsUpdate` leaves the tables alone and is proved to compute `AmazonMatch.Resolve`.
 */
module AmazonPluginRevision2 {
  import opened Wrappers
  import opened Text
  import opened Rows
  import opened AmazonRecords
  import opened AmazonIndex
  import AmazonMatch

  class AmazonPlugin {
    const name: string
    /** date-fns `parse`, a library call. */
    const parse: string -> ParsedDate

    var amazonItems: map<string, seq<Item>>
    var orderTotals: map<string, OrderTotal>
    var giftCardOrders: seq<GiftCard>
    var amazonOrders: map<int, seq<string>>
    var amazonRefunds: map<string, Refund>
    var refundPrices: map<int, seq<string>>

    function State(): Index
      reads this
    {
      Index(amazonItems, orderTotals, giftCardOrders, amazonOrders, amazonRefunds, refundPrices)
    }

    /** A new plugin: named 'Amazon', every table empty. */
    constructor (parse: string -> ParsedDate)
      ensures name == "Amazon" && this.parse == parse
      ensures State() == Index(map[], map[], [], map[], map[], map[])
    {
      name := "Amazon";
      this.parse := parse;
      amazonItems := map[];
      orderTotals := map[];
      giftCardOrders := [];
      amazonOrders := map[];
      amazonRefunds := map[];
      refundPrices := map[];
    }

    /**
     * `loadAmazonOrders`, with the three exports passed in. It fails (the source throws)
     * when an order has no item rows; otherwise the tables are those `AmazonIndex.Load`
     * describes, so `AmazonIndex.LoadValid` and the balancing lemmas apply to them.
     */
    method LoadAmazonOrders(rawOrders: seq<RawOrder>, rawItems: seq<RawItem>, rawRefunds: seq<RawRefund>) returns (ok: bool)
      modifies this
      ensures var r := Load(old(State()), rawOrders, rawItems, rawRefunds, parse);
        ok == r.Some? && (ok ==> State() == r.value)
    {
      ghost var st := State();
      LoadStages(st, rawOrders, rawItems, rawRefunds, parse);
      LoadItems(rawItems);
      var groups, ids := GroupOrders(rawOrders);
      ok := BucketOrders(groups, ids);
      if ok {
        LoadRefunds(rawRefunds);
      }
    }

    /** The first `reduce`: `amazonItems` rebuilt from the item rows. */
    method LoadItems(rawItems: seq<RawItem>)
      modifies this`amazonItems
      ensures amazonItems == ItemsByOrder(rawItems, parse)
    {
      var items: map<string, seq<Item>> := map[];
      for i := 0 to |rawItems|
        invariant items == ItemsByOrder(rawItems[..i], parse)
      {
        items := Push(items, rawItems[i].orderId, ToItem(rawItems[i], parse));
        assert rawItems[..i + 1][..i] == rawItems[..i];
      }
      assert rawItems[..|rawItems|] == rawItems;
      amazonItems := items;
    }

    /**
     * The second `reduce`: the charge rows grouped by order id (with the ids in insertion
     * order), and the first date of every order paid with a gift card added to `giftCardOrders`.
     */
    method GroupOrders(rawOrders: seq<RawOrder>) returns (groups: map<string, seq<RawOrder>>, ids: seq<string>)
      modifies this`giftCardOrders
      ensures groups == OrderGroups(rawOrders) && ids == OrderIds(rawOrders)
      ensures giftCardOrders == GiftCardsAfter(old(giftCardOrders), rawOrders, parse)
    {
      groups := map[];
      ids := [];
      for i := 0 to |rawOrders|
        invariant groups == OrderGroups(rawOrders[..i]) && ids == OrderIds(rawOrders[..i])
        invariant giftCardOrders == GiftCardsAfter(old(giftCardOrders), rawOrders[..i], parse)
      {
        var o := rawOrders[i];
        OrderIdsSpec(rawOrders[..i]);
        assert rawOrders[..i + 1][..i] == rawOrders[..i];
        if o.orderId !in groups {
          ids := ids + [o.orderId];
        }
        groups := Push(groups, o.orderId, o);
        if PaidWithGiftCard(o) && !HasGiftCard(giftCardOrders, o.orderId) {
          giftCardOrders := giftCardOrders + [GiftCard(o.orderId, parse(o.orderDate))];
        }
      }
      assert rawOrders[..|rawOrders|] == rawOrders;
    }

    /**
     * The third `reduce`: for each order id, its totals are recorded, a nonzero difference
     * is spread over its items, and the id is pushed into the bucket of its charged total.
     * An order without items fails it.
     */
    method BucketOrders(groups: map<string, seq<RawOrder>>, ids: seq<string>) returns (ok: bool)
      requires NonEmptyGroups(amazonItems)
      requires forall id :: id in ids ==> id in groups
      modifies this`amazonItems, this`orderTotals, this`amazonOrders
      ensures var r := OrderBuckets(old(amazonItems), old(orderTotals), groups, ids);
        ok == r.Some? && (ok ==> Buckets(amazonItems, orderTotals, amazonOrders) == r.value)
    {
      ghost var items := amazonItems;
      var orders: map<int, seq<string>> := map[];
      for j := 0 to |ids|
        invariant OrderBuckets(items, old(orderTotals), groups, ids[..j]) == Some(Buckets(amazonItems, orderTotals, orders))
      {
        var id := ids[j];
        assert ids[..j + 1][..j] == ids[..j];
        assert ids[..j + 1][j] == id;
        if id !in amazonItems {
          OrderBucketsFail(items, old(orderTotals), groups, ids);
          return false;
        }
        var charged := GetOrderTotal(groups[id]);
        orders := BucketOrder(id, charged, orders);
      }
      assert ids[..|ids|] == ids;
      amazonOrders := orders;
      ok := true;
    }

    /** One order of the orders `reduce`: record its totals, spread a difference over its items, push its id into its bucket. */
    method BucketOrder(id: string, charged: int, orders: map<int, seq<string>>) returns (pushed: map<int, seq<string>>)
      requires NonEmptyGroups(amazonItems) && id in amazonItems
      modifies this`amazonItems, this`orderTotals
      ensures OrderStep(Buckets(old(amazonItems), old(orderTotals), orders), charged, id) == Some(Buckets(amazonItems, orderTotals, pushed))
    {
      var itemsTotal := GetItemsTotal(amazonItems[id]);
      orderTotals := orderTotals[id := OrderTotal(itemsTotal, charged, charged - itemsTotal)];
      if charged - itemsTotal != 0 {
        SpreadOrderDiff(id);
      }
      pushed := Push(orders, charged, id);
    }

    /** The last `reduce`: `amazonRefunds` rebuilt, each refund id pushed into `refundPrices` under refund plus tax. */
    method LoadRefunds(rawRefunds: seq<RawRefund>)
      modifies this`amazonRefunds, this`refundPrices
      ensures RefundTables(amazonRefunds, refundPrices) == RefundsAfter(RefundTables(map[], old(refundPrices)), rawRefunds, parse)
    {
      var refunds: map<string, Refund> := map[];
      for i := 0 to |rawRefunds|
        invariant RefundTables(refunds, refundPrices) == RefundsAfter(RefundTables(map[], old(refundPrices)), rawRefunds[..i], parse)
      {
        var r := rawRefunds[i];
        assert rawRefunds[..i + 1][..i] == rawRefunds[..i];
        refunds := refunds[r.orderId := ToRefund(r, parse)];
        refundPrices := Push(refundPrices, RefundKey(r), r.orderId);
      }
      assert rawRefunds[..|rawRefunds|] == rawRefunds;
      amazonRefunds := refunds;
    }

    /** `getItemsTotal`: the sum of the items' `total`s, in cents. */
    method GetItemsTotal(items: seq<Item>) returns (total: int)
      ensures total == SumTotals(items)
    {
      total := 0;
      for k := 0 to |items|
        invariant total == SumTotals(items[..k])
      {
        assert items[..k + 1][..k] == items[..k];
        total := total + items[k].total;
      }
      assert items[..|items|] == items;
    }

    /** `getOrderTotal`: the sum charged over an order's charge rows, in cents. */
    method GetOrderTotal(orders: seq<RawOrder>) returns (total: int)
      ensures total == Charged(orders)
    {
      total := 0;
      for k := 0 to |orders|
        invariant total == Charged(orders[..k])
      {
        assert orders[..k + 1][..k] == orders[..k];
        total := total + orders[k].totalCharged;
      }
      assert orders[..|orders|] == orders;
    }

    /**
     * `spreadOrderDiff`: spreads the order's `diffInCents` over its items, the JavaScript
     * remainder on the first one; each item remembers its old price. Nothing else changes.
     */
    method SpreadOrderDiff(orderId: string)
      requires orderId in amazonItems && |amazonItems[orderId]| > 0 && orderId in orderTotals
      modifies this`amazonItems
      ensures amazonItems == old(amazonItems)[orderId := Spread(old(amazonItems[orderId]), orderTotals[orderId].diffInCents)]
    {
      var n := |amazonItems[orderId]|;
      var diff := orderTotals[orderId].diffInCents;
      var remainderInCents := JsRem(diff, n);
      var spreadInCents := (diff - remainderInCents) / n;
      ghost var before := amazonItems[orderId];
      for index := 0 to n
        invariant orderId in amazonItems && |amazonItems[orderId]| == n
        invariant amazonItems == old(amazonItems)[orderId := amazonItems[orderId]]
        invariant forall k :: 0 <= k < index ==> amazonItems[orderId][k] == Spread(before, diff)[k]
        invariant forall k :: index <= k < n ==> amazonItems[orderId][k] == before[k]
      {
        var item := amazonItems[orderId][index];
        var updateAmountInCents := spreadInCents + (if index == 0 then remainderInCents else 0);
        var updated := item.(originalPrice := Some(item.itemTotal), itemTotal := updateAmountInCents + item.itemTotal);
        amazonItems := amazonItems[orderId := amazonItems[orderId][index := updated]];
      }
      assert amazonItems[orderId] == Spread(before, diff);
    }

    /**
     * `needsUpdate`: resolves one row (the guard, the refund path, the price and date
     * bucket, the gift-card fallback) without touching the tables; the outcome is the one
     * `AmazonMatch.Resolve` specifies.
     */
    method NeedsUpdate(row: Row) returns (matched: bool, updated: Row)
      requires AmazonIndex.Valid(State()) && row.tags.Some?
      ensures AmazonMatch.Outcome(matched, updated) == AmazonMatch.Resolve(State(), parse, row)
    {
      if Truthy(row.note) || !AmazonMatch.MentionsAmazon(row.originalPayee) {
        return false, row;
      }

      if row.amount > 0 && row.amount in refundPrices {
        var id := refundPrices[row.amount][0];
        assert id in refundPrices[row.amount];
        return true, AmazonMatch.RefundUpdate(row, amazonRefunds[id], id);
      }

      updated := AmazonMatch.WithParsedDate(row, parse(row.date));
      var orderId := FindBestMatch(updated);

      if orderId.Some? && orderId.value != "" {
        var id := orderId.value;
        AmazonMatch.FindBestMatchSpec(State(), updated);
        var items := amazonItems[id];
        if |items| > 1 {
          updated := SplitOrder(updated, items, id);
        } else {
          updated := AmazonMatch.PurchaseUpdate(updated, items[0], id);
        }
        return true, updated;
      }

      if Contains(row.originalPayee, "PURCHASE AUTHORIZED") {
        var possibleGiftCards := FindPossibleGiftCards(updated);
        if |possibleGiftCards| > 0 {
          updated := AddTag(updated.(note := Some(AmazonMatch.GiftCardNote(possibleGiftCards))), "PossibleGiftCard");
          return true, updated;
        }
      }
      matched := false;
    }

    /**
     * The split branch of `needsUpdate`: the row is marked split, copied, and each item of
     * the order updates its own copy of it, in item order.
     */
    method SplitOrder(row: Row, items: seq<Item>, orderId: string) returns (updated: Row)
      requires row.tags.Some? && row.sharedPluginData.Some?
      ensures updated == AmazonMatch.SplitOrder(row, items, orderId)
    {
      updated := row.(sharedPluginData := Some(row.sharedPluginData.value.(split := true)));
      var rowCopy := updated;
      var splitItems: seq<Row> := [];
      for k := 0 to |items|
        invariant |splitItems| == k
        invariant forall j :: 0 <= j < k ==> splitItems[j] == AmazonMatch.PurchaseUpdate(rowCopy, items[j], orderId)
      {
        splitItems := splitItems + [AmazonMatch.PurchaseUpdate(rowCopy, items[k], orderId)];
      }
      assert splitItems == AmazonMatch.SplitRows(rowCopy, items, orderId);
      updated := updated.(splitItems := Some(splitItems));
    }

    /** `findPossibleGiftCards`: the gift-card orders near the row's parsed date, in table order. */
    method FindPossibleGiftCards(row: Row) returns (giftCards: seq<string>)
      ensures row.sharedPluginData.Some? && row.sharedPluginData.value.parsedDate.Some? ==>
        giftCards == AmazonMatch.NearbyGiftCards(giftCardOrders, row.sharedPluginData.value.parsedDate.value)
      ensures row.sharedPluginData.None? || row.sharedPluginData.value.parsedDate.None? ==> giftCards == []
    {
      giftCards := [];
      if row.sharedPluginData.None? || row.sharedPluginData.value.parsedDate.None? {
        return;
      }
      var date := row.sharedPluginData.value.parsedDate.value;
      for k := 0 to |giftCardOrders|
        invariant giftCards == AmazonMatch.NearbyGiftCards(giftCardOrders[..k], date)
      {
        assert giftCardOrders[..k + 1][..k] == giftCardOrders[..k];
        if NearbyDate(date, giftCardOrders[k].date) {
          giftCards := giftCards + [giftCardOrders[k].orderId];
        }
      }
      assert giftCardOrders[..|giftCardOrders|] == giftCardOrders;
    }

    /** `findBestMatch`: the first candidate of the |amount| bucket near the row's parsed date. */
    method FindBestMatch(row: Row) returns (orderId: Option<string>)
      requires AmazonIndex.Valid(State())
      ensures orderId == AmazonMatch.FindBestMatch(State(), row)
    {
      var priceKey := if row.amount < 0 then -row.amount else row.amount;
      if row.sharedPluginData.None? || row.sharedPluginData.value.parsedDate.None? {
        return None;
      }
      var possibleMatches := GetPossibleMatches(priceKey, row.sharedPluginData.value.parsedDate.value);
      if |possibleMatches| == 0 {
        return None;
      } else if |possibleMatches| == 1 {
        return Some(possibleMatches[0]);
      }
      return Some(possibleMatches[0]);
    }

    /** `getPossibleMatches`: the ids of a bucket whose first item's date is near `input`, in bucket order. */
    method GetPossibleMatches(priceKey: int, input: ParsedDate) returns (matches: seq<string>)
      requires AmazonIndex.Valid(State())
      ensures AmazonMatch.HasItems(State(), Bucket(amazonOrders, priceKey))
      ensures matches == AmazonMatch.PossibleMatches(State(), Bucket(amazonOrders, priceKey), input)
    {
      var ids := Bucket(amazonOrders, priceKey);
      matches := [];
      for k := 0 to |ids|
        invariant matches == AmazonMatch.PossibleMatches(State(), ids[..k], input)
      {
        assert ids[..k + 1][..k] == ids[..k];
        assert ids[k] in ids;
        if NearbyDate(amazonItems[ids[k]][0].date, input) {
          matches := matches + [ids[k]];
        }
      }
      assert ids[..|ids|] == ids;
    }
  }
}
