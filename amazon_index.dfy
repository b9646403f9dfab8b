/**
 * The lookup tables `loadAmazonOrders` builds from the three purchase exports, as
 * specification functions: items grouped by order id, order ids bucketed by the cents
 * charged, gift-card orders, refunds by order id and refund ids bucketed by refund plus
 * tax. Each table is the left fold of one `reduce` of the loader; the plugin classes fill
 * their fields with loops proved equal to these folds.
 */
module AmazonIndex {
  import opened Wrappers
  import opened Seqs
  import opened Rows
  import opened AmazonRecords
  import opened Combination

  /** `orderTotals[orderId]`: the items' total, the total charged and their difference, in cents. */
  datatype OrderTotal = OrderTotal(itemsTotal: int, charged: int, diffInCents: int)

  /** One entry of `giftCardOrders`; the sequence keeps the object's key insertion order. */
  datatype GiftCard = GiftCard(orderId: string, date: ParsedDate)

  /** The six tables of an Amazon plugin. Bucket keys are cents. */
  datatype Index = Index(
    amazonItems: map<string, seq<Item>>,
    orderTotals: map<string, OrderTotal>,
    giftCardOrders: seq<GiftCard>,
    amazonOrders: map<int, seq<string>>,
    amazonRefunds: map<string, Refund>,
    refundPrices: map<int, seq<string>>)

  /** `previous[key] || []` */
  function Bucket<K, V>(m: map<K, seq<V>>, k: K): seq<V> {
    if k in m then m[k] else []
  }

  /** `previous[key] = previous[key] || []; previous[key].push(v)` */
  function Push<K(!new), V>(m: map<K, seq<V>>, k: K, v: V): (r: map<K, seq<V>>)
    ensures r.Keys == m.Keys + {k}
    ensures Bucket(r, k) == Bucket(m, k) + [v]
    ensures forall j :: j != k ==> Bucket(r, j) == Bucket(m, j)
  {
    m[k := Bucket(m, k) + [v]]
  }

  /* ---------------------------------------------------------------- amazonItems */

  /** `amazonItems`: the items of each order id, in input order. */
  function ItemsByOrder(rawItems: seq<RawItem>, parse: string -> ParsedDate): (m: map<string, seq<Item>>)
    ensures forall id :: id in m ==> |m[id]| > 0
    decreases |rawItems|
  {
    if rawItems == [] then map[]
    else
      var last := rawItems[|rawItems| - 1];
      Push(ItemsByOrder(rawItems[..|rawItems| - 1], parse), last.orderId, ToItem(last, parse))
  }

  /** The loaded items of order `id`, read front to back: an independent statement of the grouping. */
  function ItemsWithId(rawItems: seq<RawItem>, id: string, parse: string -> ParsedDate): seq<Item>
    decreases |rawItems|
  {
    if rawItems == [] then []
    else (if rawItems[0].orderId == id then [ToItem(rawItems[0], parse)] else []) + ItemsWithId(rawItems[1..], id, parse)
  }

  lemma {:induction false} ItemsWithIdAppend(a: seq<RawItem>, b: seq<RawItem>, id: string, parse: string -> ParsedDate)
    ensures ItemsWithId(a + b, id, parse) == ItemsWithId(a, id, parse) + ItemsWithId(b, id, parse)
    decreases |a|
  {
    if a == [] {
      assert a + b == b;
    } else {
      assert (a + b)[1..] == a[1..] + b;
      ItemsWithIdAppend(a[1..], b, id, parse);
    }
  }

  /** An order id has a group iff some item row carries it. */
  lemma {:induction false} ItemsByOrderKeys(rawItems: seq<RawItem>, parse: string -> ParsedDate)
    ensures forall id :: id in ItemsByOrder(rawItems, parse) <==> exists k :: 0 <= k < |rawItems| && rawItems[k].orderId == id
    decreases |rawItems|
  {
    if rawItems != [] {
      var init := rawItems[..|rawItems| - 1];
      ItemsByOrderKeys(init, parse);
      forall id | exists k :: 0 <= k < |rawItems| && rawItems[k].orderId == id
        ensures id in ItemsByOrder(rawItems, parse)
      {
        var k :| 0 <= k < |rawItems| && rawItems[k].orderId == id;
        if k < |init| {
          assert init[k].orderId == id;
        }
      }
    }
  }

  /** The group of an order id holds exactly that id's item rows, loaded, in input order. */
  lemma {:induction false} ItemsByOrderGroups(rawItems: seq<RawItem>, parse: string -> ParsedDate, id: string)
    ensures Bucket(ItemsByOrder(rawItems, parse), id) == ItemsWithId(rawItems, id, parse)
    decreases |rawItems|
  {
    if rawItems != [] {
      var init := rawItems[..|rawItems| - 1];
      var last := rawItems[|rawItems| - 1];
      ItemsByOrderGroups(init, parse, id);
      assert rawItems == init + [last];
      ItemsWithIdAppend(init, [last], id, parse);
      assert [last][1..] == [];
    }
  }

  /** A loaded item belongs to its group's order, its `total` is its 'Item Total', and it has no `originalPrice` yet. */
  lemma {:induction false} ItemsByOrderFresh(rawItems: seq<RawItem>, parse: string -> ParsedDate)
    ensures forall id, x :: id in ItemsByOrder(rawItems, parse) && x in ItemsByOrder(rawItems, parse)[id] ==>
      x.orderId == id && x.total == x.itemTotal && x.originalPrice.None?
    decreases |rawItems|
  {
    if rawItems != [] {
      ItemsByOrderFresh(rawItems[..|rawItems| - 1], parse);
    }
  }

  /* ---------------------------------------------------------------- order groups and gift cards */

  /** `orderGroups`: the order (charge) rows of each order id, in input order. */
  function OrderGroups(rawOrders: seq<RawOrder>): (m: map<string, seq<RawOrder>>)
    decreases |rawOrders|
  {
    if rawOrders == [] then map[]
    else
      var last := rawOrders[|rawOrders| - 1];
      Push(OrderGroups(rawOrders[..|rawOrders| - 1]), last.orderId, last)
  }

  /** The keys of `orderGroups` in insertion order: the order ids by first occurrence. */
  function OrderIds(rawOrders: seq<RawOrder>): (ids: seq<string>)
    decreases |rawOrders|
  {
    if rawOrders == [] then []
    else
      var init := OrderIds(rawOrders[..|rawOrders| - 1]);
      var id := rawOrders[|rawOrders| - 1].orderId;
      if id in init then init else init + [id]
  }

  /** The id list holds every order id once, and exactly the keys of `orderGroups`, each with a non-empty group. */
  lemma {:induction false} OrderIdsSpec(rawOrders: seq<RawOrder>)
    ensures NoDup(OrderIds(rawOrders))
    ensures forall id :: id in OrderIds(rawOrders) <==> id in OrderGroups(rawOrders)
    ensures forall id :: id in OrderIds(rawOrders) <==> exists k :: 0 <= k < |rawOrders| && rawOrders[k].orderId == id
    ensures forall id :: id in OrderGroups(rawOrders) ==> |OrderGroups(rawOrders)[id]| > 0
    decreases |rawOrders|
  {
    if rawOrders != [] {
      var init := rawOrders[..|rawOrders| - 1];
      OrderIdsSpec(init);
      forall id | exists k :: 0 <= k < |rawOrders| && rawOrders[k].orderId == id
        ensures id in OrderIds(rawOrders)
      {
        var k :| 0 <= k < |rawOrders| && rawOrders[k].orderId == id;
        if k < |init| {
          assert init[k].orderId == id;
        }
      }
    }
  }

  /** `getOrderTotal`: the sum of 'Total Charged' over an order's rows. */
  function Charged(orders: seq<RawOrder>): int
    decreases |orders|
  {
    if orders == [] then 0 else Charged(orders[..|orders| - 1]) + orders[|orders| - 1].totalCharged
  }

  /** `id in this.giftCardOrders` */
  predicate HasGiftCard(gifts: seq<GiftCard>, id: string) {
    exists k :: 0 <= k < |gifts| && gifts[k].orderId == id
  }

  /** `giftCardOrders` after the orders reduce: the first gift-card row of each id not yet recorded adds its date. */
  function GiftCardsAfter(gifts: seq<GiftCard>, rawOrders: seq<RawOrder>, parse: string -> ParsedDate): seq<GiftCard>
    decreases |rawOrders|
  {
    if rawOrders == [] then gifts
    else
      var acc := GiftCardsAfter(gifts, rawOrders[..|rawOrders| - 1], parse);
      var o := rawOrders[|rawOrders| - 1];
      if PaidWithGiftCard(o) && !HasGiftCard(acc, o.orderId) then acc + [GiftCard(o.orderId, parse(o.orderDate))] else acc
  }

  predicate DistinctGiftCards(gifts: seq<GiftCard>) {
    forall i, j :: 0 <= i < j < |gifts| ==> gifts[i].orderId != gifts[j].orderId
  }

  /** `rawOrders[k]` is the first row of its order id paid (partly) by gift card. */
  predicate FirstGiftCardRow(rawOrders: seq<RawOrder>, k: int) {
    0 <= k < |rawOrders| && PaidWithGiftCard(rawOrders[k])
    && forall j :: 0 <= j < k && rawOrders[j].orderId == rawOrders[k].orderId ==> !PaidWithGiftCard(rawOrders[j])
  }

  /** The recorded gift-card entries stay first, as they were. */
  lemma {:induction false} GiftCardsAfterGrows(gifts: seq<GiftCard>, rawOrders: seq<RawOrder>, parse: string -> ParsedDate)
    ensures var r := GiftCardsAfter(gifts, rawOrders, parse);
      |r| >= |gifts| && r[..|gifts|] == gifts
    decreases |rawOrders|
  {
    if rawOrders != [] {
      GiftCardsAfterGrows(gifts, rawOrders[..|rawOrders| - 1], parse);
    }
  }

  /** Gift-card ids stay distinct. */
  lemma {:induction false} GiftCardsAfterDistinct(gifts: seq<GiftCard>, rawOrders: seq<RawOrder>, parse: string -> ParsedDate)
    requires DistinctGiftCards(gifts)
    ensures DistinctGiftCards(GiftCardsAfter(gifts, rawOrders, parse))
    decreases |rawOrders|
  {
    if rawOrders != [] {
      var init := rawOrders[..|rawOrders| - 1];
      GiftCardsAfterDistinct(gifts, init, parse);
      var acc := GiftCardsAfter(gifts, init, parse);
      var o := rawOrders[|rawOrders| - 1];
      if PaidWithGiftCard(o) && !HasGiftCard(acc, o.orderId) {
        var r := acc + [GiftCard(o.orderId, parse(o.orderDate))];
        forall i, j | 0 <= i < j < |r| ensures r[i].orderId != r[j].orderId {
          if j == |acc| {
            assert r[i] == acc[i];
          }
        }
      }
    }
  }

  /** Every order id with a gift-card row gets an entry. */
  lemma {:induction false} GiftCardsAfterCovers(gifts: seq<GiftCard>, rawOrders: seq<RawOrder>, parse: string -> ParsedDate)
    ensures forall k :: 0 <= k < |rawOrders| && PaidWithGiftCard(rawOrders[k]) ==>
      HasGiftCard(GiftCardsAfter(gifts, rawOrders, parse), rawOrders[k].orderId)
    decreases |rawOrders|
  {
    if rawOrders != [] {
      var init := rawOrders[..|rawOrders| - 1];
      var n := |rawOrders| - 1;
      var o := rawOrders[n];
      GiftCardsAfterCovers(gifts, init, parse);
      var acc := GiftCardsAfter(gifts, init, parse);
      var r := GiftCardsAfter(gifts, rawOrders, parse);
      assert r == acc || r == acc + [GiftCard(o.orderId, parse(o.orderDate))];
      forall k | 0 <= k < |rawOrders| && PaidWithGiftCard(rawOrders[k]) ensures HasGiftCard(r, rawOrders[k].orderId) {
        if k < n {
          assert init[k] == rawOrders[k];
          var m :| 0 <= m < |acc| && acc[m].orderId == rawOrders[k].orderId;
          assert r[m] == acc[m];
        } else if HasGiftCard(acc, o.orderId) {
          var m :| 0 <= m < |acc| && acc[m].orderId == o.orderId;
          assert r[m] == acc[m];
        } else {
          assert r[|acc|].orderId == o.orderId;
        }
      }
    }
  }

  /** A new entry carries the date of the first gift-card row of its order id. */
  lemma {:induction false} GiftCardsAfterFirstRow(gifts: seq<GiftCard>, rawOrders: seq<RawOrder>, parse: string -> ParsedDate, i: int)
    requires |gifts| <= i < |GiftCardsAfter(gifts, rawOrders, parse)|
    ensures var r := GiftCardsAfter(gifts, rawOrders, parse);
      exists k :: FirstGiftCardRow(rawOrders, k) && rawOrders[k].orderId == r[i].orderId && r[i].date == parse(rawOrders[k].orderDate)
    decreases |rawOrders|
  {
    assert rawOrders != [];
    var init := rawOrders[..|rawOrders| - 1];
    var n := |rawOrders| - 1;
    var o := rawOrders[n];
    var acc := GiftCardsAfter(gifts, init, parse);
    var r := GiftCardsAfter(gifts, rawOrders, parse);
    assert r == acc || (PaidWithGiftCard(o) && !HasGiftCard(acc, o.orderId) && r == acc + [GiftCard(o.orderId, parse(o.orderDate))]);
    if i < |acc| {
      GiftCardsAfterFirstRow(gifts, init, parse, i);
      assert r[i] == acc[i];
      var k :| FirstGiftCardRow(init, k) && init[k].orderId == acc[i].orderId && acc[i].date == parse(init[k].orderDate);
      assert rawOrders[k] == init[k];
      assert FirstGiftCardRow(rawOrders, k);
    } else {
      assert r[i] == GiftCard(o.orderId, parse(o.orderDate));
      forall j | 0 <= j < n && rawOrders[j].orderId == o.orderId ensures !PaidWithGiftCard(rawOrders[j]) {
        assert init[j] == rawOrders[j];
        GiftCardsAfterCovers(gifts, init, parse);
      }
      assert FirstGiftCardRow(rawOrders, n) && rawOrders[n].orderId == r[i].orderId && r[i].date == parse(rawOrders[n].orderDate);
    }
  }

  /**
   * Gift-card orders: the recorded entries are kept, ids stay distinct, every id paid by
   * gift card gets an entry, and a new entry carries the date of its id's first gift-card row.
   */
  lemma GiftCardsAfterSpec(gifts: seq<GiftCard>, rawOrders: seq<RawOrder>, parse: string -> ParsedDate)
    requires DistinctGiftCards(gifts)
    ensures var r := GiftCardsAfter(gifts, rawOrders, parse);
      && |r| >= |gifts| && r[..|gifts|] == gifts
      && DistinctGiftCards(r)
      && (forall k :: 0 <= k < |rawOrders| && PaidWithGiftCard(rawOrders[k]) ==> HasGiftCard(r, rawOrders[k].orderId))
      && (forall i :: |gifts| <= i < |r| ==>
            && !HasGiftCard(gifts, r[i].orderId)
            && exists k :: FirstGiftCardRow(rawOrders, k) && rawOrders[k].orderId == r[i].orderId
                           && r[i].date == parse(rawOrders[k].orderDate))
  {
    var r := GiftCardsAfter(gifts, rawOrders, parse);
    GiftCardsAfterGrows(gifts, rawOrders, parse);
    GiftCardsAfterDistinct(gifts, rawOrders, parse);
    GiftCardsAfterCovers(gifts, rawOrders, parse);
    forall i | |gifts| <= i < |r|
      ensures exists k :: FirstGiftCardRow(rawOrders, k) && rawOrders[k].orderId == r[i].orderId && r[i].date == parse(rawOrders[k].orderDate)
    {
      GiftCardsAfterFirstRow(gifts, rawOrders, parse, i);
    }
    forall i | |gifts| <= i < |r| ensures !HasGiftCard(gifts, r[i].orderId) {
      forall k | 0 <= k < |gifts| ensures gifts[k].orderId != r[i].orderId {
        assert r[k] == gifts[k];
      }
    }
  }

  /* ---------------------------------------------------------------- diff spreading */

  /** JavaScript's `%` on integers: truncating, the remainder takes the sign of `a`. */
  function JsRem(a: int, n: int): (r: int)
    requires n > 0
    ensures -n < r < n
    ensures a >= 0 ==> r >= 0
    ensures a < 0 ==> r <= 0
  {
    if a >= 0 then a % n else -((-a) % n)
  }

  /** `spreadTotalInCents / spreadItems` is exact: `diff - remainder` is a multiple of the item count. */
  lemma JsRemMultiple(a: int, n: int)
    requires n > 0
    ensures (a - JsRem(a, n)) / n * n == a - JsRem(a, n)
  {
    if a >= 0 {
      assert a == a / n * n + a % n;
      assert (a - a % n) == a / n * n;
      DivMultiple(a / n, n);
    } else {
      var b := -a;
      assert b == b / n * n + b % n;
      assert a - JsRem(a, n) == (-(b / n)) * n;
      DivMultiple(-(b / n), n);
    }
  }

  lemma DivMultiple(q: int, n: int)
    requires n > 0
    ensures q * n / n == q
  {
    var r := q * n / n;
    var m := q * n % n;
    assert q * n == r * n + m && 0 <= m < n;
    assert (q - r) * n == m by {
      assert (q - r) * n == q * n - r * n;
    }
    MulBounds(q - r, n);
  }

  lemma MulBounds(k: int, n: int)
    requires n > 0
    ensures k >= 1 ==> k * n >= n
    ensures k <= -1 ==> k * n <= -n
  {
    if k >= 1 {
      assert (k - 1) * n >= 0;
      assert k * n == (k - 1) * n + n;
    } else if k <= -1 {
      assert (-k - 1) * n >= 0;
      assert k * n == -((-k - 1) * n) - n;
    }
  }

  /** The per-item increment of `spreadOrderDiff`: the equal share, plus the remainder on the first item. */
  function Increment(diff: int, n: int, index: int): int
    requires n > 0
  {
    var rem := JsRem(diff, n);
    (diff - rem) / n + (if index == 0 then rem else 0)
  }

  /**
   * `spreadOrderDiff` on an order's items: each item's 'Item Total' grows by its increment
   * and its old 'Item Total' is kept as `originalPrice`.
   */
  function Spread(items: seq<Item>, diff: int): (r: seq<Item>)
    requires |items| > 0
    ensures |r| == |items|
  {
    seq(|items|, k requires 0 <= k < |items| =>
      items[k].(itemTotal := items[k].itemTotal + Increment(diff, |items|, k), originalPrice := Some(items[k].itemTotal)))
  }

  /** The sum of the first `m` increments. */
  function Increments(diff: int, n: int, m: nat): int
    requires n > 0
  {
    if m == 0 then 0 else Increments(diff, n, m - 1) + Increment(diff, n, m - 1)
  }

  lemma {:induction false} IncrementsClosed(diff: int, n: int, m: nat)
    requires n > 0
    ensures Increments(diff, n, m) == m * ((diff - JsRem(diff, n)) / n) + (if m > 0 then JsRem(diff, n) else 0)
  {
    if m > 0 {
      IncrementsClosed(diff, n, m - 1);
      var share := (diff - JsRem(diff, n)) / n;
      assert m * share == (m - 1) * share + share;
    }
  }

  /** The remainder and the equal shares of all `n` items add up to the difference. */
  lemma IncrementsTotal(diff: int, n: int)
    requires n > 0
    ensures Increments(diff, n, n) == diff
  {
    IncrementsClosed(diff, n, n);
    JsRemMultiple(diff, n);
    var share := (diff - JsRem(diff, n)) / n;
    assert n * share == share * n;
  }

  lemma {:induction false} SpreadPrefixSum(items: seq<Item>, diff: int, m: nat)
    requires 0 < |items| && m <= |items|
    ensures SumCents(Spread(items, diff)[..m]) == SumCents(items[..m]) + Increments(diff, |items|, m)
    decreases m
  {
    if m > 0 {
      var s := Spread(items, diff);
      SpreadPrefixSum(items, diff, m - 1);
      assert s[..m] == s[..m - 1] + [s[m - 1]];
      assert items[..m] == items[..m - 1] + [items[m - 1]];
      SumCentsAppend(s[..m - 1], s[m - 1]);
      SumCentsAppend(items[..m - 1], items[m - 1]);
    }
  }

  /**
   * The increments sum to the difference, so the spread items' cents sum to the items'
   * old cents plus `diff`.
   */
  lemma SpreadSum(items: seq<Item>, diff: int)
    requires |items| > 0
    ensures SumCents(Spread(items, diff)) == SumCents(items) + diff
  {
    var n := |items|;
    SpreadPrefixSum(items, diff, n);
    assert Spread(items, diff)[..n] == Spread(items, diff);
    assert items[..n] == items;
    IncrementsTotal(diff, n);
  }

  /* ---------------------------------------------------------------- order buckets */

  /** `getItemsTotal`: the sum of the loaded totals (the 'Item Total' read at load time). */
  function SumTotals(items: seq<Item>): int
    decreases |items|
  {
    if items == [] then 0 else SumTotals(items[..|items| - 1]) + items[|items| - 1].total
  }

  predicate NonEmptyGroups(m: map<string, seq<Item>>) {
    forall id :: id in m ==> |m[id]| > 0
  }

  /** What the orders `reduce` has built so far: `amazonItems` (spread in place), `orderTotals` and the buckets. */
  datatype Buckets = Buckets(amazonItems: map<string, seq<Item>>, orderTotals: map<string, OrderTotal>, amazonOrders: map<int, seq<string>>)

  /** The order total recorded for an order of `charged` cents whose items were loaded as `items`. */
  function TotalFor(items: seq<Item>, charged: int): OrderTotal {
    OrderTotal(SumTotals(items), charged, charged - SumTotals(items))
  }

  /**
   * One step of the orders `reduce` for order `id` charged `charged` cents: record its
   * totals, spread a non-zero difference over its items, push the id into its bucket.
   * `None` when the order has no items (`getItemsTotal(undefined)` throws).
   */
  function OrderStep(b: Buckets, charged: int, id: string): (r: Option<Buckets>)
    requires NonEmptyGroups(b.amazonItems)
    ensures r.None? <==> id !in b.amazonItems
    ensures r.Some? ==> r.value.amazonItems.Keys == b.amazonItems.Keys && NonEmptyGroups(r.value.amazonItems)
  {
    if id !in b.amazonItems then None
    else
      var t := TotalFor(b.amazonItems[id], charged);
      var items := if t.diffInCents != 0 then b.amazonItems[id := Spread(b.amazonItems[id], t.diffInCents)] else b.amazonItems;
      Some(Buckets(items, b.orderTotals[id := t], Push(b.amazonOrders, charged, id)))
  }

  /** The orders `reduce` over the order ids `ids`, from `amazonItems` = `items0` and `orderTotals` = `totals0`. */
  function OrderBuckets(items0: map<string, seq<Item>>, totals0: map<string, OrderTotal>, groups: map<string, seq<RawOrder>>, ids: seq<string>): (r: Option<Buckets>)
    requires NonEmptyGroups(items0)
    requires forall id :: id in ids ==> id in groups
    ensures r.Some? ==> r.value.amazonItems.Keys == items0.Keys && NonEmptyGroups(r.value.amazonItems)
    ensures r.Some? ==> forall k, id :: k in r.value.amazonOrders && id in r.value.amazonOrders[k] ==> id in r.value.amazonItems
    decreases |ids|
  {
    if ids == [] then Some(Buckets(items0, totals0, map[]))
    else
      match OrderBuckets(items0, totals0, groups, ids[..|ids| - 1])
      case None => None
      case Some(b) => OrderStep(b, Charged(groups[ids[|ids| - 1]]), ids[|ids| - 1])
  }

  /** The orders `reduce` fails exactly when some order id has no items. */
  lemma {:induction false} OrderBucketsFail(items0: map<string, seq<Item>>, totals0: map<string, OrderTotal>, groups: map<string, seq<RawOrder>>, ids: seq<string>)
    requires NonEmptyGroups(items0)
    requires forall id :: id in ids ==> id in groups
    ensures OrderBuckets(items0, totals0, groups, ids).None? <==> exists id :: id in ids && id !in items0
    decreases |ids|
  {
    if ids != [] {
      var init := ids[..|ids| - 1];
      OrderBucketsFail(items0, totals0, groups, init);
      assert ids == init + [ids[|ids| - 1]];
    }
  }

  /**
   * Each order id of `ids` is pushed exactly once, into the bucket of the cents charged
   * for it, and no bucket holds anything else.
   */
  lemma {:induction false} OrderBucketsPlacement(items0: map<string, seq<Item>>, totals0: map<string, OrderTotal>, groups: map<string, seq<RawOrder>>, ids: seq<string>, k: int, id: string)
    requires NonEmptyGroups(items0)
    requires forall id :: id in ids ==> id in groups
    requires NoDup(ids)
    requires OrderBuckets(items0, totals0, groups, ids).Some?
    ensures Count(Bucket(OrderBuckets(items0, totals0, groups, ids).value.amazonOrders, k), id) ==
      if id in ids && k == Charged(groups[id]) then 1 else 0
    decreases |ids|
  {
    if ids != [] {
      var init := ids[..|ids| - 1];
      var last := ids[|ids| - 1];
      var b := OrderBuckets(items0, totals0, groups, init).value;
      OrderBucketsPlacement(items0, totals0, groups, init, k, id);
      assert ids == init + [last];
      if k == Charged(groups[last]) {
        CountAppend(Bucket(b.amazonOrders, k), [last], id);
        assert [last][1..] == [];
      }
    }
  }

  /** One step of the orders `reduce` touches the items and the totals of its own order id only. */
  lemma OrderStepEffect(b: Buckets, charged: int, last: string, id: string)
    requires NonEmptyGroups(b.amazonItems) && last in b.amazonItems && id in b.amazonItems
    ensures var r := OrderStep(b, charged, last).value;
      var t := TotalFor(b.amazonItems[last], charged);
      && (id in r.orderTotals <==> id == last || id in b.orderTotals)
      && (id in r.orderTotals ==> r.orderTotals[id] == if id == last then t else b.orderTotals[id])
      && r.amazonItems[id] == if id == last && t.diffInCents != 0 then Spread(b.amazonItems[id], t.diffInCents) else b.amazonItems[id]
  {
  }

  /** What the orders `reduce` does to the items and totals of one order id. */
  lemma {:induction false} OrderBucketsItems(items0: map<string, seq<Item>>, totals0: map<string, OrderTotal>, groups: map<string, seq<RawOrder>>, ids: seq<string>, id: string)
    requires NonEmptyGroups(items0)
    requires forall id :: id in ids ==> id in groups
    requires NoDup(ids)
    requires OrderBuckets(items0, totals0, groups, ids).Some?
    requires id in items0
    ensures var b := OrderBuckets(items0, totals0, groups, ids).value;
      id in ids ==> id in b.orderTotals && b.orderTotals[id] == TotalFor(items0[id], Charged(groups[id]))
    ensures var b := OrderBuckets(items0, totals0, groups, ids).value;
      b.amazonItems[id] ==
        if id in ids && TotalFor(items0[id], Charged(groups[id])).diffInCents != 0
        then Spread(items0[id], TotalFor(items0[id], Charged(groups[id])).diffInCents)
        else items0[id]
    decreases |ids|
  {
    if ids != [] {
      var init := ids[..|ids| - 1];
      var last := ids[|ids| - 1];
      assert ids == init + [last];
      assert NoDup(init) by {
        forall i, j | 0 <= i < j < |init| ensures init[i] != init[j] {
          assert init[i] == ids[i] && init[j] == ids[j];
        }
      }
      assert OrderBuckets(items0, totals0, groups, init).Some?;
      OrderBucketsItems(items0, totals0, groups, init, id);
      var b := OrderBuckets(items0, totals0, groups, init).value;
      assert last in b.amazonItems;
      var r := OrderStep(b, Charged(groups[last]), last).value;
      assert OrderBuckets(items0, totals0, groups, ids).value == r;
      OrderStepEffect(b, Charged(groups[last]), last, id);
      if id == last {
        assert id !in init by {
          forall j | 0 <= j < |init| ensures init[j] != last {
            assert ids[j] != ids[|ids| - 1];
          }
        }
        assert b.amazonItems[id] == items0[id];
      } else {
        assert id in ids <==> id in init;
      }
    }
  }

  /* ---------------------------------------------------------------- refunds */

  /** `amazonRefunds` and `refundPrices`. */
  datatype RefundTables = RefundTables(amazonRefunds: map<string, Refund>, refundPrices: map<int, seq<string>>)

  /** The refunds `reduce`: the refund replaces any earlier one of its order id; the id joins the bucket of refund plus tax. */
  function RefundsAfter(t: RefundTables, rawRefunds: seq<RawRefund>, parse: string -> ParsedDate): RefundTables
    decreases |rawRefunds|
  {
    if rawRefunds == [] then t
    else
      var acc := RefundsAfter(t, rawRefunds[..|rawRefunds| - 1], parse);
      var r := rawRefunds[|rawRefunds| - 1];
      RefundTables(acc.amazonRefunds[r.orderId := ToRefund(r, parse)], Push(acc.refundPrices, RefundKey(r), r.orderId))
  }

  /** The ids of the refunds keyed `key`, front to back. */
  function IdsWithKey(rawRefunds: seq<RawRefund>, key: int): seq<string>
    decreases |rawRefunds|
  {
    if rawRefunds == [] then []
    else (if RefundKey(rawRefunds[0]) == key then [rawRefunds[0].orderId] else []) + IdsWithKey(rawRefunds[1..], key)
  }

  lemma {:induction false} IdsWithKeyAppend(a: seq<RawRefund>, b: seq<RawRefund>, key: int)
    ensures IdsWithKey(a + b, key) == IdsWithKey(a, key) + IdsWithKey(b, key)
    decreases |a|
  {
    if a == [] {
      assert a + b == b;
    } else {
      assert (a + b)[1..] == a[1..] + b;
      IdsWithKeyAppend(a[1..], b, key);
    }
  }

  /** Refund ids are appended to the bucket of their refund plus tax, in input order. */
  lemma {:induction false} RefundPricesSpec(t: RefundTables, rawRefunds: seq<RawRefund>, parse: string -> ParsedDate, key: int)
    ensures Bucket(RefundsAfter(t, rawRefunds, parse).refundPrices, key) == Bucket(t.refundPrices, key) + IdsWithKey(rawRefunds, key)
    decreases |rawRefunds|
  {
    if rawRefunds != [] {
      var init := rawRefunds[..|rawRefunds| - 1];
      var last := rawRefunds[|rawRefunds| - 1];
      RefundPricesSpec(t, init, parse, key);
      assert rawRefunds == init + [last];
      IdsWithKeyAppend(init, [last], key);
      assert [last][1..] == [];
    }
  }

  /** The order ids of the refund rows. */
  function RefundIds(rawRefunds: seq<RawRefund>): set<string>
    decreases |rawRefunds|
  {
    if rawRefunds == [] then {} else RefundIds(rawRefunds[..|rawRefunds| - 1]) + {rawRefunds[|rawRefunds| - 1].orderId}
  }

  lemma {:induction false} RefundIdsSpec(rawRefunds: seq<RawRefund>, id: string)
    ensures id in RefundIds(rawRefunds) <==> exists k :: 0 <= k < |rawRefunds| && rawRefunds[k].orderId == id
    decreases |rawRefunds|
  {
    if rawRefunds != [] {
      var n := |rawRefunds| - 1;
      var init := rawRefunds[..n];
      RefundIdsSpec(init, id);
      if exists k :: 0 <= k < |rawRefunds| && rawRefunds[k].orderId == id {
        var k :| 0 <= k < |rawRefunds| && rawRefunds[k].orderId == id;
        if k < n {
          assert init[k].orderId == id;
        }
      }
      if exists k :: 0 <= k < n && init[k].orderId == id {
        var k :| 0 <= k < n && init[k].orderId == id;
        assert rawRefunds[k].orderId == id;
      }
    }
  }

  /** The order ids with a stored refund: those that had one before, and those of the refund rows. */
  lemma {:induction false} RefundKeys(t: RefundTables, rawRefunds: seq<RawRefund>, parse: string -> ParsedDate)
    ensures RefundsAfter(t, rawRefunds, parse).amazonRefunds.Keys == t.amazonRefunds.Keys + RefundIds(rawRefunds)
    decreases |rawRefunds|
  {
    if rawRefunds != [] {
      RefundKeys(t, rawRefunds[..|rawRefunds| - 1], parse);
    }
  }

  /** The refund stored for an order id that has refund rows is its last one. */
  lemma {:induction false} RefundOfLastRow(t: RefundTables, rawRefunds: seq<RawRefund>, parse: string -> ParsedDate, id: string, k: int)
    requires 0 <= k < |rawRefunds| && rawRefunds[k].orderId == id
    requires forall j :: k < j < |rawRefunds| ==> rawRefunds[j].orderId != id
    ensures id in RefundsAfter(t, rawRefunds, parse).amazonRefunds
    ensures RefundsAfter(t, rawRefunds, parse).amazonRefunds[id] == ToRefund(rawRefunds[k], parse)
    decreases |rawRefunds|
  {
    var n := |rawRefunds| - 1;
    var init := rawRefunds[..n];
    var last := rawRefunds[n];
    assert RefundsAfter(t, rawRefunds, parse).amazonRefunds
      == RefundsAfter(t, init, parse).amazonRefunds[last.orderId := ToRefund(last, parse)];
    if k < n {
      assert last.orderId != id;
      assert init[k] == rawRefunds[k];
      RefundOfLastRow(t, init, parse, id, k);
    }
  }

  /** An order id without refund rows keeps its old entry, or its absence. */
  lemma {:induction false} RefundKept(t: RefundTables, rawRefunds: seq<RawRefund>, parse: string -> ParsedDate, id: string)
    requires forall k :: 0 <= k < |rawRefunds| ==> rawRefunds[k].orderId != id
    ensures var m := RefundsAfter(t, rawRefunds, parse).amazonRefunds;
      (id in m <==> id in t.amazonRefunds) && (id in m ==> m[id] == t.amazonRefunds[id])
    decreases |rawRefunds|
  {
    if rawRefunds != [] {
      var n := |rawRefunds| - 1;
      assert rawRefunds[n].orderId != id;
      RefundKept(t, rawRefunds[..n], parse, id);
    }
  }

  /** The refund stored for an order id is its last refund row; an id with no refund row keeps its old entry. */
  lemma LastRefundWins(t: RefundTables, rawRefunds: seq<RawRefund>, parse: string -> ParsedDate, id: string)
    ensures var m := RefundsAfter(t, rawRefunds, parse).amazonRefunds;
      && (id in m <==> id in t.amazonRefunds || exists k :: 0 <= k < |rawRefunds| && rawRefunds[k].orderId == id)
      && (forall k ::
            (0 <= k < |rawRefunds| && rawRefunds[k].orderId == id && (forall j :: k < j < |rawRefunds| ==> rawRefunds[j].orderId != id))
            ==> m[id] == ToRefund(rawRefunds[k], parse))
      && ((forall k :: 0 <= k < |rawRefunds| ==> rawRefunds[k].orderId != id) ==> (id in m <==> id in t.amazonRefunds) && (id in m ==> m[id] == t.amazonRefunds[id]))
  {
    RefundKeys(t, rawRefunds, parse);
    RefundIdsSpec(rawRefunds, id);
    forall k | 0 <= k < |rawRefunds| && rawRefunds[k].orderId == id && (forall j :: k < j < |rawRefunds| ==> rawRefunds[j].orderId != id)
      ensures RefundsAfter(t, rawRefunds, parse).amazonRefunds[id] == ToRefund(rawRefunds[k], parse)
    {
      RefundOfLastRow(t, rawRefunds, parse, id, k);
    }
    if forall k :: 0 <= k < |rawRefunds| ==> rawRefunds[k].orderId != id {
      RefundKept(t, rawRefunds, parse, id);
    }
  }

  /** Every id in a refund bucket has a stored refund, and no bucket is empty, once this holds before the reduce. */
  lemma {:induction false} RefundsAfterValid(t: RefundTables, rawRefunds: seq<RawRefund>, parse: string -> ParsedDate)
    requires forall k :: k in t.refundPrices ==> |t.refundPrices[k]| > 0
    requires forall k, id :: k in t.refundPrices && id in t.refundPrices[k] ==> id in t.amazonRefunds
    ensures var r := RefundsAfter(t, rawRefunds, parse);
      && (forall k :: k in r.refundPrices ==> |r.refundPrices[k]| > 0)
      && (forall k, id :: k in r.refundPrices && id in r.refundPrices[k] ==> id in r.amazonRefunds)
      && t.amazonRefunds.Keys <= r.amazonRefunds.Keys
    decreases |rawRefunds|
  {
    if rawRefunds != [] {
      RefundsAfterValid(t, rawRefunds[..|rawRefunds| - 1], parse);
    }
  }

  /* ---------------------------------------------------------------- the whole loader */

  /**
   * `loadAmazonOrders` on the three exports, from the plugin's current tables `st`:
   * `amazonItems`, `amazonOrders` and `amazonRefunds` are rebuilt from scratch, while
   * `orderTotals`, `giftCardOrders` and `refundPrices` (initialised once, by the field
   * declarations) are added to. `None` when an order id has no item rows.
   */
  function Load(st: Index, rawOrders: seq<RawOrder>, rawItems: seq<RawItem>, rawRefunds: seq<RawRefund>, parse: string -> ParsedDate): Option<Index> {
    var items := ItemsByOrder(rawItems, parse);
    var groups := OrderGroups(rawOrders);
    var ids := OrderIds(rawOrders);
    OrderIdsSpec(rawOrders);
    var gifts := GiftCardsAfter(st.giftCardOrders, rawOrders, parse);
    match OrderBuckets(items, st.orderTotals, groups, ids)
    case None => None
    case Some(b) =>
      var r := RefundsAfter(RefundTables(map[], st.refundPrices), rawRefunds, parse);
      Some(Index(b.amazonItems, b.orderTotals, gifts, b.amazonOrders, r.amazonRefunds, r.refundPrices))
  }

  /**
   * What the matcher relies on: every bucketed order id has items, no refund bucket is
   * empty, and every bucketed refund id has a stored refund.
   */
  predicate Valid(ix: Index) {
    && (forall k, id :: k in ix.amazonOrders && id in ix.amazonOrders[k] ==> id in ix.amazonItems && |ix.amazonItems[id]| > 0)
    && (forall k :: k in ix.refundPrices ==> |ix.refundPrices[k]| > 0)
    && (forall k, id :: k in ix.refundPrices && id in ix.refundPrices[k] ==> id in ix.amazonRefunds)
  }

  /** `Load` stage by stage, for the loader loops. */
  lemma LoadStages(st: Index, rawOrders: seq<RawOrder>, rawItems: seq<RawItem>, rawRefunds: seq<RawRefund>, parse: string -> ParsedDate)
    ensures forall id :: id in OrderIds(rawOrders) ==> id in OrderGroups(rawOrders)
    ensures var b := OrderBuckets(ItemsByOrder(rawItems, parse), st.orderTotals, OrderGroups(rawOrders), OrderIds(rawOrders));
      var r := RefundsAfter(RefundTables(map[], st.refundPrices), rawRefunds, parse);
      Load(st, rawOrders, rawItems, rawRefunds, parse) ==
        if b.None? then None
        else Some(Index(b.value.amazonItems, b.value.orderTotals, GiftCardsAfter(st.giftCardOrders, rawOrders, parse),
                        b.value.amazonOrders, r.amazonRefunds, r.refundPrices))
  {
    OrderIdsSpec(rawOrders);
  }

  /** The load fails exactly when some order id has no item rows. */
  lemma LoadFails(st: Index, rawOrders: seq<RawOrder>, rawItems: seq<RawItem>, rawRefunds: seq<RawRefund>, parse: string -> ParsedDate)
    ensures Load(st, rawOrders, rawItems, rawRefunds, parse).None? <==>
      exists k :: 0 <= k < |rawOrders| && forall j :: 0 <= j < |rawItems| ==> rawItems[j].orderId != rawOrders[k].orderId
  {
    OrderIdsSpec(rawOrders);
    ItemsByOrderKeys(rawItems, parse);
    OrderBucketsFail(ItemsByOrder(rawItems, parse), st.orderTotals, OrderGroups(rawOrders), OrderIds(rawOrders));
    if exists k :: 0 <= k < |rawOrders| && forall j :: 0 <= j < |rawItems| ==> rawItems[j].orderId != rawOrders[k].orderId {
      var k :| 0 <= k < |rawOrders| && forall j :: 0 <= j < |rawItems| ==> rawItems[j].orderId != rawOrders[k].orderId;
      assert rawOrders[k].orderId in OrderIds(rawOrders);
    }
  }

  /** A load on a plugin with no refund buckets yet (a fresh plugin) leaves its tables valid. */
  lemma LoadValid(st: Index, rawOrders: seq<RawOrder>, rawItems: seq<RawItem>, rawRefunds: seq<RawRefund>, parse: string -> ParsedDate)
    requires st.refundPrices == map[]
    requires Load(st, rawOrders, rawItems, rawRefunds, parse).Some?
    ensures Valid(Load(st, rawOrders, rawItems, rawRefunds, parse).value)
  {
    RefundsAfterValid(RefundTables(map[], st.refundPrices), rawRefunds, parse);
  }

  /**
   * After a load, an order's items cost exactly what was charged for it: with a non-zero
   * difference the items are the spread ones, each keeping its loaded 'Item Total' as
   * `originalPrice`; with none they are the loaded items, untouched.
   */
  lemma LoadBalancesOrder(st: Index, rawOrders: seq<RawOrder>, rawItems: seq<RawItem>, rawRefunds: seq<RawRefund>, parse: string -> ParsedDate, id: string)
    requires Load(st, rawOrders, rawItems, rawRefunds, parse).Some?
    requires id in OrderIds(rawOrders)
    ensures id in ItemsByOrder(rawItems, parse) && id in OrderGroups(rawOrders)
    ensures var ix := Load(st, rawOrders, rawItems, rawRefunds, parse).value;
      var loaded := ItemsByOrder(rawItems, parse)[id];
      var charged := Charged(OrderGroups(rawOrders)[id]);
      && id in ix.amazonItems && id in ix.orderTotals
      && ix.orderTotals[id] == OrderTotal(SumCents(loaded), charged, charged - SumCents(loaded))
      && SumCents(ix.amazonItems[id]) == charged
      && |ix.amazonItems[id]| == |loaded|
      && (charged == SumCents(loaded) ==> ix.amazonItems[id] == loaded)
      && (charged != SumCents(loaded) ==> forall k :: 0 <= k < |loaded| ==>
            ix.amazonItems[id][k] == loaded[k].(itemTotal := ix.amazonItems[id][k].itemTotal, originalPrice := Some(loaded[k].itemTotal)))
  {
    var items := ItemsByOrder(rawItems, parse);
    var groups := OrderGroups(rawOrders);
    var ids := OrderIds(rawOrders);
    OrderIdsSpec(rawOrders);
    OrderBucketsFail(items, st.orderTotals, groups, ids);
    ItemsByOrderFresh(rawItems, parse);
    BucketsBalanceOrder(items, st.orderTotals, groups, ids, id);
    var b := OrderBuckets(items, st.orderTotals, groups, ids).value;
    assert Load(st, rawOrders, rawItems, rawRefunds, parse).value.amazonItems == b.amazonItems;
    assert Load(st, rawOrders, rawItems, rawRefunds, parse).value.orderTotals == b.orderTotals;
  }

  /** `LoadBalancesOrder` at the level of the orders `reduce`. */
  lemma BucketsBalanceOrder(items: map<string, seq<Item>>, totals0: map<string, OrderTotal>, groups: map<string, seq<RawOrder>>, ids: seq<string>, id: string)
    requires NonEmptyGroups(items)
    requires forall id :: id in ids ==> id in groups
    requires NoDup(ids)
    requires OrderBuckets(items, totals0, groups, ids).Some?
    requires id in ids && id in items
    requires forall x :: x in items[id] ==> x.total == x.itemTotal
    ensures var b := OrderBuckets(items, totals0, groups, ids).value;
      var loaded := items[id];
      var charged := Charged(groups[id]);
      && id in b.amazonItems && id in b.orderTotals
      && b.orderTotals[id] == OrderTotal(SumCents(loaded), charged, charged - SumCents(loaded))
      && SumCents(b.amazonItems[id]) == charged
      && |b.amazonItems[id]| == |loaded|
      && (charged == SumCents(loaded) ==> b.amazonItems[id] == loaded)
      && (charged != SumCents(loaded) ==> forall k :: 0 <= k < |loaded| ==>
            b.amazonItems[id][k] == loaded[k].(itemTotal := b.amazonItems[id][k].itemTotal, originalPrice := Some(loaded[k].itemTotal)))
  {
    OrderBucketsItems(items, totals0, groups, ids, id);
    TotalsAreCents(items[id]);
    var t := TotalFor(items[id], Charged(groups[id]));
    if t.diffInCents != 0 {
      SpreadSum(items[id], t.diffInCents);
    }
  }

  /** While no item has been adjusted, `getItemsTotal` is the sum of the items' cents. */
  lemma {:induction false} TotalsAreCents(items: seq<Item>)
    requires forall x :: x in items ==> x.total == x.itemTotal
    ensures SumTotals(items) == SumCents(items)
    decreases |items|
  {
    if items != [] {
      TotalsAreCents(items[..|items| - 1]);
    }
  }

  /** After a load every order id sits in exactly one bucket, once, keyed by the cents charged for it. */
  lemma LoadBucketsOrder(st: Index, rawOrders: seq<RawOrder>, rawItems: seq<RawItem>, rawRefunds: seq<RawRefund>, parse: string -> ParsedDate, k: int, id: string)
    requires Load(st, rawOrders, rawItems, rawRefunds, parse).Some?
    ensures Count(Bucket(Load(st, rawOrders, rawItems, rawRefunds, parse).value.amazonOrders, k), id) ==
      if id in OrderGroups(rawOrders) && k == Charged(OrderGroups(rawOrders)[id]) then 1 else 0
  {
    OrderIdsSpec(rawOrders);
    OrderBucketsPlacement(ItemsByOrder(rawItems, parse), st.orderTotals, OrderGroups(rawOrders), OrderIds(rawOrders), k, id);
  }
}
