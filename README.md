# amazon-pocket, modelled in Dafny

amazon-pocket tidies a personal ledger. Every transaction row goes through a rules
engine, and the engine runs an ordered list of plugins over it:

- **The Amazon plugin** loads the user's order, item and refund exports into lookup
  tables. It then explains card charges and credits as Amazon purchases or refunds.
  - A charge for a multi-item order is split into one row per item.
  - A charge that may have been paid with a gift card gets a note.
- **Four rule plugins** (name, category, label, note) test the payee, the original
  payee, the note, the amount or a custom predicate against a rule file. The first
  matching rule sets a field or adds tags.
- **The engine** deletes its scratch data from each row afterwards. It reports a row,
  tagged `ΔBot`, when some plugin matched and the row changed.

The model covers:

- both revisions of the Amazon plugin: the flat file the plugin list loads, and the later
  one in the `amazon.plugin` directory;
- the order-combination finder;
- `SimplePlugin` and its four subclasses;
- `RulesEngine.apply`, `addTag`, and the example category rule file.

How the model is built:

- **Plugins are objects.** They are Dafny classes whose fields the loader rebuilds.
- **Loops are loops.** Each loop of the source is a method with a loop. The method is
  proved equal to a specification function (`AmazonIndex.Load`, `AmazonMatch.Resolve`,
  `SimpleRules.Interpret`, `Engine.ProcessRow`, `Combination.Found`).
- **Promises are lemmas.** What the program promises is proved as lemmas about those
  functions.
- **Rows are values.** A function that edits a row in place returns the edited row.
- **Money is integer cents.** Dates are `ParsedDate` values. date-fns `parse` is a
  parameter of the plugin.

Modules:

| module | contents |
|---|---|
| `Rows` | the ledger row; `addTag` |
| `Text`, `Seqs`, `Wrappers` | string and sequence helpers |
| `JsSort` | a stable comparison sort, which is what `Array.prototype.sort` is since ES2019 |
| `AmazonRecords` | the export records; `nearbyDate`, `orderLink`, `formatAmazonDate` |
| `AmazonIndex` | `loadAmazonOrders`, as folds over the exports |
| `AmazonMatch` | `needsUpdate` of the Amazon plugin and the row updates it makes |
| `AmazonPluginRevision1`, `AmazonPluginRevision2` | the two plugin classes |
| `Combination`, `CombinationProofs` | `findCombination` and what its subset search finds |
| `EffectPlugins`, `SimpleRules`, `SimplePlugins` | the rule plugins |
| `CategoryRules` | the example rule file |
| `Engine` | the rules engine |

## Model

| member | source | states |
|---|---|---|
| Rows.AddTag | src/mutation-functions.ts:3-7 | The tag is present afterwards. If it was already there, the row is unchanged; otherwise it is appended at the end of the tags. Nothing but the tags changes, and a duplicate-free tag list stays duplicate-free. |
| Rows.AddTagIdempotent | src/mutation-functions.ts:3-7 | Adding a tag twice is the same as adding it once. |
| Rows.AddTagsEffect | src/mutation-functions.ts:3-7 | Adding several tags one by one: the old tags keep their places and stay first, and every added tag is present. No other tag appears and no duplicate is created. Only the tags change. |
| Rows.AddTagsAppendInOrder | src/mutation-functions.ts:3-7 | The tags appended after the old ones are a subsequence of the tags added, in the order given. |
| Rows.AddTags | src/plugins/label.plugin.ts:14 | The label plugin's loop: `addTag` once per label, in label order. What it does to the tags is stated by `Rows.AddTagsEffect` and `Rows.AddTagsAppendInOrder`. |
| Text.Lower | src/simple.plugin.ts:60 | `toLowerCase`: keeps the length and lower-cases each character on its own. |
| Text.LowerCharSpec | src/simple.plugin.ts:60 | A lower-cased character is never a capital. A character that is not a capital is kept, and a capital is changed. |
| Text.LowerIsLower | src/simple.plugin.ts:37 | Lower-cased text holds no capital, and text without capitals is its own lower case. |
| JsSort.Sort | src/plugins/amazon.plugin/findCombination.ts:25 | `Array.prototype.sort`: a stable sort under the comparator. `JsSort.SortPermutes`, `JsSort.SortSortsByKey` and `JsSort.SortIdentity` state what it returns. |
| JsSort.SortPermutes | src/plugins/amazon.plugin/findCombination.ts:25 | The stable sort returns a permutation of its input. |
| JsSort.SortIdentity | src/plugins/amazon.plugin.ts:86-88 | With a comparator that never answers "greater" (for example, one that always answers NaN), the sort returns its input unchanged. |
| JsSort.SortSortsByKey | src/plugins/amazon.plugin/findCombination.ts:25 | With the comparator `key(a) - key(b)`, the result is sorted by ascending key. |
| JsSort.InsertSorted | src/plugins/amazon.plugin/findCombination.ts:25 | Inserting into a list sorted by key keeps it sorted, and adds exactly that one element. |
| AmazonRecords.NearbyDate | src/plugins/amazon.plugin.ts:230-232 | Two dates are near when both are valid and fewer than ten days apart, in either direction. |
| AmazonRecords.NearbyDateSymmetric | src/plugins/amazon.plugin.ts:230-232 | The ten-day window is symmetric in its two dates. |
| AmazonRecords.OrderLink | src/plugins/amazon.plugin.ts:234-238 | The link is the fixed URL base, then `=`, then the order id, and it ends with the id. |
| AmazonRecords.OrderLinkInjective | src/plugins/amazon.plugin.ts:234-238 | Different order ids get different links. |
| AmazonRecords.OrderLinkOneLine | src/plugins/amazon.plugin.ts:234-238 | A link has no line break when its order id has none. |
| AmazonRecords.FormatAmazonDate | src/plugins/amazon.plugin.ts:240-246 | Rebuilds the order date from its '/'-separated parts; `AmazonRecords.FormatAmazonDateOfOrderDate` states the result. |
| AmazonRecords.FormatAmazonDateOfOrderDate | src/plugins/amazon.plugin.ts:240-246 | An order date "MM/DD/YY" is written to the ledger as "20YY-MM-DD". |
| AmazonIndex.Push | src/plugins/amazon.plugin.ts:20-31 | Pushing onto a bucket of a map of lists appends to that bucket only, and creates it when it is missing. |
| AmazonIndex.ItemsByOrder | src/plugins/amazon.plugin.ts:20-31 | Every order id in the items table has at least one item. |
| AmazonIndex.ItemsByOrderKeys | src/plugins/amazon.plugin.ts:20-31 | An order id is in the items table exactly when some item row carries it. |
| AmazonIndex.ItemsByOrderGroups | src/plugins/amazon.plugin.ts:20-31 | The items of an order are its item rows, converted, in file order. |
| AmazonIndex.ItemsWithIdAppend | src/plugins/amazon.plugin.ts:20-31 | Grouping distributes over concatenation of the item rows. |
| AmazonIndex.ItemsByOrderFresh | src/plugins/amazon.plugin.ts:20-31 | A freshly loaded item belongs to its group's order, has no original price, and its `total` equals its 'Item Total'. |
| AmazonIndex.OrderGroups | src/plugins/amazon.plugin.ts:33-44 | The order-group reduce: the order rows grouped by order id, in file order. `AmazonIndex.OrderIdsSpec` states its keys and that no group is empty. |
| AmazonIndex.GiftCardsAfter | src/plugins/amazon.plugin.ts:38-40 | The gift-card orders after the order-group reduce. `AmazonIndex.GiftCardsAfterSpec` states what it adds. |
| AmazonIndex.OrderIdsSpec | src/plugins/amazon.plugin.ts:33-44 | The order groups' keys, in first-seen order, have no duplicates. They are exactly the order ids of the order rows, and every group is non-empty. |
| AmazonIndex.GiftCardsAfterSpec | src/plugins/amazon.plugin.ts:33-44 | Gift-card orders are only added to. The ids stay distinct, and every order id with a gift-card payment row gets an entry. A new entry was not recorded before, and carries the parsed date of that order's first gift-card row. |
| AmazonIndex.GiftCardsAfterGrows | src/plugins/amazon.plugin.ts:33-44 | The entries already recorded stay first, unchanged. |
| AmazonIndex.GiftCardsAfterDistinct | src/plugins/amazon.plugin.ts:38-40 | The `!(id in this.giftCardOrders)` check keeps gift-card ids distinct. |
| AmazonIndex.GiftCardsAfterCovers | src/plugins/amazon.plugin.ts:38-40 | Every order with a gift-card row gets a gift-card entry. |
| AmazonIndex.GiftCardsAfterFirstRow | src/plugins/amazon.plugin.ts:38-40 | Each new gift-card entry comes from the first gift-card row of its order, with that row's parsed date. |
| AmazonIndex.JsRem | src/plugins/amazon.plugin.ts:209 | JavaScript `%`: the remainder is smaller than the divisor in size, and has the sign of the dividend. |
| AmazonIndex.JsRemMultiple | src/plugins/amazon.plugin.ts:209-211 | The difference minus the remainder is a multiple of the number of items, so the spread per item is exact. |
| AmazonIndex.IncrementsTotal | src/plugins/amazon.plugin.ts:207-220 | The per-item increments (the even share, with the remainder on the first item) add up to the whole difference. |
| AmazonIndex.IncrementsClosed | src/plugins/amazon.plugin.ts:213-214 | The increments of the first m items, in closed form. |
| AmazonIndex.SpreadPrefixSum | src/plugins/amazon.plugin.ts:213-219 | After spreading, the first m items cost their old prices plus the first m increments. |
| AmazonIndex.SpreadSum | src/plugins/amazon.plugin.ts:207-220 | Spreading a difference over an order's items raises their sum by exactly that difference. |
| AmazonIndex.Spread | src/plugins/amazon.plugin.ts:207-220 | Spreading keeps the number of items. |
| AmazonIndex.OrderStep | src/plugins/amazon.plugin.ts:47-60 | One step of the orders reduce fails exactly when the order has no items. Otherwise it keeps the items table's keys and leaves no order empty. |
| AmazonIndex.OrderBuckets | src/plugins/amazon.plugin.ts:46-62 | Every id placed in an amount bucket is an order with items, and the items table keeps its keys. |
| AmazonIndex.OrderBucketsFail | src/plugins/amazon.plugin.ts:46-62 | The orders reduce fails (the source throws reading `.reduce` of undefined) exactly when some order id has no items. |
| AmazonIndex.OrderBucketsPlacement | src/plugins/amazon.plugin.ts:58-59 | Each order id sits exactly once in the bucket of its charged total, and in no other bucket. |
| AmazonIndex.OrderBucketsItems | src/plugins/amazon.plugin.ts:47-57 | An order's total records its items' sum, the charge and their difference. Its items are spread by that difference when it is non-zero, and are left alone otherwise. |
| AmazonIndex.RefundPricesSpec | src/plugins/amazon.plugin.ts:64-77 | A refund bucket gets, appended in file order, the ids of the refund rows whose refund plus tax is its key. |
| AmazonIndex.IdsWithKeyAppend | src/plugins/amazon.plugin.ts:64-77 | Selecting ids by refund key distributes over concatenation. |
| AmazonIndex.RefundsAfter | src/plugins/amazon.plugin.ts:64-77 | The refunds reduce: each refund row stores its refund under its order id and appends the id to the bucket of its refund plus tax. |
| AmazonIndex.RefundIds | src/plugins/amazon.plugin.ts:64-77 | The order ids of the refund rows. |
| AmazonIndex.RefundIdsSpec | src/plugins/amazon.plugin.ts:64-77 | An id is among the refund ids exactly when some refund row carries it. |
| AmazonIndex.RefundKeys | src/plugins/amazon.plugin.ts:72 | After the refunds reduce, the stored refunds are keyed by the old keys and the refund rows' ids, and nothing else. |
| AmazonIndex.RefundOfLastRow | src/plugins/amazon.plugin.ts:72 | When row k is the last refund row of an id, that id's stored refund is row k's. |
| AmazonIndex.RefundKept | src/plugins/amazon.plugin.ts:72 | An id with no refund row keeps its stored refund, or stays absent. |
| AmazonIndex.LastRefundWins | src/plugins/amazon.plugin.ts:72 | The refund stored for an order id is its last refund row. An id without refund rows keeps its old entry, and has an entry exactly when it had one before. |
| AmazonIndex.RefundsAfterValid | src/plugins/amazon.plugin.ts:64-77 | Refund buckets stay non-empty, and every id in a bucket has a stored refund. |
| AmazonIndex.LoadStages | src/plugins/amazon.plugin.ts:15-78 | The load is the four reduces run in order. |
| AmazonIndex.Load | src/plugins/amazon.plugin.ts:15-78 | `loadAmazonOrders` as the four reduces in order, or a failure when the orders reduce throws. `AmazonIndex.LoadFails`, `AmazonIndex.LoadValid`, `AmazonIndex.LoadBalancesOrder` and `AmazonIndex.LoadBucketsOrder` state what it promises. |
| AmazonIndex.LoadFails | src/plugins/amazon.plugin.ts:15-78 | Loading fails exactly when some order row's id has no item rows. |
| AmazonIndex.LoadValid | src/plugins/amazon.plugin.ts:15-78 | After a load on a fresh plugin, every bucketed order has items, no refund bucket is empty, and every bucketed refund id has a stored refund. |
| AmazonIndex.LoadBalancesOrder | src/plugins/amazon.plugin.ts:46-62 | After a load, an order's items cost exactly what was charged for it. With a non-zero difference, each item keeps its other fields and its loaded price as `originalPrice`; with none, the loaded items are untouched. The order's total records the items' sum, the charge and the difference. |
| AmazonIndex.BucketsBalanceOrder | src/plugins/amazon.plugin.ts:46-62 | The same balance, stated on the orders reduce on its own. |
| AmazonIndex.TotalsAreCents | src/plugins/amazon.plugin.ts:199-201 | For freshly loaded items, summing `total` equals summing 'Item Total'. |
| AmazonIndex.LoadBucketsOrder | src/plugins/amazon.plugin.ts:46-62 | After a load, an order id sits once in the bucket of its charged total, and in no other. |
| AmazonMatch.ItemNote | src/plugins/amazon.plugin.ts:152-155 | The note starts with the title and ends with a blank line and the order link. The original-price paragraph sits in between exactly when the item was adjusted. |
| AmazonMatch.UpdateTags | src/plugins/amazon.plugin.ts:156-175 | The tags `createUpdateItem` adds: 'Amazon' always, the category when present, 'Adjustment' for an adjusted item, 'Split' for a split row, and nothing else. |
| AmazonMatch.UpdateItemSpec | src/plugins/amazon.plugin.ts:152-176 | `createUpdateItem` sets the note, payee, date, amount and shared category. It adds those tags with `addTag`: the old tags keep their places, and tags stay duplicate-free. |
| AmazonMatch.UpdateItemStages | src/plugins/amazon.plugin.ts:152-176 | The step-by-step update equals the field update followed by adding those tags in order. |
| AmazonMatch.UpdateItem | src/plugins/amazon.plugin.ts:152-176 | The updated row has a tag list. |
| AmazonMatch.UpdateItemFields | src/plugins/amazon.plugin.ts:152-176 | The updated row is a debit or credit of the given amount, payee the seller, with the item note. It keeps its split rows, is tagged 'Amazon', and tagged 'Split' when split. It carries 'Split' only if it did already, the category is 'Split', or it is split. |
| AmazonMatch.RefundUpdate | src/plugins/amazon.plugin.ts:139-144 | `createRefundUpdate`: the update of the stored refund, keeping the row's amount, then 'Refund'. `AmazonMatch.ResolveRefund` states the result. |
| AmazonMatch.PurchaseUpdate | src/plugins/amazon.plugin.ts:146-150 | `createPurchaseUpdate`: the update of one item, for a debit of its price. |
| AmazonMatch.PurchaseUpdateSpec | src/plugins/amazon.plugin.ts:146-150 | A purchase update is a debit of the item's price with the item's seller and note. It keeps the row's split rows and is tagged 'Amazon', and 'Split' only when the row was split, already tagged, or the item's category is 'Split'. |
| AmazonMatch.SplitOrder | src/plugins/amazon.plugin.ts:99-107 | The split branch: the row marked split, with one purchase update of a copy per item. |
| AmazonMatch.SplitOrderSpec | src/plugins/amazon.plugin.ts:99-107 | A split keeps the row's note and amount and marks it split. It has one split row per item; each is a debit of its item's price, with its seller and note, tagged 'Amazon' and 'Split'. |
| AmazonMatch.SplitRows | src/plugins/amazon.plugin.ts:103-107 | One split row per item. |
| AmazonMatch.WithParsedDate | src/plugins/amazon.plugin.ts:95 | The row gets shared data holding the parsed date, and nothing else changes. |
| AmazonMatch.PossibleMatches | src/plugins/amazon.plugin.ts:193-197 | The candidates are exactly the bucket's ids whose first item is within ten days of the date. |
| AmazonMatch.PossibleMatchesFirst | src/plugins/amazon.plugin.ts:193-197 | The first candidate is the first id of the bucket that is within the window, in bucket order. |
| AmazonMatch.FindBestMatch | src/plugins/amazon.plugin.ts:179-191 | `findBestMatch`: the first order of the row's amount bucket near its parsed date. `AmazonMatch.FindBestMatchSpec` states it. |
| AmazonMatch.FindBestMatchSpec | src/plugins/amazon.plugin/amazon.plugin.ts:212-228 | `findBestMatch` finds nothing exactly when no order in the bucket of the row's absolute amount is near its date. Otherwise it finds the first such order. |
| AmazonMatch.NearbyGiftCards | src/plugins/amazon.plugin.ts:129-137 | The possible gift-card orders are exactly those placed within ten days of the row's date. |
| AmazonMatch.GiftCardLines | src/plugins/amazon.plugin.ts:119 | One note line per possible order. |
| AmazonMatch.GiftCardNote | src/plugins/amazon.plugin.ts:119-121 | The header, then the order links, one per line. `AmazonMatch.GiftCardNoteLines` states its lines. |
| AmazonMatch.GiftCardNoteLines | src/plugins/amazon.plugin.ts:119-121 | The gift-card note is the header, then exactly one "• link" line per possible order, in order. |
| AmazonMatch.MentionsAmazon | src/plugins/amazon.plugin.ts:81 | The original payee, lower-cased, contains "amazon" or "amzn". |
| AmazonMatch.Guarded | src/plugins/amazon.plugin.ts:81-83 | The early return: a truthy note, or an original payee that does not mention Amazon. |
| AmazonMatch.Resolve | src/plugins/amazon.plugin.ts:80-127 | `needsUpdate` of the Amazon plugin: the guard, then refund, then matched order, then the gift-card fallback. The `AmazonMatch.Resolve…` lemmas state each branch. |
| AmazonMatch.ResolveMatched | src/plugins/amazon.plugin.ts:96-113 | A row that is neither guarded nor a refund, and has a matched order, resolves to a split of that order when it has several items, and to the purchase update of its one item otherwise. |
| AmazonMatch.ResolveGuard | src/plugins/amazon.plugin.ts:81-83 | A row with a note, or whose original payee mentions neither "amazon" nor "amzn" in any case, is neither matched nor changed. |
| AmazonMatch.ResolveRefund | src/plugins/amazon.plugin/amazon.plugin.ts:107-113 | A positive amount that keys a refund bucket resolves to the bucket's first id. The row keeps its amount and takes the stored refund's seller, title and date. It is tagged 'Amazon' and 'Refund'. |
| AmazonMatch.MatchedOrderHasItems | src/plugins/amazon.plugin.ts:96-99 | A matched order has items. |
| AmazonMatch.ResolveSplitOrder | src/plugins/amazon.plugin.ts:99-107 | A multi-item order marks the row as split, and the row keeps its note and amount. It gets one split row per item, in item order. Each split row is a debit of its item's price, with the item's seller and title, tagged 'Amazon' and 'Split'. |
| AmazonMatch.ResolveSingleItemOrder | src/plugins/amazon.plugin.ts:108-110 | A single-item order updates the row itself: a debit of the item's price, with the item's seller and title, tagged 'Amazon'. An unsplit row gets no 'Split' tag. |
| AmazonMatch.ResolveGiftCard | src/plugins/amazon.plugin.ts:115-126 | With no matched order, the fallback fires exactly for 'PURCHASE AUTHORIZED' payees with a gift-card order near the row's date. It writes the note listing those orders and adds 'PossibleGiftCard'. Otherwise the row only gains its parsed date. |
| AmazonMatch.ResolveUnmatchedKeepsRow | src/plugins/amazon.plugin.ts:80-127 | A row that is not matched differs from the input at most in its shared data. |
| AmazonMatch.NotedRowIsSettled | src/plugins/amazon.plugin.ts:81-83 | A row with a note is settled: resolving it matches and changes nothing. |
| AmazonMatch.UpdateItemSettled | src/plugins/amazon.plugin.ts:152-176 | An updated row has a note and keeps its split flag. |
| AmazonMatch.ResolveIdempotent | src/plugins/amazon.plugin.ts:80-127 | Resolving is idempotent: resolving a resolved row, or each of its split rows, again matches and changes nothing. |
| AmazonPluginRevision1.SortByIdDatesKeepsOrder | src/plugins/amazon.plugin.ts:86-88 | The comparator reads `a[0].date` on an order-id string, which is undefined, so every comparison is NaN. The refund and candidate sorts therefore return the ids in their order. |
| AmazonPluginRevision1.AmazonPlugin.constructor | src/plugins/amazon.plugin.ts:6-13 | A new plugin is named 'Amazon' and has every table empty. |
| AmazonPluginRevision1.AmazonPlugin.LoadAmazonOrders | src/plugins/amazon.plugin.ts:15-78 | Loading fails exactly when `AmazonIndex.Load` does. Otherwise the six tables are the ones it describes. |
| AmazonPluginRevision1.AmazonPlugin.LoadItems | src/plugins/amazon.plugin.ts:20-31 | The items reduce rebuilds the items table from the item rows. |
| AmazonPluginRevision1.AmazonPlugin.GroupOrders | src/plugins/amazon.plugin.ts:33-44 | The order-group reduce returns the groups and their first-seen order, and adds to the gift-card orders. |
| AmazonPluginRevision1.AmazonPlugin.BucketOrders | src/plugins/amazon.plugin.ts:46-62 | The orders reduce computes `AmazonIndex.OrderBuckets`: the totals, the spread items and the amount buckets. It fails when an order has no items. |
| AmazonPluginRevision1.AmazonPlugin.BucketOrder | src/plugins/amazon.plugin.ts:47-60 | One order of that reduce is one `OrderStep`. |
| AmazonPluginRevision1.AmazonPlugin.LoadRefunds | src/plugins/amazon.plugin.ts:64-77 | The refunds reduce rebuilds the stored refunds and appends to the refund buckets. |
| AmazonPluginRevision1.AmazonPlugin.GetItemsTotal | src/plugins/amazon.plugin.ts:199-201 | Returns the sum of the items' totals. |
| AmazonPluginRevision1.AmazonPlugin.GetOrderTotal | src/plugins/amazon.plugin.ts:203-205 | Returns the sum charged over an order's rows. |
| AmazonPluginRevision1.AmazonPlugin.SpreadOrderDiff | src/plugins/amazon.plugin.ts:207-220 | Replaces that order's items with the spread ones, and touches no other order. |
| AmazonPluginRevision1.AmazonPlugin.NeedsUpdate | src/plugins/amazon.plugin.ts:80-127 | Computes `AmazonMatch.Resolve`. The in-place sort of a refund bucket leaves the bucket as it was. |
| AmazonPluginRevision1.AmazonPlugin.SplitOrder | src/plugins/amazon.plugin.ts:99-107 | Marks the row split and builds one purchase update of a copy per item. |
| AmazonPluginRevision1.AmazonPlugin.FindPossibleGiftCards | src/plugins/amazon.plugin.ts:129-137 | Returns the gift-card orders near the row's parsed date. |
| AmazonPluginRevision1.AmazonPlugin.FindBestMatch | src/plugins/amazon.plugin.ts:179-191 | Returns the first near order in the amount bucket; the NaN sort changes nothing. |
| AmazonPluginRevision1.AmazonPlugin.GetPossibleMatches | src/plugins/amazon.plugin.ts:193-197 | Filters the bucket down to the near orders, in bucket order. |
| AmazonPluginRevision2.AmazonPlugin.constructor | src/plugins/amazon.plugin/amazon.plugin.ts:29-36 | A new plugin is named 'Amazon' and has every table empty. |
| AmazonPluginRevision2.AmazonPlugin.LoadAmazonOrders | src/plugins/amazon.plugin/amazon.plugin.ts:38-100 | Loading fails exactly when `AmazonIndex.Load` does. Otherwise the tables are the ones it describes. |
| AmazonPluginRevision2.AmazonPlugin.LoadItems | src/plugins/amazon.plugin/amazon.plugin.ts:43-54 | The items reduce rebuilds the items table from the item rows. |
| AmazonPluginRevision2.AmazonPlugin.GroupOrders | src/plugins/amazon.plugin/amazon.plugin.ts:56-67 | The order-group reduce returns the groups and their first-seen order, and adds to the gift-card orders. |
| AmazonPluginRevision2.AmazonPlugin.BucketOrders | src/plugins/amazon.plugin/amazon.plugin.ts:69-85 | The orders reduce computes `AmazonIndex.OrderBuckets`. |
| AmazonPluginRevision2.AmazonPlugin.BucketOrder | src/plugins/amazon.plugin/amazon.plugin.ts:70-84 | One order of that reduce is one `OrderStep`. |
| AmazonPluginRevision2.AmazonPlugin.LoadRefunds | src/plugins/amazon.plugin/amazon.plugin.ts:87-99 | The refunds reduce rebuilds the stored refunds and appends to the refund buckets. |
| AmazonPluginRevision2.AmazonPlugin.GetItemsTotal | src/plugins/amazon.plugin/amazon.plugin.ts:236-238 | Returns the sum of the items' totals. |
| AmazonPluginRevision2.AmazonPlugin.GetOrderTotal | src/plugins/amazon.plugin/amazon.plugin.ts:240-242 | Returns the sum charged over an order's rows. |
| AmazonPluginRevision2.AmazonPlugin.SpreadOrderDiff | src/plugins/amazon.plugin/amazon.plugin.ts:244-257 | Replaces that order's items with the spread ones, and touches no other order. |
| AmazonPluginRevision2.AmazonPlugin.NeedsUpdate | src/plugins/amazon.plugin/amazon.plugin.ts:102-148 | Computes `AmazonMatch.Resolve`, without reading or writing the tables. |
| AmazonPluginRevision2.AmazonPlugin.SplitOrder | src/plugins/amazon.plugin/amazon.plugin.ts:120-128 | Marks the row split and builds one purchase update of a copy per item. |
| AmazonPluginRevision2.AmazonPlugin.FindPossibleGiftCards | src/plugins/amazon.plugin/amazon.plugin.ts:150-161 | Returns the gift-card orders near the row's parsed date, or none when the row has no parsed date. |
| AmazonPluginRevision2.AmazonPlugin.FindBestMatch | src/plugins/amazon.plugin/amazon.plugin.ts:212-228 | Returns the first near order in the amount bucket, or none without a parsed date. |
| AmazonPluginRevision2.AmazonPlugin.GetPossibleMatches | src/plugins/amazon.plugin/amazon.plugin.ts:230-234 | Filters the bucket down to the near orders, in bucket order. |
| Combination.SumCentsAppend | src/plugins/amazon.plugin/findCombination.ts:16 | The cent sum of a list with one more item grows by that item's cents. |
| Combination.AtMost | src/plugins/amazon.plugin/findCombination.ts:24 | Keeps exactly the items not dearer than the target. |
| Combination.ValidItemsSpec | src/plugins/amazon.plugin/findCombination.ts:22-25 | `validItems` holds exactly the items not dearer than the target, with multiplicity, in ascending cents. |
| Combination.SubsetSumBase | src/plugins/amazon.plugin/findCombination.ts:50-68 | The recursive search appends to `options` exactly the subsets of `Found`, in push order. |
| Combination.SubsetSumRound | src/plugins/amazon.plugin/findCombination.ts:63-67 | One round of the loop pushes exactly the subsets found by choosing the i-th number next. |
| Combination.SubsetSum | src/plugins/amazon.plugin/findCombination.ts:47-73 | `subsetSum` returns the subsets of `Found`. |
| Combination.Found | src/plugins/amazon.plugin/findCombination.ts:50-68 | What `subsetSumBase` pushes from one call: the partial subset when it hits the target, nothing when it overshoots, otherwise the loop's pushes. `CombinationProofs.FoundSound` and `CombinationProofs.ChoicesExact` state it. |
| Combination.FoundFrom | src/plugins/amazon.plugin/findCombination.ts:63-67 | The pushes of the loop from index i on. |
| Combination.FindCombination | src/plugins/amazon.plugin/findCombination.ts:12-43 | As written: the whole list when it sums to the charge. Otherwise, when some item alone costs the charge, the first item of the list, whatever it costs. |
| Combination.FirstOfCents | src/plugins/amazon.plugin/findCombination.ts:27 | The item returned costs the target and is in the list. |
| Combination.FindCombinationFixed | src/plugins/amazon.plugin/findCombination.ts:12-43 | As intended: the whole list when it sums to the charge; otherwise the first item that alone costs the charge. |
| CombinationProofs.FoundSound | src/plugins/amazon.plugin/findCombination.ts:50-68 | Every recorded subset sums to the target and extends the partial subset it started from. |
| CombinationProofs.FoundFromSound | src/plugins/amazon.plugin/findCombination.ts:63-67 | The same, for the pushes of the loop from index i on. |
| CombinationProofs.NothingForNonPositiveTarget | src/plugins/amazon.plugin/findCombination.ts:53-61 | With no partial subset and a target of zero or less, nothing is recorded. |
| CombinationProofs.SubsetSumIsChoices | src/plugins/amazon.plugin/findCombination.ts:47-73 | The search records the items at the position lists of `Choices`, in order. |
| CombinationProofs.FoundIsChoices | src/plugins/amazon.plugin/findCombination.ts:50-68 | The item-level search and the position-level search record the same subsets, in the same order. |
| CombinationProofs.FoundFromIsChoicesFrom | src/plugins/amazon.plugin/findCombination.ts:63-67 | The same correspondence, for the loop from index j on. |
| CombinationProofs.ChoicesExact | src/plugins/amazon.plugin/findCombination.ts:50-68 | From a partial choice below the target, the search records each completion exactly once, and nothing else. |
| CombinationProofs.ChoicesFromExact | src/plugins/amazon.plugin/findCombination.ts:63-67 | The same count, for the loop from index j on. |
| CombinationProofs.ChoicesFromScratch | src/plugins/amazon.plugin/findCombination.ts:47-73 | Each increasing position list that reaches the target, with every proper prefix below it, is chosen exactly once. No other list is chosen. |
| CombinationProofs.SubsetSumRecordsEachChoiceOnce | src/plugins/amazon.plugin/findCombination.ts:47-73 | `subsetSum` records exactly the completing position lists, each once. |
| CombinationProofs.SubsetSumFindsEverySubsetOnce | src/plugins/amazon.plugin/findCombination.ts:47-73 | For items of positive cents, every increasing choice of positions summing to the target is found exactly once. |
| CombinationProofs.PrefixSumBelow | src/plugins/amazon.plugin/findCombination.ts:59-61 | For positive prices, a proper prefix of a choice sums below the whole. |
| CombinationProofs.PicksPrefix | src/plugins/amazon.plugin/findCombination.ts:66 | Picking a prefix of the positions gives the prefix of the picked items. |
| CombinationProofs.ExtendsByNext | src/plugins/amazon.plugin/findCombination.ts:63-67 | A completion of the choice extended by position j is a completion from j. |
| CombinationProofs.ExtendsCases | src/plugins/amazon.plugin/findCombination.ts:63-67 | A completion from j either takes j next or is a completion from j + 1. |
| CombinationProofs.FindCombinationSearchOutcome | src/plugins/amazon.plugin/findCombination.ts:31-42 | Exactly one recorded subset is returned as it is. None, or several (the ambiguous case), both give undefined. |
| CombinationProofs.FindCombinationSearchSound | src/plugins/amazon.plugin/findCombination.ts:31-39 | Whatever the search returns sums to the charge. |
| CombinationProofs.SingletonShortcutPicksFirstItem | src/plugins/amazon.plugin/findCombination.ts:27-29 | As written: items of 500 and 1000 cents and a charge of 1000 cents return the 500-cent item, which does not cost the charge. |
| CombinationProofs.FindCombinationFixedSound | src/plugins/amazon.plugin/findCombination.ts:12-43 | Whatever the corrected finder returns costs exactly the charge. |
| CombinationProofs.Picks | src/plugins/amazon.plugin/findCombination.ts:66 | One item is picked per position. |
| EffectPlugins.BaseUpdateIsNoOp | src/simple.plugin.ts:45 | The base `updateRow` changes nothing. |
| EffectPlugins.FieldUpdates | src/plugins/category.plugin.ts:12-14 | The category, name and note plugins each set their one field (category title, payee, note) to the new value and leave every other field alone. |
| EffectPlugins.LabelUpdate | src/plugins/label.plugin.ts:13-15 | A label rule leaves every label present and keeps the old tags first. The new tags come in label order, with no duplicates and nothing else added. Only the tags change. |
| EffectPlugins.AddTagsPresent | src/plugins/label.plugin.ts:13-15 | Adding labels that are all present already changes nothing. |
| EffectPlugins.UpdateRowIdempotent | src/plugins/label.plugin.ts:13-15 | For every plugin, applying the same new value twice is applying it once. |
| SimpleRules.Patched | src/example-rules/category.rules.ts:3-12 | A custom predicate's writes leave the tags alone. |
| SimpleRules.ScanTypes | src/simple.plugin.ts:13-26 | Scanning one rule's fields leaves the row changed, if at all, only in the fields a custom predicate may write. |
| SimpleRules.StringMatches | src/simple.plugin.ts:53-68 | `stringMatch`: the field is truthy and, lower-cased, contains one of the options. |
| SimpleRules.Test | src/simple.plugin.ts:47-77 | `getRuleFunction` applied: the custom predicate, `amountMatch` (always undefined) or `stringMatch`, for one field of a rule. |
| SimpleRules.ScanRules | src/simple.plugin.ts:11-27 | The rule that stops the scan is a valid index from the starting one on. |
| SimpleRules.ScanTypesFirst | src/simple.plugin.ts:13-26 | Within a rule whose custom predicate is quiet when it answers false, the scan stops at the first field, in `types` order, that matches, with that field's outcome. If none matches, the row is unchanged. |
| SimpleRules.ScanTypesFires | src/simple.plugin.ts:13-26 | A rule's scan answers true exactly when some field of the rule matches. |
| SimpleRules.FirstFiringSpec | src/simple.plugin.ts:11-27 | The reference answer: the least index of a rule that fires, or none exactly when no rule fires. |
| SimpleRules.ScanRulesFirst | src/simple.plugin.ts:11-27 | First match wins: the scan over the rules stops at the first rule that fires. |
| SimpleRules.ScanRulesStep | src/simple.plugin.ts:11-27 | A rule that fires stops the scan; one that does not passes the row on unchanged. |
| SimpleRules.Interpret | src/simple.plugin.ts:10-28 | `needsUpdate` of a rule plugin: the scan of the rules, then the first firing rule's new value applied when truthy. `SimpleRules.InterpretNoMatch` and `SimpleRules.InterpretFirstMatch` state it. |
| SimpleRules.InterpretNoMatch | src/simple.plugin.ts:10-28 | A row that no rule matches is returned exactly as it was, and `needsUpdate` is falsy. |
| SimpleRules.InterpretFirstMatch | src/simple.plugin.ts:10-28 | When rule i is the first that fires, `needsUpdate` is true. Rule i's new value is applied once, and only when it is truthy. |
| SimpleRules.AmountOnlyRuleNeverFires | src/simple.plugin.ts:70-73 | `amountMatch` drops its comparison, so a rule keyed only by amount never matches. |
| SimpleRules.LowerAll | src/simple.plugin.ts:37 | Lower-casing the options with `Text.Lower` keeps their number. |
| SimpleRules.LowerAllIdempotent | src/simple.plugin.ts:37 | Lower-casing lower-cased options changes nothing. |
| SimpleRules.Prepared | src/simple.plugin.ts:30-43 | Preparing keeps the number of rules (string options are lower-cased with `Text.Lower`). |
| SimpleRules.PreparedSpec | src/simple.plugin.ts:30-43 | Preparing keeps each rule in its place, with the same fields, amount, custom predicate and new value. Every string option goes through `Text.Lower`, so afterwards no option holds a capital that lower-casing covers. |
| SimpleRules.PreparedIdempotent | src/simple.plugin.ts:30-43 | Preparing prepared rules changes nothing. |
| SimpleRules.PreparedMatchIgnoresCase | src/simple.plugin.ts:53-68 | A non-empty field that contains an option as written still matches once the options are prepared, because `Text.Lower` keeps containment. |
| SimpleRules.PreparedMatchCaseBlind | src/simple.plugin.ts:53-68 | Fields that agree once lower-cased with `Text.Lower` match the same options. |
| SimpleRules.AccentedOptionMatches | src/simple.plugin.ts:37 | A capital outside ASCII is lower-cased too: the option 'CAFÉ' becomes 'café' and matches the payee "Café Roma". |
| SimplePlugins.RulesPaths | src/simple.plugin.ts:31 | Each concrete plugin loads the rule file named after it in lower case. |
| SimplePlugins.SimplePlugin.constructor | src/plugins/label.plugin.ts:8-11 | A concrete plugin has its name and effect, and holds its rule file prepared. |
| SimplePlugins.SimplePlugin.PrepareRules | src/simple.plugin.ts:30-43 | The loops compute `Prepared` of the rule file, lower-casing string options with `Text.Lower`, and the plugin stays valid. |
| SimplePlugins.SimplePlugin.NeedsUpdate | src/simple.plugin.ts:10-28 | The two nested loops with their early return compute `Interpret`. |
| SimplePlugins.SimplePlugin.RuleFunction | src/simple.plugin.ts:47-51 | Dispatches to `amountMatch` or `customMatch` for those types, and to `stringMatch` otherwise, giving `Test`'s outcome. |
| SimplePlugins.SimplePlugin.StringMatch | src/simple.plugin.ts:53-68 | True exactly when the field is truthy and, lower-cased with `Text.Lower`, contains one of the options. |
| SimplePlugins.SimplePlugin.AmountMatch | src/simple.plugin.ts:70-73 | Always falsy. |
| SimplePlugins.SimplePlugin.UpdateRow | src/plugins/label.plugin.ts:13-15 | Each subclass's `updateRow`, with the label plugin's loop of `addTag`. |
| EffectPlugins.UpdateRow | src/plugins/category.plugin.ts:12-14 | Each subclass's `updateRow`: set the category title, payee or note, add the labels, or (base class) nothing. `EffectPlugins.FieldUpdates` and `EffectPlugins.LabelUpdate` state it. |
| CategoryRules.ICloudPlan | src/example-rules/category.rules.ts:3-12 | The custom predicate answers true exactly for a case-sensitive "ITUNES" original payee with an amount of -3.18. |
| CategoryRules.PreparedRules | src/example-rules/category.rules.ts:1-18 | Prepared, the file is the custom rule, then an "itunes" rule. Both suit the category plugin, and both are quiet. |
| CategoryRules.ICloudChargeIsOnlineServices | src/example-rules/category.rules.ts:2-13 | The iCloud charge is filed under 'Online Services' with the plan as its note. The entertainment rule is never reached. |
| CategoryRules.OtherITunesChargeIsEntertainment | src/example-rules/category.rules.ts:14-17 | Any other charge whose original payee mentions iTunes, in any case, is filed under 'Entertainment', and nothing else changes. |
| CategoryRules.NonITunesChargeIsUnmatched | src/example-rules/category.rules.ts:1-18 | A charge that does not mention iTunes in any case matches no rule and is left unchanged. |
| Engine.ResolveReady | src/plugins/amazon.plugin.ts:80-127 | The Amazon plugin leaves a view with tags and shared data. Any split rows it creates have both too. |
| Engine.InterpretReady | src/simple.plugin.ts:10-28 | A rule plugin leaves a view with tags and shared data, and keeps its split rows. |
| Engine.RunPlugin | src/rules.engine.ts:19 | `plugin.needsUpdate(view)` keeps the view ready for the next plugin. |
| Engine.RunItems | src/rules.engine.ts:18-22 | The plugin runs over each split row in place, keeping their number. |
| Engine.RunViews | src/rules.engine.ts:18-22 | One plugin over the row's views keeps the row ready. |
| Engine.RunPlugins | src/rules.engine.ts:17-23 | The plugins in order keep the row ready. |
| Engine.ProcessRowSpec | src/rules.engine.ts:8-30 | A processed row has its shared data deleted and a tag list. It is reported exactly when some plugin matched and the row differs from the row as it came in, and it then carries 'ΔBot'. A row not reported gets nothing beyond that bookkeeping. |
| Engine.TaglessMatchIsReported | src/rules.engine.ts:13-15 | A matched row that came in without a tag list is always reported, because the engine gave it one. |
| Engine.RunPluginUnmatched | src/rules.engine.ts:17-23 | A plugin that does not match a row without split rows changes only its shared data. |
| Engine.RunPluginsUnmatched | src/rules.engine.ts:17-23 | When no plugin matches, the row comes back as it went in, shared data aside. |
| Engine.UnmatchedRowIsKept | src/rules.engine.ts:8-30 | Nothing else changes: an unmatched row is not reported, and comes back with only a tag list added and no shared data. |
| Engine.ProcessRow | src/rules.engine.ts:8-30 | One row through the engine: the plugins over its views, the shared data deleted, then 'ΔBot' when some plugin matched and the row changed. `Engine.ProcessRowSpec` states it. |
| Engine.Processed | src/rules.engine.ts:8-31 | Processing keeps the number of rows. |
| Engine.UpdatesSpec | src/rules.engine.ts:27-33 | The updates are a subsequence of the processed rows, in row order. Each update carries 'ΔBot' and has no shared data. |
| Engine.Updates | src/rules.engine.ts:7-33 | The rows `apply` reports, in row order. `Engine.UpdatesSpec` states them. |
| Engine.RulesEngine.constructor | src/rules.engine.ts:4 | The engine holds the plugin list. |
| Engine.RulesEngine.Specs | src/rules.engine.ts:4 | One plugin description per plugin. |
| Engine.RulesEngine.Apply | src/rules.engine.ts:6-34 | Every row of the array is processed in place, in order. The reported rows are returned in order, and the plugins' tables are as they were. |
| Engine.RulesEngine.ProcessOne | src/rules.engine.ts:8-30 | The body of the row loop computes `ProcessRow`. |
| Engine.RulesEngine.ProcessAt | src/rules.engine.ts:8-30 | One pass of the row loop: row i becomes `ProcessRow` of its old value, written back in place; no other row changes, and the plugins' descriptions stay as they were. |
| Engine.RulesEngine.RunPluginsOn | src/rules.engine.ts:17-23 | The plugin loop computes `RunPlugins`. |
| Engine.RulesEngine.RunViewsOf | src/rules.engine.ts:18-22 | The views loop computes `RunViews`, and leaves the plugin object unchanged. |
| Engine.RulesEngine.RunOne | src/rules.engine.ts:19 | Dispatches `needsUpdate` to the plugin's class. |
| Engine.NoEmptyIdsSortsSafely | src/plugins/amazon.plugin.ts:86-88 | Without empty order ids, none of the first revision's sorts throws. |

## Left out

- Reading the CSV exports, the rule files (`require`) and the ledger is left out. The exports are parameters of `LoadAmazonOrders`. The rule files are a map from path to rules, given to the plugin constructor. The ledger rows are the engine's input array.
- date-fns `parse`, `format` and `differenceInDays` are not modelled as code. Parsing is a function parameter; a date is a day number or invalid. `format(parse(..))` in `formatAmazonDate` is taken to be the identity on the rebuilt "20YY-MM-DD" text.
- Money is integer cents, so floating point, `toFixed` and `Math.round` are not modelled. The category rule's `-3.18` is -318 cents. Amount-bucket and refund-bucket keys are cents. The source keys them by the text of `toFixed(2)` and of a JavaScript number, and looks them up by the row's amount. The model takes a key and an amount of the same number of cents to meet.
- Rows are values. A function that edits a row in place returns the edited row, so aliasing between rows is not modelled. This matters little because split rows are JSON deep copies, and the engine writes each processed row back.
- The engine compares `JSON.stringify` of the row before and after; the model compares the row values. The model's row carries the fields the plugins read or write; other ledger columns are left out.
- A custom rule predicate is a function returning a truthy flag together with the payee, note and category title it leaves behind. Custom predicates that write other fields are not modelled.
- `Engine.RulesEngine.Apply` requires split rows already present in the input to have tags and shared data. The source does not check this.
- `Engine.RulesEngine.Apply` requires loaded Amazon tables without an empty order id, because the first revision's sort throws on an empty id.
- A load that throws part way (an order without items) leaves the source's tables half rebuilt. The model reports the failure and says nothing about those tables.
- A second load rebuilds the items, orders and stored refunds, but only adds to the totals, gift-card orders and refund buckets. Refund buckets can then name ids whose stored refund is gone. `AmazonIndex.LoadValid` is proved for the first load only.
- The order of `Object.keys` is the order in which keys are first inserted; order ids are not integer-like strings.
- `console.log` of ambiguous combinations is left out.
- `async` on `apply` is left out: nothing is awaited in it.
- The engine deletes the shared data on the row itself, not on its split rows. The model does the same, so split rows keep theirs.
- The shared-data key `amazonCateogry`, misspelt in the source, is the field `amazonCategory`. Nothing reads it.
- One order can explain several charges: nothing records which orders were already matched.
- An order placed after the charge is not excluded: the ten-day window reaches both ways.
- Same-amount refunds and candidate orders are not ranked by date: the later revision takes the first in file order, and the first revision's sort leaves them in file order.
- Several exact combinations make `findCombination` return undefined, the same as none.
- `findCombination` is not called by either matcher.
- Order groups are keyed by order id only, not by ship date.
- Text.Lower: `toLowerCase` is modelled for the capitals of ASCII, Latin-1, Latin Extended-A, basic Greek and basic Cyrillic. Other scripts are left unchanged, Σ always becomes σ (never the final ς), and İ is left unchanged rather than given its two-character lower case.
- SimpleRules.LowerAll: lower-cases options with `Text.Lower`, so its case folding has the coverage limits stated for `Text.Lower`.
- SimpleRules.Prepared: lower-cases string options with `Text.Lower`, with the same coverage limits.
- SimpleRules.PreparedSpec: "lower case" means no capital that `Text.Lower` covers, with the same coverage limits.
- SimplePlugins.SimplePlugin.PrepareRules: lower-cases string options with `Text.Lower`, with the same coverage limits.
- SimplePlugins.SimplePlugin.StringMatch: lower-cases the field with `Text.Lower`, with the same coverage limits.
- SimpleRules.PreparedMatchIgnoresCase: holds for lower-casing as `Text.Lower` models it, with the same coverage limits.
- SimpleRules.PreparedMatchCaseBlind: holds for lower-casing as `Text.Lower` models it, with the same coverage limits.
- The plugin list (`src/plugins/index.ts`) is not a member. It orders the plugins amazon, name, category, label, note; `Engine.RulesEngine` takes any list.
- `pocket.service.ts`, the export scrapers and the command-line entry points are not part of this model.

## Findings

| source | as written | input that shows it | evidently intended | confidence | as-written member | corrected member |
|---|---|---|---|---|---|---|
| src/plugins/amazon.plugin/findCombination.ts:27-29 | when some item alone costs the charge, returns `[items[0]]`, the first item of the unsorted list | items of $5.00 and $10.00, charge $10.00: returns the $5.00 item | return the item that costs the charge | not executed | CombinationProofs.SingletonShortcutPicksFirstItem | Combination.FindCombinationFixed |
