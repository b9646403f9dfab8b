/**
 * The purchase records the Amazon matcher loads (order charge lines, items, refunds) and
 * its pure helpers: `nearbyDate`, `orderLink`, `formatAmazonDate`. Money columns are
 * integer cents, dates as parsed by date-fns are `ParsedDate`s.
 */
module AmazonRecords {
  import opened Wrappers
  import opened Text
  import opened Rows

  /** One line of the orders export: one charge of an order. */
  datatype RawOrder = RawOrder(orderId: string, orderDate: string, paymentInstrumentType: string, totalCharged: int)

  /** One line of the items export. `itemTotal` is the 'Item Total' column. */
  datatype RawItem = RawItem(orderId: string, orderDate: string, title: string, category: string, seller: string, itemTotal: int)

  /** One line of the refunds export. */
  datatype RawRefund = RawRefund(
    orderId: string, orderDate: string, title: string, category: string, seller: string,
    refundDate: string, refundAmount: int, refundTaxAmount: int)

  /**
   * An item after loading: the raw columns, `total` (the amount read at load time),
   * `date` (the parsed order date) and `originalPrice`, set only when diff spreading
   * rewrote `itemTotal`.
   */
  datatype Item = Item(
    orderId: string, orderDate: string, title: string, category: string, seller: string,
    itemTotal: int, total: int, date: ParsedDate, originalPrice: Option<int>)

  datatype Refund = Refund(
    orderId: string, orderDate: string, title: string, category: string, seller: string,
    refundDate: string, refundAmount: int, refundTaxAmount: int, date: ParsedDate)

  /** `{ ...current, total: extractAmount(current['Item Total']), date: parse(current['Order Date']) }` */
  function ToItem(raw: RawItem, parse: string -> ParsedDate): Item {
    Item(raw.orderId, raw.orderDate, raw.title, raw.category, raw.seller, raw.itemTotal, raw.itemTotal, parse(raw.orderDate), None)
  }

  function ToRefund(raw: RawRefund, parse: string -> ParsedDate): Refund {
    Refund(raw.orderId, raw.orderDate, raw.title, raw.category, raw.seller, raw.refundDate,
           raw.refundAmount, raw.refundTaxAmount, parse(raw.refundDate))
  }

  /** The refund bucket key: refund plus refund tax, in cents. */
  function RefundKey(raw: RawRefund): int {
    raw.refundAmount + raw.refundTaxAmount
  }

  /** The payment column marks an order paid (partly) with a gift card. */
  predicate PaidWithGiftCard(raw: RawOrder) {
    Contains(raw.paymentInstrumentType, "Gift Certificate/Card")
  }

  /** `nearbyDate`: `|differenceInDays(a, b)| < 10`; false when either date is invalid (NaN). */
  predicate NearbyDate(a: ParsedDate, b: ParsedDate) {
    a.Day? && b.Day? && -10 < a.day - b.day < 10
  }

  lemma NearbyDateSymmetric(a: ParsedDate, b: ParsedDate)
    ensures NearbyDate(a, b) == NearbyDate(b, a)
  {
  }

  const OrderUrlBase := "https://www.amazon.com/gp/" + "your-account/order-details" + "?ie=UTF8&orderID"

  /** `orderLink(orderId)`: the order's page on the vendor's site. */
  function OrderLink(orderId: string): (link: string)
    ensures |link| == |OrderUrlBase| + 1 + |orderId|
    ensures link[|OrderUrlBase| + 1..] == orderId
  {
    OrderUrlBase + "=" + orderId
  }

  /** Different orders get different links. */
  lemma OrderLinkInjective(a: string, b: string)
    requires OrderLink(a) == OrderLink(b)
    ensures a == b
  {
    assert a == OrderLink(a)[|OrderUrlBase| + 1..];
  }

  predicate OneLine(s: string) {
    forall i :: 0 <= i < |s| ==> s[i] != '\n'
  }

  lemma OneLineConcat(a: string, b: string)
    requires OneLine(a) && OneLine(b)
    ensures OneLine(a + b)
  {
  }

  /** An order link is one line of text when the order id is. */
  lemma OrderLinkOneLine(orderId: string)
    requires '\n' !in orderId
    ensures '\n' !in OrderLink(orderId)
  {
    assert OneLine("https://www.amazon.com/gp/");
    assert OneLine("your-account/order-details");
    assert OneLine("?ie=UTF8&orderID");
    OneLineConcat("https://www.amazon.com/gp/", "your-account/order-details");
    OneLineConcat("https://www.amazon.com/gp/" + "your-account/order-details", "?ie=UTF8&orderID");
    OneLineConcat(OrderUrlBase, "=");
    assert OneLine(orderId);
    OneLineConcat(OrderUrlBase + "=", orderId);
    assert OneLine(OrderLink(orderId));
  }

  /** `${x}` of `parts[i]`: JavaScript prints a missing array element as "undefined". */
  function PartOr(parts: seq<string>, i: nat): string {
    if i < |parts| then parts[i] else "undefined"
  }

  /**
   * `formatAmazonDate`: "MM/DD/YY" becomes "20YY-MM-DD". The date-fns `format(parse(..))`
   * round trip is taken to be the identity on such text.
   */
  function FormatAmazonDate(dateInput: string): string {
    var parts := Split(dateInput, '/');
    "20" + PartOr(parts, 2) + "-" + PartOr(parts, 0) + "-" + PartOr(parts, 1)
  }

  /** An order date "MM/DD/YY" is written to the ledger as "20YY-MM-DD". */
  lemma FormatAmazonDateOfOrderDate(mm: string, dd: string, yy: string)
    requires '/' !in mm && '/' !in dd && '/' !in yy
    ensures FormatAmazonDate(mm + "/" + dd + "/" + yy) == "20" + yy + "-" + mm + "-" + dd
  {
    var xs := [mm, dd, yy];
    assert Join(xs, "/") == mm + "/" + dd + "/" + yy by {
      assert Join(xs[1..], "/") == dd + "/" + yy by {
        assert xs[1..][1..] == [yy];
      }
    }
    SplitJoin(xs, '/');
  }
}
