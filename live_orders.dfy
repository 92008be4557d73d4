/**
 * The live order board: rows of the `orders` table normalised into orders,
 * the list kept current by change events, the order totals, the view of
 * orders that are not yet both paid and served, and the busy flags that
 * guard the two "mark done" actions.
 */
module LiveOrders {
  import opened Wrappers
  import Seqs
  import Mirror

  datatype LineItem = LineItem(name: string, category: string, price: int, quantity: int)

  /** The `iteminfo` column: a list that is already decoded, or its JSON text. */
  datatype ItemInfo = Decoded(items: seq<LineItem>) | Encoded(text: string)

  /** `JSON.parse` as far as the board uses it: the decoded item list, or None where it throws. */
  type Decoder = string -> Option<seq<LineItem>>

  /** A row of `orders` as the backend sends it; a missing or null flag column is None. */
  datatype RawOrder = RawOrder(
    id: int,
    createdAt: string,
    tableNo: int,
    paymentDone: Option<bool>,
    orderDone: Option<bool>,
    itemInfo: ItemInfo)

  /** A normalised order as the board keeps it. */
  datatype Order = Order(
    id: int,
    createdAt: string,
    tableNo: int,
    paymentDone: bool,
    orderDone: bool,
    items: seq<LineItem>)

  /**
   * `parseItemInfo`: text is decoded, a value that is not text is returned as
   * it is, and text that fails to decode yields the empty list instead of an error.
   */
  function ParseItemInfo(info: ItemInfo, decode: Decoder): (r: seq<LineItem>)
    ensures info.Decoded? ==> r == info.items
    ensures info.Encoded? && decode(info.text).None? ==> r == []
    ensures info.Encoded? && decode(info.text).Some? ==> r == decode(info.text).value
  {
    match info
    case Decoded(items) => items
    case Encoded(text) => decode(text).GetOr([])
  }

  /** `flag || false` on a boolean column: true exactly when the column holds true. */
  function Flag(b: Option<bool>): (r: bool)
    ensures r <==> b == Some(true)
  {
    b.GetOr(false)
  }

  /** `parseOrder` (and the identical mapping applied to the initial fetch). */
  function ParseOrder(raw: RawOrder, decode: Decoder): (o: Order)
    ensures o.id == raw.id && o.createdAt == raw.createdAt && o.tableNo == raw.tableNo
    ensures o.paymentDone <==> raw.paymentDone == Some(true)
    ensures o.orderDone <==> raw.orderDone == Some(true)
    ensures o.items == ParseItemInfo(raw.itemInfo, decode)
  {
    Order(raw.id, raw.createdAt, raw.tableNo, Flag(raw.paymentDone), Flag(raw.orderDone),
          ParseItemInfo(raw.itemInfo, decode))
  }

  /** The row an order would have been read from, with its items already decoded. */
  function AsRaw(o: Order): RawOrder {
    RawOrder(o.id, o.createdAt, o.tableNo, Some(o.paymentDone), Some(o.orderDone), Decoded(o.items))
  }

  /** Normalising loses nothing: an order read back from its own row is the same order, whatever the decoder. */
  lemma ParseOrderOfAsRaw(o: Order, decode: Decoder)
    ensures ParseOrder(AsRaw(o), decode) == o
  {
  }

  function OrderId(o: Order): int {
    o.id
  }

  // ----- derived views -----

  /**
   * `items.reduce((sum, item) => sum + item.price * item.quantity, 0)`, folded
   * from the left: 0 for no items, and never negative when no price or
   * quantity is.
   */
  function Total(items: seq<LineItem>): (t: int)
    ensures items == [] ==> t == 0
    ensures (forall i :: 0 <= i < |items| ==> items[i].price >= 0 && items[i].quantity >= 0) ==> t >= 0
    decreases |items|
  {
    if items == [] then 0
    else Total(items[..|items| - 1]) + items[|items| - 1].price * items[|items| - 1].quantity
  }

  /** The total of an order is additive over its item list, so it is the sum of price times quantity over every item. */
  lemma {:induction false} TotalConcat(a: seq<LineItem>, b: seq<LineItem>)
    ensures Total(a + b) == Total(a) + Total(b)
    decreases |b|
  {
    if b == [] {
      assert a + b == a;
    } else {
      var b' := b[..|b| - 1];
      assert (a + b)[..|a + b| - 1] == a + b';
      TotalConcat(a, b');
    }
  }

  /** The total of the empty order is 0, and of one item its price times quantity. */
  lemma TotalBase(x: LineItem)
    ensures Total([]) == 0
    ensures Total([x]) == x.price * x.quantity
  {
    assert [x][..0] == [];
  }

  datatype PricedOrder = PricedOrder(order: Order, total: int)

  /** `ordersWithTotals`: every order of the board, in board order, paired with its total. */
  function OrdersWithTotals(orders: seq<Order>): (r: seq<PricedOrder>)
    ensures |r| == |orders|
    ensures forall i :: 0 <= i < |r| ==> r[i].order == orders[i] && r[i].total == Total(orders[i].items)
  {
    seq(|orders|, i requires 0 <= i < |orders| => PricedOrder(orders[i], Total(orders[i].items)))
  }

  predicate Completed(o: Order) {
    o.paymentDone && o.orderDone
  }

  /**
   * `activeOrders`: the orders that are not both paid and served, with their
   * totals, in board order. No completed order is shown and every other one is.
   */
  function ActiveOrders(orders: seq<Order>): (r: seq<PricedOrder>)
    ensures |r| <= |orders|
    ensures forall i :: 0 <= i < |r| ==> !Completed(r[i].order) && r[i].order in orders && r[i].total == Total(r[i].order.items)
    ensures forall i :: 0 <= i < |orders| && !Completed(orders[i]) ==> PricedOrder(orders[i], Total(orders[i].items)) in r
    ensures forall v :: v in OrdersWithTotals(orders) ==>
      multiset(r)[v] == if Completed(v.order) then 0 else multiset(OrdersWithTotals(orders))[v]
    ensures Seqs.IsSubsequence(r, OrdersWithTotals(orders))
  {
    var priced := OrdersWithTotals(orders);
    var r := Seqs.Filter(priced, (v: PricedOrder) => !Completed(v.order));
    Seqs.FilterCounts(priced, (v: PricedOrder) => !Completed(v.order));
    assert forall i :: 0 <= i < |orders| ==> priced[i] == PricedOrder(orders[i], Total(orders[i].items));
    assert forall v :: v in priced ==> v.order in orders && v.total == Total(v.order.items);
    r
  }

  // ----- writes and the mutation gate -----

  /** The two writes the board issues: `update({payment_done: true})` and `update({order_done: true})`, keyed by id. */
  datatype OrderWrite = MarkPaymentDone(id: int) | MarkOrderDone(id: int)

  /** What a write does to one row of the remote table: flags only ever go from false to true, and only on the written id. */
  function ApplyWrite(o: Order, w: OrderWrite): (r: Order)
    ensures o.paymentDone ==> r.paymentDone
    ensures o.orderDone ==> r.orderDone
    ensures r.id == o.id && r.createdAt == o.createdAt && r.tableNo == o.tableNo && r.items == o.items
    ensures w.id != o.id ==> r == o
    ensures w.id == o.id ==> (w.MarkPaymentDone? ==> r.paymentDone) && (w.MarkOrderDone? ==> r.orderDone)
    ensures w.MarkPaymentDone? ==> r.orderDone == o.orderDone
    ensures w.MarkOrderDone? ==> r.paymentDone == o.paymentDone
  {
    match w
    case MarkPaymentDone(id) => if id == o.id then o.(paymentDone := true) else o
    case MarkOrderDone(id) => if id == o.id then o.(orderDone := true) else o
  }

  /** Once an order is completed no write returns it to the active view; the two writes together complete any order. */
  lemma CompletionIsPermanent(o: Order, w: OrderWrite)
    ensures Completed(o) ==> Completed(ApplyWrite(o, w))
    ensures Completed(ApplyWrite(ApplyWrite(o, MarkPaymentDone(o.id)), MarkOrderDone(o.id)))
  {
  }

  /** `processing[id]` as JavaScript reads it: a missing entry is falsy. */
  predicate Busy(m: map<int, bool>, id: int) {
    id in m && m[id]
  }

  class OrderBoard {
    const decode: Decoder
    var orders: seq<Order>
    var processingPayment: map<int, bool>
    var processingOrder: map<int, bool>

    constructor (decode: Decoder)
      ensures this.decode == decode
      ensures orders == [] && processingPayment == map[] && processingOrder == map[]
    {
      this.decode := decode;
      orders := [];
      processingPayment := map[];
      processingOrder := map[];
    }

    /** `fetchOrders`: on success every row is normalised, in the order received; on an error the list stays as it was. */
    method FetchOrders(response: Option<seq<RawOrder>>)
      modifies this`orders
      ensures response.None? ==> orders == old(orders)
      ensures response.Some? ==> |orders| == |response.value|
      ensures response.Some? ==> forall i :: 0 <= i < |orders| ==> orders[i] == ParseOrder(response.value[i], decode)
    {
      if response.Some? {
        var rows := response.value;
        orders := seq(|rows|, i requires 0 <= i < |rows| => ParseOrder(rows[i], decode));
      }
    }

    /** The realtime handler of the `orders` channel. */
    method ApplyChange(e: Mirror.Change<RawOrder>)
      modifies this`orders
      ensures e.Insert? ==> orders == old(orders) + [ParseOrder(e.row, decode)]
      ensures e.Update? ==> orders == Mirror.ReplaceKey(old(orders), OrderId, e.row.id, ParseOrder(e.row, decode))
      ensures e.Delete? ==> orders == Mirror.RemoveKey(old(orders), OrderId, e.oldId)
    {
      match e
      case Insert(row) =>
        orders := orders + [ParseOrder(row, decode)];
      case Update(row) =>
        orders := Mirror.ReplaceKey(orders, OrderId, row.id, ParseOrder(row, decode));
      case Delete(id) =>
        orders := Mirror.RemoveKey(orders, OrderId, id);
    }

    /** The "Mark Payment Done" button fires only when the order is unpaid and no payment request for it is in flight. */
    predicate PaymentOffered(o: Order)
      reads this
    {
      !o.paymentDone && !Busy(processingPayment, o.id)
    }

    /** The "Mark Order Complete" button fires only when the order is not served and no request for it is in flight. */
    predicate OrderOffered(o: Order)
      reads this
    {
      !o.orderDone && !Busy(processingOrder, o.id)
    }

    /** `handlePaymentDone` up to the request: the order's flag is raised, the write is issued, and the button is closed for that id. */
    method StartPaymentDone(orderId: int) returns (w: OrderWrite)
      modifies this`processingPayment
      ensures processingPayment == old(processingPayment)[orderId := true]
      ensures w == MarkPaymentDone(orderId)
      ensures forall o: Order :: o.id == orderId ==> !PaymentOffered(o)
    {
      processingPayment := processingPayment[orderId := true];
      w := MarkPaymentDone(orderId);
    }

    /** The `finally` of `handlePaymentDone`: the flag is lowered whether the request succeeded or failed; other ids keep theirs. */
    method FinishPaymentDone(orderId: int, succeeded: bool)
      modifies this`processingPayment
      ensures processingPayment == old(processingPayment)[orderId := false]
      ensures forall id :: id != orderId ==> Busy(processingPayment, id) == Busy(old(processingPayment), id)
    {
      processingPayment := processingPayment[orderId := false];
    }

    /** `handleOrderDone` up to the request. */
    method StartOrderDone(orderId: int) returns (w: OrderWrite)
      modifies this`processingOrder
      ensures processingOrder == old(processingOrder)[orderId := true]
      ensures w == MarkOrderDone(orderId)
      ensures forall o: Order :: o.id == orderId ==> !OrderOffered(o)
    {
      processingOrder := processingOrder[orderId := true];
      w := MarkOrderDone(orderId);
    }

    /** The `finally` of `handleOrderDone`. */
    method FinishOrderDone(orderId: int, succeeded: bool)
      modifies this`processingOrder
      ensures processingOrder == old(processingOrder)[orderId := false]
      ensures forall id :: id != orderId ==> Busy(processingOrder, id) == Busy(old(processingOrder), id)
    {
      processingOrder := processingOrder[orderId := false];
    }
  }
}
