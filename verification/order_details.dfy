/**
  The data side of the order-details page (src/pages/OrderDetails.tsx):
  finding the order in the stored list, turning it into the displayed
  record (rupee strings, one-line address), the per-line subtotals and
  the invoice read back from the displayed total.
 */
module OrderDetails {
  import opened Wrappers
  import opened Money
  import opened Invoice
  import opened Seqs

  /** A stored delivery address; `addressLine2` may be missing or empty. */
  datatype Address = Address(
    addressLine1: string,
    addressLine2: Option<string>,
    city: string,
    state: string,
    pincode: string,
    phone: Option<string>)

  /** A stored order line; the unit price is a whole number of paise. */
  datatype StoredItem = StoredItem(name: string, quantity: int, pricePaise: nat)

  /** A stored order, as checkout saved it; `totalPaise` is the items subtotal. */
  datatype StoredOrder = StoredOrder(
    internalId: string,
    orderNumber: string,
    createdAt: string,
    totalPaise: nat,
    status: string,
    items: seq<StoredItem>,
    deliveryAddress: Option<Address>,
    paymentMethod: Option<string>,
    orderNotes: Option<string>)

  /** A displayed order line: the price is the text `₹<amount with two decimals>`. */
  datatype ItemView = ItemView(name: string, quantity: int, price: string)

  /** The record the page displays. */
  datatype OrderView = OrderView(
    id: string,
    date: string,
    total: string,
    status: string,
    items: seq<ItemView>,
    deliveryAddress: Option<string>,
    paymentMethod: Option<string>,
    phoneNumber: Option<string>,
    orderNotes: Option<string>)

  /** What the page does after the lookup: show the order, or navigate elsewhere. */
  datatype Outcome = Show(order: OrderView) | Navigate(path: string)

  /** Where the page goes when the order is not found. */
  const OrdersPath: string := "/orders"

  /** The order matches on its order number or on its internal id. */
  predicate MatchesId(o: StoredOrder, orderId: string) {
    o.orderNumber == orderId || o.internalId == orderId
  }

  /**
    The first stored order matching either identifier, scanning in list order.
    This is `Seqs.Find` with the `MatchesId` test; it is kept as a loop so that the
    lookup the page performs on load has an executable form, and
    `LookupIsFind` shows that its contract pins the result to `Seqs.Find`.
   */
  method LookupOrder(orders: seq<StoredOrder>, orderId: string) returns (r: Option<StoredOrder>)
    ensures r.None? <==> forall i :: 0 <= i < |orders| ==> !MatchesId(orders[i], orderId)
    ensures r.Some? ==> exists i :: 0 <= i < |orders| && orders[i] == r.value && MatchesId(orders[i], orderId)
                                    && forall j :: 0 <= j < i ==> !MatchesId(orders[j], orderId)
  {
    var k := 0;
    while k < |orders|
      invariant 0 <= k <= |orders|
      invariant forall j :: 0 <= j < k ==> !MatchesId(orders[j], orderId)
    {
      if MatchesId(orders[k], orderId) {
        return Some(orders[k]);
      }
      k := k + 1;
    }
    return None;
  }

  /** A result meeting `LookupOrder`'s contract is the one `Seqs.Find` returns for the same test. */
  lemma LookupIsFind(orders: seq<StoredOrder>, orderId: string, r: Option<StoredOrder>)
    requires r.None? <==> forall i :: 0 <= i < |orders| ==> !MatchesId(orders[i], orderId)
    requires r.Some? ==> exists i :: 0 <= i < |orders| && orders[i] == r.value && MatchesId(orders[i], orderId)
                                     && forall j :: 0 <= j < i ==> !MatchesId(orders[j], orderId)
    ensures r == Find(orders, (o: StoredOrder) => MatchesId(o, orderId))
  {
  }

  /** The second address line is used only when it is present and non-empty. */
  predicate HasSecondLine(a: Address) {
    a.addressLine2.Some? && a.addressLine2.value != ""
  }

  /**
    The one-line address: first line, then the second line when it is
    present and non-empty, then city, state and pincode, separated by commas
    (a space before the pincode).
   */
  function FormatAddressLine(a: Address): (r: string)
    ensures |r| == |a.addressLine1| + |a.city| + |a.state| + |a.pincode| + 5
                   + (if HasSecondLine(a) then |a.addressLine2.value| + 2 else 0)
    ensures r[..|a.addressLine1| + 2] == a.addressLine1 + ", "
    ensures r[|r| - |a.pincode|..] == a.pincode
    ensures r[|r| - (|a.city| + |a.state| + |a.pincode| + 3)..] == a.city + ", " + a.state + " " + a.pincode
  {
    var head := a.addressLine1 + ", ";
    var second := if HasSecondLine(a) then a.addressLine2.value + ", " else "";
    var tail := a.city + ", " + a.state + " " + a.pincode;
    var r := head + second + tail;
    assert r[..|head|] == head;
    assert r[|r| - |a.pincode|..] == a.pincode;
    assert r[|r| - |tail|..] == tail;
    r
  }

  /** The displayed address: absent exactly when the order has no delivery address. */
  function FormatAddress(address: Option<Address>): (r: Option<string>)
    ensures r.None? <==> address.None?
    ensures address.Some? ==> r == Some(FormatAddressLine(address.value))
  {
    match address
    case None => None
    case Some(a) => Some(FormatAddressLine(a))
  }

  /**
    The second line appears, followed by `, `, exactly when it is present
    and non-empty; otherwise the text is the one without a second line.
   */
  lemma SecondLineInsertedOnlyWhenPresent(a: Address)
    ensures var without := FormatAddressLine(a.(addressLine2 := None));
            var prefix := a.addressLine1 + ", ";
            if HasSecondLine(a)
            then FormatAddressLine(a) == prefix + a.addressLine2.value + ", " + without[|prefix|..]
                 && |FormatAddressLine(a)| == |without| + |a.addressLine2.value| + 2
            else FormatAddressLine(a) == without
  {
    var prefix := a.addressLine1 + ", ";
    var rest := a.city + ", " + a.state + " " + a.pincode;
    var without := FormatAddressLine(a.(addressLine2 := None));
    assert without == prefix + rest;
    assert without[|prefix|..] == rest;
    if HasSecondLine(a) {
      assert FormatAddressLine(a) == prefix + (a.addressLine2.value + ", ") + rest;
    }
  }

  /** A stored line as displayed: its unit price becomes `₹` and two decimals. */
  function ToItemView(item: StoredItem): (v: ItemView)
    ensures v.name == item.name && v.quantity == item.quantity
    ensures v.price == WithRupee(Fixed2(item.pricePaise))
    ensures ReadAmount(v.price) == Some(Rupees(item.pricePaise))
  {
    DisplayedAmountRoundTrip(item.pricePaise);
    ItemView(item.name, item.quantity, WithRupee(Fixed2(item.pricePaise)))
  }

  /** The record built from a found order. */
  function ToView(o: StoredOrder): (v: OrderView)
    ensures |v.items| == |o.items|
    ensures forall i :: 0 <= i < |o.items| ==> v.items[i] == ToItemView(o.items[i])
    ensures v.deliveryAddress.None? <==> o.deliveryAddress.None?
    ensures v.total == WithRupee(Fixed2(o.totalPaise))
    ensures ReadAmount(v.total) == Some(Rupees(o.totalPaise))
    ensures v.id == o.orderNumber && v.date == o.createdAt && v.status == o.status
    ensures v.deliveryAddress == FormatAddress(o.deliveryAddress)
    ensures v.paymentMethod == o.paymentMethod && v.orderNotes == o.orderNotes
    ensures v.phoneNumber == (if o.deliveryAddress.Some? then o.deliveryAddress.value.phone else None)
  {
    var total := WithRupee(Fixed2(o.totalPaise));
    DisplayedAmountRoundTrip(o.totalPaise);
    var items := seq(|o.items|, i requires 0 <= i < |o.items| => ToItemView(o.items[i]));
    var address := FormatAddress(o.deliveryAddress);
    OrderView(
      o.orderNumber,
      o.createdAt,
      total,
      o.status,
      items,
      address,
      o.paymentMethod,
      if o.deliveryAddress.Some? then o.deliveryAddress.value.phone else None,
      o.orderNotes)
  }

  /** Loading the page: show the first matching order, or go to the orders list when none matches. */
  method FetchOrderDetails(orders: seq<StoredOrder>, orderId: string) returns (out: Outcome)
    ensures out.Navigate? <==> forall i :: 0 <= i < |orders| ==> !MatchesId(orders[i], orderId)
    ensures out.Navigate? ==> out.path == OrdersPath
    ensures out.Show? ==> exists i :: 0 <= i < |orders| && MatchesId(orders[i], orderId)
                                      && (forall j :: 0 <= j < i ==> !MatchesId(orders[j], orderId))
                                      && out.order == ToView(orders[i])
  {
    var found := LookupOrder(orders, orderId);
    match found
    case None => out := Navigate(OrdersPath);
    case Some(o) => out := Show(ToView(o));
  }

  /**
    The subtotal of a displayed line: its price text read back as a number,
    times the quantity.  `None` (NaN) exactly when the price text does not
    read as a number.
   */
  function LineSubtotal(item: ItemView): (r: Option<real>)
    ensures r.None? <==> ReadAmount(item.price).None?
    ensures r.Some? && item.quantity >= 0 ==> r.value >= 0.0
    ensures r.Some? && item.quantity == 1 ==> r == ReadAmount(item.price)
  {
    var unitPrice := ReadAmount(item.price);
    if unitPrice.None? then None else Some(Times(unitPrice.value, item.quantity))
  }

  /** A rupee amount times a quantity. */
  function Times(amount: real, quantity: int): (r: real)
    ensures amount >= 0.0 && quantity >= 0 ==> r >= 0.0
    ensures quantity == 1 ==> r == amount
  {
    amount * (quantity as real)
  }

  /** A displayed line's subtotal is exactly unit price times quantity of the stored line. */
  lemma LineSubtotalIsPriceTimesQuantity(item: StoredItem)
    ensures LineSubtotal(ToItemView(item)) == Some((item.pricePaise * item.quantity) as real / 100.0)
  {
    var v := ToItemView(item);
    assert ReadAmount(v.price) == Some(Rupees(item.pricePaise));
    assert LineSubtotal(v) == Some(Times(Rupees(item.pricePaise), item.quantity));
    ScaleRupees(item.pricePaise, item.quantity);
  }

  lemma ScaleRupees(paise: nat, quantity: int)
    ensures Times(Rupees(paise), quantity) == (paise * quantity) as real / 100.0
  {
    assert (paise * quantity) as real == (paise as real) * (quantity as real);
  }

  /**
    The invoice read back from the displayed total, as the summary table and
    the PDF do; `None` stands for an unparsable total.
   */
  function InvoiceOfView(v: OrderView): (r: Option<Invoice>)
    ensures r.None? <==> ReadAmount(v.total).None?
    ensures r.Some? ==> r.value.subtotal == ReadAmount(v.total).value
    ensures r.Some? ==> r.value.subtotal <= r.value.total
  {
    match ReadAmount(v.total)
    case None => None
    case Some(subtotal) => Some(ComputeInvoice(subtotal))
  }

  /** The displayed invoice is the invoice of the stored subtotal; delivery is free exactly above 50000 paise. */
  lemma ViewInvoiceFromStoredTotal(o: StoredOrder)
    ensures InvoiceOfView(ToView(o)) == Some(ComputeInvoice(Rupees(o.totalPaise)))
    ensures InvoiceOfView(ToView(o)).value.delivery == 0.0 <==> o.totalPaise > 50000
  {
  }

  /** The invoice depends on the stored subtotal only, never on the item lines. */
  lemma InvoiceIgnoresItems(o: StoredOrder, items: seq<StoredItem>)
    ensures InvoiceOfView(ToView(o.(items := items))) == InvoiceOfView(ToView(o))
  {
  }
}
