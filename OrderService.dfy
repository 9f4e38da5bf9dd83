/** OrderService.simulateOrder: prices an order request item by item against
    the product service and returns a confirmation, or fails on the first item
    that cannot be priced. The remote ProductClient is the `lookup` parameter;
    the generated order id and the clock reading are inputs. */
module OrderService {
  import opened Wrappers
  import opened OrderDtos
  import Text

  /** What one call of ProductClient.getProductById does: it throws (with the
      exception's message, possibly null) or returns a body (possibly null). */
  datatype LookupOutcome = Threw(details: Option<string>) | Returned(product: Option<ProductDto>)

  /** How a simulation fails. The first two are the OrderCreationException
      the service throws; the third is the NullPointerException raised by a
      null element of the item list. */
  datatype OrderError =
    | ProductUnavailable(productId: int, details: Option<string>)
    | InvalidProductDetails(productId: int)
    | NullItemElement

  /** BigDecimal.multiply of a price by BigDecimal.valueOf(quantity): exact,
      and never negative for a non-negative price and a positive quantity. */
  function Subtotal(price: real, quantity: int): (r: real)
    ensures price >= 0.0 && quantity > 0 ==> r >= 0.0
  {
    price * quantity as real
  }

  const SimulatedStatus := "SIMULATED_SUCCESS"
  const SuccessMessage := "Pedido criado com sucesso."

  const UnavailablePrefix := "Produto com ID "
  const UnavailableMiddle := " não encontrado ou indisponível. Detalhes: "
  const InvalidPrefix := "Detalhes do produto com ID "
  const InvalidSuffix := " inválidos (preço ausente)."

  /** The message of the OrderCreationException (String.format renders a null detail as "null"). */
  function Message(e: OrderError): (m: string)
    requires !e.NullItemElement?
    ensures e.ProductUnavailable? ==> UnavailablePrefix <= m
    ensures e.InvalidProductDetails? ==> InvalidPrefix <= m
  {
    match e
    case ProductUnavailable(id, details) =>
      UnavailablePrefix + Text.DecimalString(id) + UnavailableMiddle
      + (match details case None => "null" case Some(d) => d)
    case InvalidProductDetails(id) =>
      InvalidPrefix + Text.DecimalString(id) + InvalidSuffix
  }

  /** Reads back which product an order-creation message is about, and whether
      it was unavailable (true) or had invalid details (false). */
  function ProductNamedIn(message: string): Option<(nat, bool)> {
    if UnavailablePrefix <= message then
      var digits := Text.LeadingDigits(message[|UnavailablePrefix|..]);
      Some((Text.ParseDigits(digits), true))
    else if InvalidPrefix <= message then
      var digits := Text.LeadingDigits(message[|InvalidPrefix|..]);
      Some((Text.ParseDigits(digits), false))
    else None
  }

  /** Every order-creation message names the offending product id and its cause. */
  lemma MessageNamesProduct(e: OrderError)
    requires !e.NullItemElement? && e.productId >= 0
    ensures ProductNamedIn(Message(e)) == Some((e.productId as nat, e.ProductUnavailable?))
  {
    Text.ParseNatDigits(e.productId);
    if e.ProductUnavailable? {
      UnavailableMessageNamesProduct(e.productId, e.details);
    } else {
      InvalidMessageNamesProduct(e.productId);
    }
  }

  lemma UnavailableMessageNamesProduct(id: nat, details: Option<string>)
    ensures var m := Message(ProductUnavailable(id, details));
            UnavailablePrefix <= m && Text.LeadingDigits(m[|UnavailablePrefix|..]) == Text.NatDigits(id)
  {
    var digits := Text.NatDigits(id);
    var shown := match details case None => "null" case Some(d) => d;
    var tail := UnavailableMiddle + shown;
    assert Message(ProductUnavailable(id, details)) == UnavailablePrefix + digits + tail;
    assert tail[0] == ' ';
    Text.NumberAfterPrefix(UnavailablePrefix, digits, tail);
  }

  lemma InvalidMessageNamesProduct(id: nat)
    ensures var m := Message(InvalidProductDetails(id));
            !(UnavailablePrefix <= m) && InvalidPrefix <= m
            && Text.LeadingDigits(m[|InvalidPrefix|..]) == Text.NatDigits(id)
  {
    var digits := Text.NatDigits(id);
    assert InvalidSuffix[0] == ' ';
    Text.NumberAfterPrefix(InvalidPrefix, digits, InvalidSuffix);
    assert Message(InvalidProductDetails(id))[0] == 'D';
  }

  /** The item can be priced: it is not null and its lookup returned a product with a price. */
  predicate Resolves(item: Option<OrderItemDto>, lookup: int -> LookupOutcome) {
    && item.Some? && item.value.productId.Some?
    && var outcome := lookup(item.value.productId.value);
    && outcome.Returned? && outcome.product.Some? && outcome.product.value.price.Some?
  }

  /** The line is the one the item and its lookup call for: same product id and
      quantity, the product's own name and price, subtotal = price × quantity. */
  predicate Confirms(item: OrderItemDto, line: OrderConfirmationItemDto, lookup: int -> LookupOutcome) {
    && item.productId == Some(line.productId)
    && item.quantity == Some(line.quantity)
    && var outcome := lookup(line.productId);
    && outcome.Returned? && outcome.product.Some?
    && outcome.product.value.name == line.productName
    && outcome.product.value.price == Some(line.unitPrice)
    && line.subtotal == Subtotal(line.unitPrice, line.quantity)
  }

  /** One pass of the loop body: a null element fails, otherwise the product is looked up. */
  function PriceItem(item: Option<OrderItemDto>, lookup: int -> LookupOutcome): (r: Result<OrderConfirmationItemDto, OrderError>)
    requires item.Some? ==> ValidItem(item.value)
    ensures r.Success? <==> Resolves(item, lookup)
  {
    match item
    case None => Failure(NullItemElement)
    case Some(it) => PriceLine(it, lookup(it.productId.value))
  }

  /** Prices one valid item from what its lookup did. */
  function PriceLine(item: OrderItemDto, outcome: LookupOutcome): (r: Result<OrderConfirmationItemDto, OrderError>)
    requires ValidItem(item)
    ensures r.Success? <==> outcome.Returned? && outcome.product.Some? && outcome.product.value.price.Some?
    ensures r.Failure? ==> !r.error.NullItemElement? && r.error.productId == item.productId.value
    ensures r.Failure? ==> (r.error.ProductUnavailable? <==> outcome.Threw?)
    ensures r.Success? ==> Confirms(item, r.value, _ => outcome)
  {
    var id := item.productId.value;
    match outcome
    case Threw(details) => Failure(ProductUnavailable(id, details))
    case Returned(product) =>
      if product.None? || product.value.price.None? then Failure(InvalidProductDetails(id))
      else
        var price := product.value.price.value;
        var quantity := item.quantity.value;
        Success(OrderConfirmationItemDto(id, product.value.name, price, quantity, Subtotal(price, quantity)))
  }

  /** The confirmed lines of a whole item list, or the error of its first bad item. */
  function PriceItems(items: seq<Option<OrderItemDto>>, lookup: int -> LookupOutcome): (r: Result<seq<OrderConfirmationItemDto>, OrderError>)
    requires ValidElements(items)
    ensures r.Success? ==> |r.value| == |items|
  {
    if items == [] then Success([])
    else
      var init := items[..|items| - 1];
      match PriceItems(init, lookup)
      case Failure(e) => Failure(e)
      case Success(lines) =>
        match PriceItem(items[|items| - 1], lookup)
        case Failure(e) => Failure(e)
        case Success(line) => Success(lines + [line])
  }

  /** The product ids handed to the lookup, in call order. */
  function Queries(items: seq<Option<OrderItemDto>>, lookup: int -> LookupOutcome): (q: seq<int>)
    requires ValidElements(items)
    ensures |q| <= |items|
  {
    if items == [] then []
    else
      var init := items[..|items| - 1];
      var last := items[|items| - 1];
      if PriceItems(init, lookup).Failure? then Queries(init, lookup)
      else Queries(init, lookup) + (match last case None => [] case Some(it) => [it.productId.value])
  }

  /** The sum of the subtotals of the lines. */
  function Total(lines: seq<OrderConfirmationItemDto>): real {
    if lines == [] then 0.0 else Total(lines[..|lines| - 1]) + lines[|lines| - 1].subtotal
  }

  /** What simulateOrder returns for a validated request. */
  function Simulate(order: OrderDto, lookup: int -> LookupOutcome, orderId: string, orderDate: Timestamp): (r: Result<OrderConfirmationDto, OrderError>)
    requires ValidOrder(order)
    ensures r.Failure? <==> PriceItems(order.items.value, lookup).Failure?
    ensures r.Failure? ==> r.error == PriceItems(order.items.value, lookup).error
    ensures r.Success? ==> |r.value.confirmedItems| == |order.items.value|
  {
    match PriceItems(order.items.value, lookup)
    case Failure(e) => Failure(e)
    case Success(lines) =>
      Success(OrderConfirmationDto(orderId, order.customerId.value, Total(lines), orderDate,
                                   lines, SimulatedStatus, SuccessMessage))
  }

  /** The simulation as the service runs it: one loop over the items, a running
      total that starts at zero and a list of confirmed lines that grows in place;
      the first bad item ends the call. `queried` records the lookup calls. */
  method SimulateOrder(order: OrderDto, lookup: int -> LookupOutcome, orderId: string, orderDate: Timestamp)
    returns (r: Result<OrderConfirmationDto, OrderError>, ghost queried: seq<int>)
    requires ValidOrder(order)
    ensures r == Simulate(order, lookup, orderId, orderDate)
    ensures queried == Queries(order.items.value, lookup)
  {
    var items := order.items.value;
    var totalAmount: real := 0.0;
    var confirmedItems: seq<OrderConfirmationItemDto> := [];
    queried := [];
    var i := 0;
    while i < |items|
      invariant 0 <= i <= |items|
      invariant PriceItems(items[..i], lookup) == Success(confirmedItems)
      invariant totalAmount == Total(confirmedItems)
      invariant queried == Queries(items[..i], lookup)
    {
      var item := items[i];
      if item.None? {
        PricedPrefixStops(items, i, lookup, confirmedItems);
        return Failure(NullItemElement), queried;
      }
      var productId := item.value.productId.value;
      var outcome := lookup(productId);
      queried := queried + [productId];
      if outcome.Threw? {
        PricedPrefixStops(items, i, lookup, confirmedItems);
        return Failure(ProductUnavailable(productId, outcome.details)), queried;
      }
      var product := outcome.product;
      if product.None? || product.value.price.None? {
        PricedPrefixStops(items, i, lookup, confirmedItems);
        return Failure(InvalidProductDetails(productId)), queried;
      }
      var price := product.value.price.value;
      var quantity := item.value.quantity.value;
      var itemSubtotal := Subtotal(price, quantity);
      var line := OrderConfirmationItemDto(productId, product.value.name, price, quantity, itemSubtotal);
      PricedPrefixGrows(items, i, lookup, confirmedItems, line);
      totalAmount := totalAmount + itemSubtotal;
      confirmedItems := confirmedItems + [line];
      i := i + 1;
    }
    assert items[..i] == items;
    r := Success(OrderConfirmationDto(orderId, order.customerId.value, totalAmount, orderDate,
                                      confirmedItems, SimulatedStatus, SuccessMessage));
  }

  /** A priced prefix grows by the line of the next item, and by its lookup. */
  lemma PricedPrefixGrows(items: seq<Option<OrderItemDto>>, i: nat, lookup: int -> LookupOutcome,
                          lines: seq<OrderConfirmationItemDto>, line: OrderConfirmationItemDto)
    requires ValidElements(items) && i < |items|
    requires PriceItems(items[..i], lookup) == Success(lines)
    requires PriceItem(items[i], lookup) == Success(line)
    ensures PriceItems(items[..i + 1], lookup) == Success(lines + [line])
    ensures Queries(items[..i + 1], lookup) == Queries(items[..i], lookup) + [items[i].value.productId.value]
  {
    assert items[..i + 1][..i] == items[..i] && items[..i + 1][i] == items[i];
  }

  /** The first item of a priced prefix that fails to price decides the
      outcome of the whole list; its own lookup is the last one made. */
  lemma PricedPrefixStops(items: seq<Option<OrderItemDto>>, i: nat, lookup: int -> LookupOutcome,
                          lines: seq<OrderConfirmationItemDto>)
    requires ValidElements(items) && i < |items|
    requires PriceItems(items[..i], lookup) == Success(lines)
    requires PriceItem(items[i], lookup).Failure?
    ensures PriceItems(items, lookup) == Failure(PriceItem(items[i], lookup).error)
    ensures Queries(items, lookup)
            == Queries(items[..i], lookup) + (if items[i].Some? then [items[i].value.productId.value] else [])
  {
    assert items[..i + 1][..i] == items[..i] && items[..i + 1][i] == items[i];
    FailureSticks(items, i + 1, lookup);
  }

  /** Once a prefix fails, the whole list fails with the same error and no further lookups. */
  lemma {:induction false} FailureSticks(items: seq<Option<OrderItemDto>>, n: nat, lookup: int -> LookupOutcome)
    requires ValidElements(items) && n <= |items|
    requires PriceItems(items[..n], lookup).Failure?
    ensures PriceItems(items, lookup) == PriceItems(items[..n], lookup)
    ensures Queries(items, lookup) == Queries(items[..n], lookup)
    decreases |items|
  {
    if n < |items| {
      var init := items[..|items| - 1];
      assert init[..n] == items[..n];
      FailureSticks(init, n, lookup);
    } else {
      assert items[..n] == items;
    }
  }

  /** The product ids of the non-null elements, in list order. */
  function ProductIds(items: seq<Option<OrderItemDto>>): seq<int>
    requires ValidElements(items)
  {
    if items == [] then []
    else
      ProductIds(items[..|items| - 1])
      + (match items[|items| - 1] case None => [] case Some(it) => [it.productId.value])
  }

  /** A priced list has one line per item, in item order, each the line its item calls for. */
  lemma {:induction false} PricedLinesMatchItems(items: seq<Option<OrderItemDto>>, lookup: int -> LookupOutcome, lines: seq<OrderConfirmationItemDto>)
    requires ValidElements(items)
    requires PriceItems(items, lookup) == Success(lines)
    ensures |lines| == |items|
    ensures forall i :: 0 <= i < |items| ==> items[i].Some? && Confirms(items[i].value, lines[i], lookup)
  {
    if items != [] {
      var init := items[..|items| - 1];
      var last := items[|items| - 1];
      var initLines := PriceItems(init, lookup).value;
      PricedLinesMatchItems(init, lookup, initLines);
      assert lines == initLines + [PriceItem(last, lookup).value];
      forall i | 0 <= i < |items|
        ensures items[i].Some? && Confirms(items[i].value, lines[i], lookup)
      {
        if i < |items| - 1 {
          assert items[i] == init[i] && lines[i] == initLines[i];
        }
      }
    }
  }

  /** The whole list is priced exactly when every item resolves. */
  lemma {:induction false} PricedIffAllResolve(items: seq<Option<OrderItemDto>>, lookup: int -> LookupOutcome)
    requires ValidElements(items)
    ensures PriceItems(items, lookup).Success? <==> forall i :: 0 <= i < |items| ==> Resolves(items[i], lookup)
  {
    if items != [] {
      var init := items[..|items| - 1];
      PricedIffAllResolve(init, lookup);
      if forall i :: 0 <= i < |items| ==> Resolves(items[i], lookup) {
        assert forall i :: 0 <= i < |init| ==> Resolves(init[i], lookup) by {
          forall i | 0 <= i < |init| ensures Resolves(init[i], lookup) {
            assert init[i] == items[i];
          }
        }
      } else if PriceItems(init, lookup).Success? {
        forall j | 0 <= j < |init| ensures Resolves(items[j], lookup) {
          assert init[j] == items[j];
        }
        assert !Resolves(items[|items| - 1], lookup);
      }
    }
  }

  /** On success the lookup was called once per item, in item order. */
  lemma {:induction false} QueriesOfPricedList(items: seq<Option<OrderItemDto>>, lookup: int -> LookupOutcome)
    requires ValidElements(items)
    requires PriceItems(items, lookup).Success?
    ensures Queries(items, lookup) == ProductIds(items)
  {
    if items != [] {
      QueriesOfPricedList(items[..|items| - 1], lookup);
    }
  }

  /** The first item that does not resolve decides the error, and the lookup
      is never called for any item after it. */
  lemma FirstFailureAborts(items: seq<Option<OrderItemDto>>, lookup: int -> LookupOutcome, k: nat)
    requires ValidElements(items) && k < |items|
    requires forall j :: 0 <= j < k ==> Resolves(items[j], lookup)
    requires !Resolves(items[k], lookup)
    ensures items[k].None? ==> PriceItems(items, lookup) == Failure(NullItemElement)
    ensures items[k].Some? && lookup(items[k].value.productId.value).Threw? ==>
              var id := items[k].value.productId.value;
              PriceItems(items, lookup) == Failure(ProductUnavailable(id, lookup(id).details))
    ensures items[k].Some? && lookup(items[k].value.productId.value).Returned? ==>
              PriceItems(items, lookup) == Failure(InvalidProductDetails(items[k].value.productId.value))
    ensures Queries(items, lookup) == ProductIds(items[..k + 1])
  {
    var before := items[..k];
    var upTo := items[..k + 1];
    assert upTo[..k] == before && upTo[k] == items[k];
    PricedIffAllResolve(before, lookup);
    QueriesOfPricedList(before, lookup);
    FailureSticks(items, k + 1, lookup);
  }

  /** Lookups of products the call never asked about cannot change its outcome. */
  lemma {:induction false} OnlyQueriedProductsMatter(items: seq<Option<OrderItemDto>>, lookup: int -> LookupOutcome, other: int -> LookupOutcome)
    requires ValidElements(items)
    requires forall id :: id in Queries(items, lookup) ==> lookup(id) == other(id)
    ensures PriceItems(items, lookup) == PriceItems(items, other)
    ensures Queries(items, lookup) == Queries(items, other)
  {
    if items != [] {
      var init := items[..|items| - 1];
      assert Queries(init, lookup) <= Queries(items, lookup);
      OnlyQueriedProductsMatter(init, lookup, other);
      var last := items[|items| - 1];
      if PriceItems(init, lookup).Success? && last.Some? {
        var id := last.value.productId.value;
        assert id in Queries(items, lookup);
        assert lookup(id) == other(id);
      }
    }
  }

  lemma {:induction false} TotalNonNegative(lines: seq<OrderConfirmationItemDto>)
    requires forall i :: 0 <= i < |lines| ==> lines[i].subtotal >= 0.0
    ensures Total(lines) >= 0.0
  {
    if lines != [] {
      TotalNonNegative(lines[..|lines| - 1]);
    }
  }

  /** A successful simulation: one confirmed line per requested item, in the
      request's order, each carrying the looked-up name and price and the
      subtotal price × quantity; the total is the sum of the subtotals; the
      customer id is copied and status and message are the fixed ones. */
  lemma SuccessfulSimulation(order: OrderDto, lookup: int -> LookupOutcome, orderId: string, orderDate: Timestamp)
    requires ValidOrder(order)
    requires Simulate(order, lookup, orderId, orderDate).Success?
    ensures var c := Simulate(order, lookup, orderId, orderDate).value;
            var items := order.items.value;
            && |c.confirmedItems| == |items|
            && (forall i :: 0 <= i < |items| ==> items[i].Some? && Confirms(items[i].value, c.confirmedItems[i], lookup))
            && c.totalAmount == Total(c.confirmedItems)
            && c.customerId == order.customerId.value
            && c.orderId == orderId && c.orderDate == orderDate
            && c.status == "SIMULATED_SUCCESS" && c.message == "Pedido criado com sucesso."
  {
    var items := order.items.value;
    PricedLinesMatchItems(items, lookup, PriceItems(items, lookup).value);
  }

  /** All or nothing: a confirmation comes back exactly when every item resolves. */
  lemma AllOrNothing(order: OrderDto, lookup: int -> LookupOutcome, orderId: string, orderDate: Timestamp)
    requires ValidOrder(order)
    ensures Simulate(order, lookup, orderId, orderDate).Success?
        <==> forall i :: 0 <= i < |order.items.value| ==> Resolves(order.items.value[i], lookup)
  {
    PricedIffAllResolve(order.items.value, lookup);
  }

  /** Every price the lookup can return is at least zero. */
  ghost predicate NonNegativePrices(lookup: int -> LookupOutcome) {
    forall id :: lookup(id).Returned? && lookup(id).product.Some? && lookup(id).product.value.price.Some?
                 ==> lookup(id).product.value.price.value >= 0.0
  }

  /** With non-negative prices every subtotal and the total are non-negative. */
  lemma AmountsNonNegative(order: OrderDto, lookup: int -> LookupOutcome, orderId: string, orderDate: Timestamp)
    requires ValidOrder(order) && NonNegativePrices(lookup)
    requires Simulate(order, lookup, orderId, orderDate).Success?
    ensures var c := Simulate(order, lookup, orderId, orderDate).value;
            && (forall i :: 0 <= i < |c.confirmedItems| ==> c.confirmedItems[i].subtotal >= 0.0)
            && c.totalAmount >= 0.0
  {
    var c := Simulate(order, lookup, orderId, orderDate).value;
    SuccessfulSimulation(order, lookup, orderId, orderDate);
    forall i | 0 <= i < |c.confirmedItems| ensures c.confirmedItems[i].subtotal >= 0.0 {
      LineNonNegative(order.items.value[i].value, c.confirmedItems[i], lookup);
    }
    TotalNonNegative(c.confirmedItems);
  }

  lemma LineNonNegative(item: OrderItemDto, line: OrderConfirmationItemDto, lookup: int -> LookupOutcome)
    requires ValidItem(item) && NonNegativePrices(lookup) && Confirms(item, line, lookup)
    ensures line.subtotal >= 0.0
  {
    var outcome := lookup(line.productId);
    assert outcome.product.value.price.value >= 0.0;
  }

  /** Customer 1 orders two units of product 10, which costs 9.99: one line
      with subtotal 19.98 and a total of 19.98. */
  lemma WidgetScenario(orderId: string, orderDate: Timestamp)
    ensures var lookup := (id: int) =>
              if id == 10 then Returned(Some(ProductDto(Some("Widget"), None, Some(9.99)))) else Threw(None);
            var order := OrderDto(Some(1), Some([Some(OrderItemDto(Some(10), Some(2)))]));
            && ValidOrder(order)
            && Simulate(order, lookup, orderId, orderDate)
               == Success(OrderConfirmationDto(orderId, 1, 19.98, orderDate,
                                               [OrderConfirmationItemDto(10, Some("Widget"), 9.99, 2, 19.98)],
                                               "SIMULATED_SUCCESS", "Pedido criado com sucesso."))
  {
    var items := [Some(OrderItemDto(Some(10), Some(2)))];
    assert items[..0] == [];
  }

  /** A lookup of product 77 that throws fails the order with a message naming 77 as not found or unavailable. */
  lemma UnavailableProductScenario(lookup: int -> LookupOutcome, orderId: string, orderDate: Timestamp)
    requires lookup(77).Threw?
    ensures var order := OrderDto(Some(5), Some([Some(OrderItemDto(Some(77), Some(1)))]));
            && ValidOrder(order)
            && Simulate(order, lookup, orderId, orderDate) == Failure(ProductUnavailable(77, lookup(77).details))
            && ProductNamedIn(Message(ProductUnavailable(77, lookup(77).details))) == Some((77, true))
  {
    var items := [Some(OrderItemDto(Some(77), Some(1)))];
    assert items[..0] == [];
    MessageNamesProduct(ProductUnavailable(77, lookup(77).details));
  }

  /** As written: a request whose item list holds a null element passes
      validation, and the simulation then fails with a NullPointerException
      instead of an order-creation error, whatever the product service does. */
  lemma NullElementPassesValidation(lookup: int -> LookupOutcome, orderId: string, orderDate: Timestamp)
    ensures var order := OrderDto(Some(1), Some([None]));
            && ValidOrder(order) && Violations(order) == []
            && Simulate(order, lookup, orderId, orderDate) == Failure(NullItemElement)
  {
    var order := OrderDto(Some(1), Some([None]));
    ViolationsEmptyIffValid(order);
    var items: seq<Option<OrderItemDto>> := [None];
    assert items[..0] == [];
  }

  lemma {:induction false} NoNullElementNoNullPointer(items: seq<Option<OrderItemDto>>, lookup: int -> LookupOutcome)
    requires ValidElements(items)
    requires forall i :: 0 <= i < |items| ==> items[i].Some?
    ensures PriceItems(items, lookup) != Failure(NullItemElement)
  {
    if items != [] {
      var init := items[..|items| - 1];
      assert forall i :: 0 <= i < |init| ==> init[i] == items[i];
      NoNullElementNoNullPointer(init, lookup);
    }
  }

  /** With the intended constraint every failure is an order-creation error,
      whose message names the offending product. */
  lemma IntendedValidationExcludesNullPointer(order: OrderDto, lookup: int -> LookupOutcome, orderId: string, orderDate: Timestamp)
    requires ValidOrderWithoutNullItems(order)
    ensures Simulate(order, lookup, orderId, orderDate).Failure? ==>
              var e := Simulate(order, lookup, orderId, orderDate).error;
              !e.NullItemElement? && e.productId > 0
              && ProductNamedIn(Message(e)) == Some((e.productId as nat, e.ProductUnavailable?))
  {
    var items := order.items.value;
    NoNullElementNoNullPointer(items, lookup);
    if !PriceItems(items, lookup).Success? {
      PricedIffAllResolve(items, lookup);
      var k := FirstUnresolved(items, lookup);
      FirstFailureAborts(items, lookup, k);
      MessageNamesProduct(Simulate(order, lookup, orderId, orderDate).error);
    }
  }

  /** The position of the first item that does not resolve. */
  function FirstUnresolved(items: seq<Option<OrderItemDto>>, lookup: int -> LookupOutcome): (k: nat)
    requires exists i :: 0 <= i < |items| && !Resolves(items[i], lookup)
    ensures k < |items| && !Resolves(items[k], lookup)
    ensures forall j :: 0 <= j < k ==> Resolves(items[j], lookup)
  {
    if !Resolves(items[0], lookup) then 0
    else
      assert exists i :: 0 <= i < |items[1..]| && !Resolves(items[1..][i], lookup) by {
        var i :| 0 <= i < |items| && !Resolves(items[i], lookup);
        assert items[1..][i - 1] == items[i];
      }
      1 + FirstUnresolved(items[1..], lookup)
  }
}
