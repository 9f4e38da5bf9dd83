/** The request and response records of the order service (package
    ms_order.dto) and the bean-validation constraints on the request.
    Nullable Java fields are Options; Long and Integer are unbounded ints;
    BigDecimal amounts are exact reals. */
module OrderDtos {
  import opened Wrappers
  import Text

  /** OrderItemDto: one line of an order request. */
  datatype OrderItemDto = OrderItemDto(productId: Option<int>, quantity: Option<int>)

  /** OrderDto: the order request. The list may hold null elements, which
      cascaded validation (@Valid) skips. */
  datatype OrderDto = OrderDto(customerId: Option<int>, items: Option<seq<Option<OrderItemDto>>>)

  /** The product record the order service receives from the product service. */
  datatype ProductDto = ProductDto(name: Option<string>, description: Option<string>, price: Option<real>)

  /** OrderConfirmationItemDto: one priced line of a simulated order. */
  datatype OrderConfirmationItemDto = OrderConfirmationItemDto(
    productId: int,
    productName: Option<string>,
    unitPrice: real,
    quantity: int,
    subtotal: real)

  /** The local date-time stamped on a confirmation, read from the clock by the caller. */
  type Timestamp = int

  /** OrderConfirmationDto: the result of a successful simulation. */
  datatype OrderConfirmationDto = OrderConfirmationDto(
    orderId: string,
    customerId: int,
    totalAmount: real,
    orderDate: Timestamp,
    confirmedItems: seq<OrderConfirmationItemDto>,
    status: string,
    message: string)

  /** One constraint violation: the property path and the annotation's message. */
  datatype FieldError = FieldError(field: string, message: string)

  const CustomerIdNullMessage := "O ID do cliente não pode ser nulo."
  const CustomerIdPositiveMessage := "O ID do cliente deve ser um número positivo."
  const ItemsNullMessage := "A lista de itens do pedido não pode ser nula."
  const ItemsSizeMessage := "O pedido deve conter pelo menos um item."
  const ProductIdNullMessage := "O ID do produto não pode ser nulo."
  const ProductIdPositiveMessage := "O ID do produto deve ser um número positivo."
  const QuantityNullMessage := "A quantidade não pode ser nula."
  const QuantityPositiveMessage := "A quantidade deve ser um número positivo."

  /** @NotNull @Positive productId and @NotNull @Positive quantity. */
  predicate ValidItem(item: OrderItemDto) {
    && item.productId.Some? && item.productId.value > 0
    && item.quantity.Some? && item.quantity.value > 0
  }

  /** What @Valid on the list checks: every non-null element is a valid item. */
  predicate ValidElements(items: seq<Option<OrderItemDto>>) {
    forall i :: 0 <= i < |items| && items[i].Some? ==> ValidItem(items[i].value)
  }

  /** @NotNull @Positive customerId and @NotNull @Size(min = 1) @Valid items. */
  predicate ValidOrder(order: OrderDto) {
    && order.customerId.Some? && order.customerId.value > 0
    && order.items.Some? && |order.items.value| >= 1
    && ValidElements(order.items.value)
  }

  /** The violations a validator reports for one item, under the given property path. */
  function ItemViolations(path: string, item: OrderItemDto): seq<FieldError> {
    (match item.productId
     case None => [FieldError(path + ".productId", ProductIdNullMessage)]
     case Some(id) => if id > 0 then [] else [FieldError(path + ".productId", ProductIdPositiveMessage)])
    +
    (match item.quantity
     case None => [FieldError(path + ".quantity", QuantityNullMessage)]
     case Some(q) => if q > 0 then [] else [FieldError(path + ".quantity", QuantityPositiveMessage)])
  }

  /** The violations of the elements from position `from` on; null elements are skipped. */
  function ElementViolations(items: seq<Option<OrderItemDto>>, from: nat): seq<FieldError>
    requires from <= |items|
    decreases |items| - from
  {
    if from == |items| then []
    else
      (match items[from]
       case None => []
       case Some(item) => ItemViolations("items[" + Text.DecimalString(from) + "]", item))
      + ElementViolations(items, from + 1)
  }

  /** Every violation of an order request, with the annotation's message
      (the order of the list carries no meaning). */
  function Violations(order: OrderDto): seq<FieldError> {
    (match order.customerId
     case None => [FieldError("customerId", CustomerIdNullMessage)]
     case Some(c) => if c > 0 then [] else [FieldError("customerId", CustomerIdPositiveMessage)])
    +
    (match order.items
     case None => [FieldError("items", ItemsNullMessage)]
     case Some(items) =>
       (if |items| >= 1 then [] else [FieldError("items", ItemsSizeMessage)])
       + ElementViolations(items, 0))
  }

  lemma ItemViolationsEmpty(path: string, item: OrderItemDto)
    ensures ItemViolations(path, item) == [] <==> ValidItem(item)
  {
  }

  lemma {:induction false} ElementViolationsEmpty(items: seq<Option<OrderItemDto>>, from: nat)
    requires from <= |items|
    ensures ElementViolations(items, from) == []
        <==> forall i :: from <= i < |items| && items[i].Some? ==> ValidItem(items[i].value)
    decreases |items| - from
  {
    if from < |items| {
      ElementViolationsEmpty(items, from + 1);
      var head := match items[from]
                  case None => []
                  case Some(item) => ItemViolations("items[" + Text.DecimalString(from) + "]", item);
      assert ElementViolations(items, from) == head + ElementViolations(items, from + 1);
      assert head == [] <==> (items[from].Some? ==> ValidItem(items[from].value)) by {
        if items[from].Some? {
          ItemViolationsEmpty("items[" + Text.DecimalString(from) + "]", items[from].value);
        }
      }
    }
  }

  /** A request is valid exactly when the validator reports no violation. */
  lemma ViolationsEmptyIffValid(order: OrderDto)
    ensures Violations(order) == [] <==> ValidOrder(order)
  {
    if order.items.Some? {
      ElementViolationsEmpty(order.items.value, 0);
    }
  }

  /** An empty item list is rejected with the @Size message. */
  lemma EmptyItemsRejected(customerId: Option<int>)
    ensures !ValidOrder(OrderDto(customerId, Some([])))
    ensures FieldError("items", ItemsSizeMessage) in Violations(OrderDto(customerId, Some([])))
  {
  }

  /** The request constraint as evidently intended: also no null element in
      the list (what `List<@NotNull @Valid OrderItemDto>` would enforce). */
  predicate ValidOrderWithoutNullItems(order: OrderDto) {
    && ValidOrder(order)
    && forall i :: 0 <= i < |order.items.value| ==> order.items.value[i].Some?
  }
}
