# Order simulation and product catalogue — a Dafny model

This project models the core of two small Spring Boot microservices.

- **ms-order** validates an incoming order and then simulates it. `OrderService.simulateOrder` walks the order's items in sequence. For each item it asks the product service for the product. A failed lookup aborts the order with an "unavailable" error. A missing product or price aborts it with an "invalid details" error. Otherwise the item becomes a confirmed line with subtotal price × quantity. The total is the sum of the subtotals. The confirmation carries a generated order id, the current time, the status `SIMULATED_SUCCESS` and a fixed success message.
- **ms-product** keeps a catalogue of products. `ProductService` lists, finds, saves, updates and deletes products through a JPA repository. `ProductMapper` converts between the `Product` entity and `ProductDto`. Bean Validation annotations on `ProductDto`, `OrderDto` and `OrderItemDto` define which requests are accepted.

Modules:

- `Wrappers`: `Option` (Java's null and `Optional`) and `Result` (a value or a thrown exception).
- `Text`: decimal rendering of ids, Java's `String.trim` and `String.isBlank`.
- `OrderDtos`: the order request records, their validity predicates and the violations Bean Validation reports.
- `OrderService`: the simulation as specification functions (`PriceItems`, `Total`, `Simulate`) and as the imperative loop `SimulateOrder` proved against them, plus lemmas about the outcome.
- `ProductModel`: `ProductDto` with its constraints, and the `Product` entity as a class with mutable fields.
- `ProductMapper`: `toDto`, `toEntity`, `updateEntityFromDto`.
- `ProductCatalog`: `ProductService` as a class over a map from id to stored row with an identity counter.

Modelling choices:

- Money (`BigDecimal`) is an exact `real`.
- Java `null` is `None`.
- A thrown exception is a `Failure` result.
- The Feign call `ProductClient.getProductById` is a function parameter `lookup`. For each id it either throws, with an optional message, or returns a possibly null `ProductDto`.
- The random UUID and `LocalDateTime.now()` are inputs `orderId` and `orderDate`.
- `simulateOrder` does no validation of its own. `ValidOrder` stands for the controller's `@Valid` on the request body (OrderController.java:28), so it is the precondition of the simulation.

## Model

| member | source | states |
|---|---|---|
| OrderService.SimulateOrder | ms-order/src/main/java/br/com/mswithspring/backend/ms_order/service/OrderService.java:29-68 | the loop's confirmation or error is exactly `Simulate` of the order; the products it asks for are exactly `Queries` (those of the items up to and including the first failing one) |
| OrderService.Subtotal | ms-order/src/main/java/br/com/mswithspring/backend/ms_order/service/OrderService.java:45 | price × quantity as the exact BigDecimal product; non-negative for a non-negative price and a positive quantity |
| OrderService.Message | ms-order/src/main/java/br/com/mswithspring/backend/ms_order/service/OrderService.java:38-42 | the unavailable-product message starts with "Produto com ID " and the invalid-details message with "Detalhes do produto com ID " |
| OrderService.PriceLine | ms-order/src/main/java/br/com/mswithspring/backend/ms_order/service/OrderService.java:35-54 | one item succeeds if and only if its lookup returned a product with a price, and the line then agrees with the item and the product; a thrown lookup gives the unavailable error, a null product or price the invalid-details error, both for the item's id |
| OrderService.PriceItem | ms-order/src/main/java/br/com/mswithspring/backend/ms_order/service/OrderService.java:33-36 | one pass of the loop succeeds if and only if the element resolves; a null element fails with a null dereference |
| OrderService.PriceItems | ms-order/src/main/java/br/com/mswithspring/backend/ms_order/service/OrderService.java:33-55 | the confirmed lines of the whole list, or the first error; on success there is one line per item |
| OrderService.Queries | ms-order/src/main/java/br/com/mswithspring/backend/ms_order/service/OrderService.java:36 | the product ids handed to the product service, in call order; at most one per item |
| OrderService.Total | ms-order/src/main/java/br/com/mswithspring/backend/ms_order/service/OrderService.java:30-46 | the running total: zero plus each subtotal in line order (its sign is stated by TotalNonNegative) |
| OrderService.Simulate | ms-order/src/main/java/br/com/mswithspring/backend/ms_order/service/OrderService.java:29-68 | fails if and only if pricing the items fails, with the same error; on success one confirmed line per item |
| OrderService.PricedPrefixGrows | ms-order/src/main/java/br/com/mswithspring/backend/ms_order/service/OrderService.java:45-54 | pricing the next item extends the confirmed lines by its line and the lookups by its product id |
| OrderService.PricedPrefixStops | ms-order/src/main/java/br/com/mswithspring/backend/ms_order/service/OrderService.java:36-43 | an item that fails to price ends the loop: the whole list fails with its error and its lookup is the last one |
| OrderDtos.ValidItem | ms-order/src/main/java/br/com/mswithspring/backend/ms_order/dto/OrderItemDto.java:6-14 | product id and quantity are both non-null and positive |
| OrderDtos.ValidElements | ms-order/src/main/java/br/com/mswithspring/backend/ms_order/dto/OrderDto.java:17-18 | `@Valid` cascades into every non-null element and skips null ones |
| OrderDtos.ValidOrder | ms-order/src/main/java/br/com/mswithspring/backend/ms_order/dto/OrderDto.java:10-19 | customer id non-null and positive; item list non-null with at least one element; elements valid as cascaded |
| OrderDtos.ItemViolations | ms-order/src/main/java/br/com/mswithspring/backend/ms_order/dto/OrderItemDto.java:7-13 | the messages Bean Validation reports for one item, under its property path |
| OrderDtos.ElementViolations | ms-order/src/main/java/br/com/mswithspring/backend/ms_order/dto/OrderDto.java:17-18 | the cascaded item messages, with paths `items[i].productId` and `items[i].quantity` |
| OrderDtos.Violations | ms-order/src/main/java/br/com/mswithspring/backend/ms_order/dto/OrderDto.java:11-18 | every message for an order request (null or non-positive customer id, null or empty list, item violations) |
| ProductModel.NotBlank | ms-product/src/main/java/br/com/mswithspring/backend/ms_product/model/dto/ProductDto.java:8 | @NotBlank: non-null and something left after trimming characters up to U+0020 |
| ProductModel.ValidProductDto | ms-product/src/main/java/br/com/mswithspring/backend/ms_product/model/dto/ProductDto.java:7-18 | name not blank and 3 to 100 characters; description null or at most 500 characters; price non-null and at least 0.0 |
| ProductModel.Violations | ms-product/src/main/java/br/com/mswithspring/backend/ms_product/model/dto/ProductDto.java:8-16 | every message for a product request, one per annotation that fails |
| ProductCatalog.NotFoundMessage | ms-product/src/main/java/br/com/mswithspring/backend/ms_product/exception/ProductNotFoundException.java:5 | the text "Produto com ID <id> não encontrado." |
| ProductCatalog.Listing | ms-product/src/main/java/br/com/mswithspring/backend/ms_product/service/ProductService.java:30-33 | the stored products in id order, mapped by toDto and filtered by flatMap(Optional::stream) |
| OrderService.SuccessfulSimulation | ms-order/src/main/java/br/com/mswithspring/backend/ms_order/service/OrderService.java:33-67 | on success there is one confirmed line per item, in order; each line has the item's id and quantity, the looked-up name and price, and subtotal price × quantity; the total is the sum of the subtotals; customer id, order id, date, status and message are as set |
| OrderService.AllOrNothing | ms-order/src/main/java/br/com/mswithspring/backend/ms_order/service/OrderService.java:33-55 | a confirmation comes back if and only if every item's lookup returns a product with a price |
| OrderService.PricedIffAllResolve | ms-order/src/main/java/br/com/mswithspring/backend/ms_order/service/OrderService.java:33-43 | pricing the item list succeeds if and only if every item resolves |
| OrderService.PricedLinesMatchItems | ms-order/src/main/java/br/com/mswithspring/backend/ms_order/service/OrderService.java:45-54 | each priced line corresponds to its item: same id and quantity, the looked-up name and price, subtotal price × quantity |
| OrderService.FirstFailureAborts | ms-order/src/main/java/br/com/mswithspring/backend/ms_order/service/OrderService.java:35-43 | the first unresolved item decides the error: null element, a lookup that threw (with its message) or a missing product or price; no product after it is asked for |
| OrderService.FailureSticks | ms-order/src/main/java/br/com/mswithspring/backend/ms_order/service/OrderService.java:37-43 | once a prefix of the items fails, the whole list fails with the same error and asks for no further product |
| OrderService.QueriesOfPricedList | ms-order/src/main/java/br/com/mswithspring/backend/ms_order/service/OrderService.java:36 | a successful simulation asks for every item's product exactly once, in item order |
| OrderService.OnlyQueriedProductsMatter | ms-order/src/main/java/br/com/mswithspring/backend/ms_order/service/OrderService.java:33-43 | two product services that answer the same for the ids asked give the same outcome and the same queries |
| OrderService.AmountsNonNegative | ms-order/src/main/java/br/com/mswithspring/backend/ms_order/service/OrderService.java:45-46 | with non-negative prices, every subtotal and the total are non-negative (quantity is positive) |
| OrderService.LineNonNegative | ms-order/src/main/java/br/com/mswithspring/backend/ms_order/service/OrderService.java:45 | a line priced at a non-negative price has a non-negative subtotal |
| OrderService.TotalNonNegative | ms-order/src/main/java/br/com/mswithspring/backend/ms_order/service/OrderService.java:46 | a sum of non-negative subtotals is non-negative |
| OrderService.MessageNamesProduct | ms-order/src/main/java/br/com/mswithspring/backend/ms_order/service/OrderService.java:38-42 | both error messages name the product id, and the prefix tells which error occurred |
| OrderService.UnavailableMessageNamesProduct | ms-order/src/main/java/br/com/mswithspring/backend/ms_order/service/OrderService.java:38 | the unavailable-product message starts with its fixed prefix followed by the id's digits |
| OrderService.InvalidMessageNamesProduct | ms-order/src/main/java/br/com/mswithspring/backend/ms_order/service/OrderService.java:42 | the invalid-details message starts with its fixed prefix followed by the id's digits |
| OrderService.WidgetScenario | ms-order/src/main/java/br/com/mswithspring/backend/ms_order/service/OrderService.java:29-68 | two units of a product priced 9.99 give one line and a total of 19.98 with the fixed status and message |
| OrderService.UnavailableProductScenario | ms-order/src/main/java/br/com/mswithspring/backend/ms_order/service/OrderService.java:35-39 | a lookup of product 77 that throws fails the order with the unavailable error for 77 |
| OrderService.NullElementPassesValidation | ms-order/src/main/java/br/com/mswithspring/backend/ms_order/dto/OrderDto.java:17-18 | as written: the order with item list [null] has no violations yet fails with a null dereference |
| OrderService.NoNullElementNoNullPointer | ms-order/src/main/java/br/com/mswithspring/backend/ms_order/service/OrderService.java:33-36 | a list without null elements never fails with a null dereference |
| OrderService.IntendedValidationExcludesNullPointer | ms-order/src/main/java/br/com/mswithspring/backend/ms_order/dto/OrderDto.java:15-18 | under validation that also rejects null elements, every failure is one of the two order-creation errors |
| OrderService.FirstUnresolved | ms-order/src/main/java/br/com/mswithspring/backend/ms_order/service/OrderService.java:33-43 | finds the item at which the loop stops: it does not resolve and all items before it do |
| OrderDtos.ViolationsEmptyIffValid | ms-order/src/main/java/br/com/mswithspring/backend/ms_order/dto/OrderDto.java:10-19 | an order has no violations if and only if the customer id is present and positive, the list is present and non-empty, and every non-null element is valid |
| OrderDtos.ItemViolationsEmpty | ms-order/src/main/java/br/com/mswithspring/backend/ms_order/dto/OrderItemDto.java:6-14 | an item has no violations if and only if product id and quantity are present and positive |
| OrderDtos.ElementViolationsEmpty | ms-order/src/main/java/br/com/mswithspring/backend/ms_order/dto/OrderDto.java:17 | cascaded validation of the list reports nothing if and only if every non-null element is valid |
| OrderDtos.EmptyItemsRejected | ms-order/src/main/java/br/com/mswithspring/backend/ms_order/dto/OrderDto.java:16 | an empty item list is invalid and reported with the size message |
| ProductModel.ViolationsEmptyIffValid | ms-product/src/main/java/br/com/mswithspring/backend/ms_product/model/dto/ProductDto.java:7-18 | a product DTO has no violations if and only if the name is not blank and 3 to 100 characters long, the description is at most 500 characters, and the price is present and at least zero |
| ProductModel.NotBlankMeansVisibleCharacter | ms-product/src/main/java/br/com/mswithspring/backend/ms_product/model/dto/ProductDto.java:8 | @NotBlank holds for a name if and only if some character is above U+0020 |
| ProductModel.ConstraintBoundaries | ms-product/src/main/java/br/com/mswithspring/backend/ms_product/model/dto/ProductDto.java:8-17 | the empty name, a two-letter name, a null price and a negative price are rejected; a three-letter name with price 0.0 is accepted |
| ProductModel.Product.constructor | ms-product/src/main/java/br/com/mswithspring/backend/ms_product/model/entity/Product.java:22-23 | a new entity has every field null |
| ProductModel.Product.Of | ms-product/src/main/java/br/com/mswithspring/backend/ms_product/model/entity/Product.java:25-30 | the all-fields constructor stores exactly the given values |
| ProductMapper.ToDto | ms-product/src/main/java/br/com/mswithspring/backend/ms_product/service/mapper/ProductMapper.java:13-18 | empty if and only if the product is null |
| ProductMapper.ToDtoForgetsOnlyId | ms-product/src/main/java/br/com/mswithspring/backend/ms_product/service/mapper/ProductMapper.java:17 | two entities map to the same DTO if and only if they agree on everything but the id |
| ProductMapper.ToEntity | ms-product/src/main/java/br/com/mswithspring/backend/ms_product/service/mapper/ProductMapper.java:20-29 | empty if and only if the DTO is null; otherwise a new entity without id that maps back to the same DTO |
| ProductMapper.UpdateEntityFromDto | ms-product/src/main/java/br/com/mswithspring/backend/ms_product/service/mapper/ProductMapper.java:31-38 | returns the same entity and keeps its id; a null DTO changes nothing; otherwise the entity maps back to the DTO |
| ProductCatalog.OrElseThrow | ms-product/src/main/java/br/com/mswithspring/backend/ms_product/service/ProductService.java:38-41 | succeeds if and only if the optional is present, with its value; otherwise fails with the given exception |
| ProductCatalog.PresentKeepsExactlySome | ms-product/src/main/java/br/com/mswithspring/backend/ms_product/service/ProductService.java:32 | flatMap(Optional::stream) keeps exactly the present values |
| ProductCatalog.PresentOfAllSome | ms-product/src/main/java/br/com/mswithspring/backend/ms_product/service/ProductService.java:31-33 | when every element is present, flatMap(Optional::stream) keeps them all, in order |
| ProductCatalog.RowsInIdOrderAscending | ms-product/src/main/java/br/com/mswithspring/backend/ms_product/service/ProductService.java:30 | the repository listing is in strictly ascending id order |
| ProductCatalog.RowsInIdOrderMembers | ms-product/src/main/java/br/com/mswithspring/backend/ms_product/service/ProductService.java:30 | the listing holds exactly the stored rows of the id range |
| ProductCatalog.RowsInIdOrderCount | ms-product/src/main/java/br/com/mswithspring/backend/ms_product/service/ProductService.java:30 | the listing has one row per stored id in the range |
| ProductCatalog.ListingFacts | ms-product/src/main/java/br/com/mswithspring/backend/ms_product/service/ProductService.java:29-34 | the DTO list has one entry per stored product, each entry is some product's DTO, and every product's DTO appears |
| ProductCatalog.ListingInIdOrder | ms-product/src/main/java/br/com/mswithspring/backend/ms_product/service/ProductService.java:30-33 | the i-th DTO is the DTO of the i-th row in id order |
| ProductCatalog.NotFoundMessageNamesId | ms-product/src/main/java/br/com/mswithspring/backend/ms_product/exception/ProductNotFoundException.java:4-5 | the not-found message starts with its fixed prefix followed by the id's digits |
| ProductCatalog.ValidAsciiNamePassesSaveCheck | ms-product/src/main/java/br/com/mswithspring/backend/ms_product/service/ProductService.java:49 | a valid DTO whose name is ASCII always passes save's name check |
| ProductCatalog.ValidNameCanBeBlank | ms-product/src/main/java/br/com/mswithspring/backend/ms_product/model/dto/ProductDto.java:8 | a name of three em spaces passes @NotBlank yet is blank for save's String.isBlank check |
| ProductCatalog.ProductService.constructor | ms-product/src/main/java/br/com/mswithspring/backend/ms_product/service/ProductService.java:22-26 | a service over an empty repository whose identity counter starts at 1 |
| ProductCatalog.ProductService.FindAll | ms-product/src/main/java/br/com/mswithspring/backend/ms_product/service/ProductService.java:28-34 | one DTO per stored product, in ascending id order, each stored product's DTO present |
| ProductCatalog.ProductService.FindById | ms-product/src/main/java/br/com/mswithspring/backend/ms_product/service/ProductService.java:36-42 | fails with NotFound(id) if and only if no product has that id; otherwise the product's DTO |
| ProductCatalog.ProductService.Save | ms-product/src/main/java/br/com/mswithspring/backend/ms_product/service/ProductService.java:44-57 | a null DTO and a null or blank name are rejected with their messages and change nothing; otherwise the product is stored under the next identity value, nothing else changes, the DTO is returned and is found again under the new id |
| ProductCatalog.ProductService.Update | ms-product/src/main/java/br/com/mswithspring/backend/ms_product/service/ProductService.java:59-70 | a null DTO and an unknown id are rejected and change nothing; otherwise only that product is replaced by the DTO's fields, keeping its id, and the DTO is returned and found again |
| ProductCatalog.ProductService.DeleteById | ms-product/src/main/java/br/com/mswithspring/backend/ms_product/service/ProductService.java:72-78 | an unknown id fails with NotFound and changes nothing; otherwise exactly that product is removed |

## Left out

- The HTTP layer (controllers, `GlobalExceptionHandler`, status codes) and Spring wiring are not modelled. Exceptions are `Failure` values.
- The Feign client `ProductClient` is not modelled. It becomes the `lookup` parameter: a total function from id to "threw, with an optional message" or "returned a possibly null product".
- `UUID.randomUUID()` and `LocalDateTime.now()` are inputs, because they are randomness and a clock.
- `OrderCreationException`'s text is modelled through `Message`. A null exception message renders as "null", as `String.format` does. The exception's class hierarchy is not modelled.
- `@Transactional`, the JPA persistence context and entity identity are not modelled. A loaded entity is a fresh copy of the stored row, written back by `save`.
- JPA `findAll` has no ordering guarantee. The model lists in ascending id order, which is the usual order for an IDENTITY key.
- `BigDecimal` scale and precision are not modelled, including the column's precision 10, scale 2. Values are exact reals, so 19.98 and 19.980 are the same number.
- `Long` and `Integer` widths are not modelled. Ids, quantities and the `Long` identity counter are unbounded, so values outside those ranges and overflow of the counter are not captured. Price × quantity is a `BigDecimal` product, which is exact in Java as in the model.
- String lengths in `@Size` are counted in Unicode scalar values rather than UTF-16 code units. This only differs for characters outside the Basic Multilingual Plane.
- The getters, setters and `toString` of `Product` are plain field access and are folded into `Product.State` and the mapper.
- The `IllegalStateException` branches after `toDto`/`toEntity` cannot be reached with this mapper. They are still carried through `OrElseThrow`.
- OrderService.SimulateOrder: repeated lookups of one id within a simulation are assumed to return the same outcome, because `lookup` is a function of the id. The Java makes one HTTP call per item, so two items with the same product id could see different prices, or one could fail on a transient error; the model cannot express that.
- OrderService.SimulateOrder: the error for a null element stands for the `NullPointerException` the Java loop throws. It is not an `OrderCreationException`.

## Findings

| source | as written | input that shows it | evidently intended | confidence | as-written member | corrected member |
|---|---|---|---|---|---|---|
| ms-order/src/main/java/br/com/mswithspring/backend/ms_order/dto/OrderDto.java:15-18 and ms-order/src/main/java/br/com/mswithspring/backend/ms_order/service/OrderService.java:33-36 | `@Valid` cascades only into non-null elements, so a null element of `items` passes validation; `simulateOrder` then calls `item.productId()` on it and throws a `NullPointerException` (a server error) | `{"customerId": 1, "items": [null]}` | a null item is rejected as a validation error (e.g. `List<@NotNull @Valid OrderItemDto>`), so the simulation only fails with an order-creation error | not executed | OrderService.NullElementPassesValidation | OrderService.IntendedValidationExcludesNullPointer |
