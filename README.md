# Product-service stock deduction (choreographed saga step)

This project models the message handler of the product service in an
e-commerce system that coordinates inventory through a choreographed saga.
The service consumes every event broadcast on the `order_events` fanout
exchange. It reacts only to `ORDER_SHIPPED` events that carry a `products`
array. For each line item, in order, it looks the product up. It then either
deducts the requested quantity, or, when the stock is too low, records
`{productId, requested, available}` in a failure list. If any item fell
short, it publishes one `STOCK_UPDATE_FAILED` compensation event. Every
delivery is meant to be acked once, after any publish (see Findings for two
inputs on which the code never acks).

Layout:

- `wrappers.dfy`: `Option`, which stands for JavaScript's `null`/`undefined`.
- `events.dfy`: the decoded inbound event, the line items, the compensation
  event and the channel operations (`Publish`, `Ack`).
- `deduction.dfy`: the specification. `Step` is one iteration of the loop.
  `Run` is the whole loop. `Handle` is the whole callback. The lemmas about
  them are here too.
- `consumer.dfy`: the class `ProductConsumer`. It holds the store's stock
  levels and the ordered log of channel operations. Its `HandleMessage`
  method runs the loop in place and is proved equal to `Handle`.
- `aswritten.dfy`: the callback as written (publish and ack assumed to succeed), for the two inputs on
  which it loses the ack (see Findings).
- `scenarios.dfy`: concrete runs of the model.

The environment is turned into inputs:
- `JSON.parse` becomes a `Body`: `Unparsable`, `JsonNull` or `Parsed(event)`.
- A `null` delivery (consumer cancelled) is `Cancelled`.
- The Mongoose store is a `map<ProductId, int>`. A product missing from the
  map is one that `findById` does not find.
- Store exceptions are a map from line-item position to `LookupThrows` or
  `SaveThrows`.
- `orderId || null` is `CorrelationId`: an absent or empty order id becomes
  `None` (`null`).

A lookup or save error (`rabbit.js:70-72`) is only logged. It adds no entry
to `failedProducts`, so on its own it never causes a compensation.

## Model

| member | source | states |
|---|---|---|
| `Deduction.Step` | services/product-service/rabbit.js:51-72 | One loop iteration. It creates and removes no product and changes no product other than the item's. If the product is found, the quantity is a number, stock >= quantity and the save succeeds, stock drops by exactly the quantity and nothing is recorded. If stock < quantity, stock is untouched and exactly `{productId, requested: quantity, available: stock}` is appended. Otherwise (missing product, non-number quantity, lookup error, save error, `null` item) nothing changes. |
| `Deduction.RunKeepsProducts` | services/product-service/rabbit.js:50-73 | The loop neither creates nor removes products. |
| `Deduction.RunNonNegative` | services/product-service/rabbit.js:54-57 | If every stock level is non-negative before the loop, it still is after, for any integer quantities. |
| `Deduction.RunLeavesUnnamedAlone` | services/product-service/rabbit.js:50-58 | A product that no line item names keeps its stock level. |
| `Deduction.RunFailedEmptyIff` | services/product-service/rabbit.js:54-67 | The failure list is empty if and only if no item asks for more than the stock it sees at its turn, i.e. after the earlier items' deductions. |
| `Deduction.RunFailedAreShortfalls` | services/product-service/rabbit.js:59-67 | The failure list has no more entries than there are line items. Each entry has requested > available, names a product in the store, and names a product that some line item names. |
| `Deduction.RunFailedAreRejections` | services/product-service/rabbit.js:50-67 | After the first n items, the failure list has exactly one entry per item that asked for more than the stock it saw at its turn, in line-item order. Each entry is that item's product id, its requested quantity and the stock it saw, after the earlier items' deductions. |
| `Deduction.DistinctOrderClosedForm` | services/product-service/rabbit.js:50-73 | When each product is named at most once, the failure list is exactly the items that ask for more than the stock before the message, in line-item order. An over-requested product keeps its stock, and a satisfiable one loses exactly its quantity. |
| `Deduction.ParseFailureIsDropped` | services/product-service/rabbit.js:37-44 | A body that does not parse is acked once. No stock changes and nothing is published. |
| `Deduction.IgnoredEventHasNoEffect` | services/product-service/rabbit.js:47-93 | An event that is not `ORDER_SHIPPED`, or whose `products` is not an array, is acked once with no other effect. |
| `Deduction.AckedExactlyOnceLast` | services/product-service/rabbit.js:32-93 | Every delivery is acked exactly once, as the last channel operation. Only publishes come before the ack, and there is at most one of them. A cancelled consumer (`null` message) does nothing. |
| `Deduction.CompensationIffFailure` | services/product-service/rabbit.js:76-87 | For an `ORDER_SHIPPED` event with a `products` array, the stock is the loop's result. A compensation is published if and only if the failure list is non-empty, and then exactly one: type `STOCK_UPDATE_FAILED`, `orderId` or `null`, the same `userId`, and the whole failure list. |
| `Deduction.HandleNonNegative` | services/product-service/rabbit.js:31-94 | Handling one message never makes a stock level negative. |
| `Deduction.HandleAllNonNegative` | services/product-service/rabbit.js:31-94 | After any sequence of deliveries, including duplicates, every stock level is still non-negative. |
| `Deduction.Run` | services/product-service/rabbit.js:50-73 | Definition with no `ensures`: the loop over the line items, each item seeing the stock the earlier ones left. Its contract is carried by `RunKeepsProducts`, `RunNonNegative`, `RunLeavesUnnamedAlone`, `RunFailedEmptyIff`, `RunFailedAreShortfalls`, `RunFailedAreRejections` and `DistinctOrderClosedForm`. |
| `Deduction.CompensationOp` | services/product-service/rabbit.js:77-87 | Definition with no `ensures`: the publish of a `STOCK_UPDATE_FAILED` event carrying the correlation id, the `userId` and the failure list, to `order_events` with an empty routing key, persistent. Its contract is carried by `CompensationIffFailure`. |
| `Events.CorrelationId` | services/product-service/rabbit.js:79 | Definition with no `ensures`: the order id, or `null` when it is absent or empty (JavaScript `orderId` or-else `null`). Covered by `CompensationIffFailure` and `Scenarios.RepeatedProductSeesEarlierDeduction`. |
| `Deduction.Handle` | services/product-service/rabbit.js:31-94 | Definition with no `ensures`: the corrected callback. Its contract is carried by `ParseFailureIsDropped`, `IgnoredEventHasNoEffect`, `AckedExactlyOnceLast`, `CompensationIffFailure` and `HandleNonNegative`. |
| `AsWritten.RunAsWritten` | services/product-service/rabbit.js:50-73 | Definition with no `ensures`: the loop as written, which escapes at a `null` line item. Its contract is carried by `RunAsWrittenAgrees` and `RunAsWrittenEscapesAtFirstNull`. |
| `AsWritten.HandleAsWritten` | services/product-service/rabbit.js:31-94 | Definition with no `ensures`: the callback as written. Its contract is carried by `HandleAsWrittenAgrees`, `NullBodyIsNeverAcked` and `NullItemStopsHandler`. |
| `Consumer.ProductConsumer.DeductItems` | services/product-service/rabbit.js:50-73 | The in-place `for...of` loop leaves the store at `Run`'s stock and returns `Run`'s failure list. It does not touch the channel. |
| `Consumer.ProductConsumer.HandleMessage` | services/product-service/rabbit.js:31-94 | The in-place loop leaves the store at `Handle`'s stock. It appends exactly `Handle`'s operations to the channel log, keeps stock non-negative, adds one ack per delivery and publishes at most once. |
| `AsWritten.RunAsWrittenAgrees` | services/product-service/rabbit.js:50-73 | Without `null` line items, the loop as written ends normally with the model's result. |
| `AsWritten.HandleAsWrittenAgrees` | services/product-service/rabbit.js:31-94 | On every delivery without a `null` body or `null` line item, the callback as written and the model agree. |
| `AsWritten.NullBodyIsNeverAcked` | services/product-service/rabbit.js:38-47 | A body that parses to `null` gets no ack as written. The model acks it once. |
| `AsWritten.RunAsWrittenEscapesAtFirstNull` | services/product-service/rabbit.js:50-72 | For any items, the loop as written stops at the first `null` line item. It ends with the stock the earlier items left, as the model computes it, and processes no later item. |
| `AsWritten.NullItemStopsHandler` | services/product-service/rabbit.js:47-93 | For any `ORDER_SHIPPED` event with a `null` line item, the handler as written keeps the deductions saved before the first `null` and publishes and acks nothing. |
| `AsWritten.NullItemLosesAckAndCompensation` | services/product-service/rabbit.js:50-72 | For `products: [{p1, 3}, null, {p1, 9}]` against stock 5, the handler as written leaves stock 2 and sends nothing. The model skips the `null`, publishes the shortfall `{p1, 9, 2}` and acks. |
| `Scenarios.EnoughStockDeducts` | services/product-service/rabbit.js:54-58 | Stock 5 and a request for 3 leave 2, and only the ack is sent. |
| `Scenarios.ShortfallCompensates` | services/product-service/rabbit.js:59-90 | Stock 1 and a request for 4 leave stock 1. One compensation `{P2, requested 4, available 1}` is published before the ack. |
| `Scenarios.RepeatedProductSeesEarlierDeduction` | services/product-service/rabbit.js:50-79 | A product named twice sees the stock the first item left (`available: 2`). An empty `orderId` is published as `null`. |
| `Scenarios.StoreErrorIsIsolated` | services/product-service/rabbit.js:51-72 | A throwing save on the first item leaves that item's stock, still deducts the second, and adds no failure entry. |
| `Scenarios.DuplicateDeliveryDeductsTwice` | services/product-service/rabbit.js:31-94 | Nothing deduplicates deliveries: the same event delivered twice deducts twice. |

## Findings

| source | as written | input that shows it | evidently intended | confidence | as-written member | corrected member |
|---|---|---|---|---|---|---|
| services/product-service/rabbit.js:47 | `event.type` is read outside any `try`. A body that parses to `null` throws a TypeError, so the async callback rejects and never acks. | message body `null` | a parsed value that is not an event is acked and dropped | high (JavaScript semantics; not executed) | `AsWritten.NullBodyIsNeverAcked` | `Deduction.AckedExactlyOnceLast` |
| services/product-service/rabbit.js:71 | A `null` element of `products` throws at `item.productId` inside the `try`. The `catch` block's log line reads `item.productId` again and throws out of the loop. No later item is processed, no compensation is sent and the message is not acked. | `products: [{p1, 3}, null, {p1, 9}]` with stock 5 | the bad item is logged and skipped like any caught error, and the rest of the order is processed | high (JavaScript semantics; not executed) | `AsWritten.NullItemStopsHandler` | `Deduction.CompensationIffFailure` |

`Deduction.Handle`, which the class is proved against, carries the corrected
behaviour. `AsWritten.HandleAsWritten` models the code as written.

## Left out

- AMQP connection, exchange and queue declaration, binding, consumer registration and the startup error handler (`rabbit.js:18-29`, `rabbit.js:95-97`): broker I/O through `amqplib`, which is not part of this model. Fanout delivery belongs to AMQP 0-9-1. `channel.publish` (`rabbit.js:85`) and `channel.ack` (`rabbit.js:93`) are modelled as appends to a log that always succeed. If either throws, for example on a closed channel, the callback rejects and the ack is lost. The as-written model does not capture that.
- `JSON.parse`, `JSON.stringify` and `Buffer` (`rabbit.js:38`, `rabbit.js:85`): decoding is an input `Body`, and the published event is a datatype, not bytes.
- Mongoose persistence (`Product.findById`, `product.save()`): modelled as a map, with exceptions injected per item. The store's own atomicity and locking are not modelled.
- Interleaved deliveries: the callback is `async` and awaits at `rabbit.js:52` and `rabbit.js:57`. Nothing in `rabbit.js` makes one delivery wait for another: there is no prefetch limit, and the consumer does not wait for the callback's promise. So two deliveries can interleave their read and save of the same product and lose an update. For example, orders for 3 and 4 against stock 5 can both read 5, leaving 1 or 2, with no compensation. The model handles deliveries one at a time (`Consumer.ProductConsumer.HandleMessage`, `Deduction.HandleAll`). `Deduction.HandleAllNonNegative` and `Scenarios.DuplicateDeliveryDeductsTwice` assume this. Non-negativity would still hold under interleaving, because each save writes the read level minus q only when the read level is at least q. That case is not proved here.
- Logging (`console.log`, `console.warn`, `console.error`).
- Redelivery: the code has no deduplication key, so no idempotence is claimed. `Scenarios.DuplicateDeliveryDeductsTwice` shows the double deduction.
- Quantities are integers. Fractional numbers, `NaN` and infinities are JavaScript numbers, but they are not modelled. Any other value is `NotNumber`. A negative quantity raises stock, as in the code. Integer arithmetic is exact here, while JavaScript numbers are doubles that round above 2^53. For example, stock 1 minus quantity -2^53 stores 2^53 in JavaScript and 2^53+1 in the model.
- Line items that are non-`null` primitives (a number or a string) are not modelled. In the code they behave like an item whose product is not found.
- `orderId` and `userId` are modelled as optional strings. Other JSON types for them are not modelled.
- The consumer's `channel` is a field of the class, not the module-level variable (`rabbit.js:4`).
- services/user-service/server.js, services/product-service/middleware/auth.js and the frontend profile page: HTTP routes, hashing, tokens and UI. They are not part of this model.
