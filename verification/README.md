# Order lifecycle and delivery idempotency, modelled in Dafny

This project models the order-processing core of a small NATS JetStream
service written in Go:

- **the in-memory order store** (`MemoryOrderRepository`): a map from order id
  to order, with `Save` (insert, refusing an id already present), `FindByID`
  (lookup, returning the zero order and "order not found" when absent) and
  `Update` (replace, refusing an absent id);
- **the order service** (`orderService`): the two-state life cycle of an order,
  absent → `"created"` → `"processed"`, with `CreateOrder`, `GetOrder` and
  `ProcessOrder` built on the store;
- **the `orders.created` subscription callback** of `NATSListener`: decode the
  payload, call `CreateOrder`, then Nak on any failure and Ack on success;
- **the raw-id consumer** of `main.go`: a process-wide map of processed ids
  consulted by `handleOrderMessage`, which Acks duplicates without processing
  them, marks a new id before processing it, and withholds the Ack for
  `"order-3"` to simulate a failure.

Files and modules: `domain.dfy` (`Domain`: the order record, errors,
dispositions), `repository.dfy` (`Repository`), `services.dfy` (`Services`),
`listener.dfy` (`Listener`), `idempotency.dfy` (`Idempotency`, for `main.go`).

Each component that changes state in place is a class whose fields are that
state (`data`, `processedIDs`), and each of its methods is proved to produce
the result and the new state given by a pure step function (`SaveStep`,
`CreateStep`, `ProcessStep`, `OnCreatedStep`, `HandleStep`, ...). The step
functions carry the properties of single calls, stated through what
`FindByID` then observes; lemmas over sequences of calls carry the properties
of redelivery and of whole runs.

Points where the model follows the code as written:

- The listener Naks a create that fails because the id already exists; it does
  not acknowledge duplicates as a no-op. A redelivered valid create is
  therefore Acked once and Nak'ed on every later delivery
  (`Listener.RedeliveredCreateAckedOnce`). The only alternative the code
  mentions is a comment suggesting `msg.Term()` instead of the Nak
  (internal/infra/nats_listener.go:47); it is not implemented, so it is not
  modelled.
- `CreateOrder` refuses a duplicate only when the found order has a non-empty
  id. The model keeps that guard and proves that the outcome still depends on
  membership alone: a found entry with an empty id falls through to `Save`,
  which refuses it with the same error text.
- `ProcessOrder` updates the loaded order under that order's own id. It
  changes exactly the entry under the requested id only in a store where every
  entry is filed under its own id (`Repository.KeyedById`), which every store
  built by `Save` and `Update` is (`Repository.RunNeverRemovesKeys`).
- `main.go` marks an id as processed before the simulated failure of
  `"order-3"`, so a redelivered `"order-3"` is Acked as a duplicate and never
  processed again (`Idempotency.FailingIdAckedOnRedelivery`).

## Model

| member | source | states |
|---|---|---|
| `Repository.Find` | internal/repository/memory_order_repository.go:34-41 | FindByID succeeds if and only if the id is a key, then returns the stored order; otherwise it returns the zero order and "order not found" |
| `Repository.SaveStep` | internal/repository/memory_order_repository.go:24-31 | Save succeeds iff the id is absent (an empty id included); on success FindByID of that id returns exactly the saved order and the key set gains just that id; on failure "already exists" and the map is unchanged; other entries never change; entries stay filed under their own id |
| `Repository.UpdateStep` | internal/repository/memory_order_repository.go:44-52 | Update succeeds iff the id is present; on success FindByID returns the new order; on failure "not found for update" and the map is unchanged; the key set and every other entry are unchanged |
| `Repository.RunNeverRemovesKeys` | internal/repository/memory_order_repository.go:24-52 | Across any sequence of Save, FindByID and Update calls the key set only grows and every entry stays filed under its own id |
| `Repository.SavedOrderStaysFindable` | internal/repository/memory_order_repository.go:24-41 | After a successful Save, FindByID returns exactly the saved order through any later sequence of Save and FindByID calls |
| `Repository.MemoryOrderRepository.constructor` | internal/repository/memory_order_repository.go:18-22 | A new store is empty and valid |
| `Repository.MemoryOrderRepository.Save` | internal/repository/memory_order_repository.go:24-32 | Returns the error and leaves the map given by SaveStep; on a valid store (every entry under its own id) keeps it valid |
| `Repository.MemoryOrderRepository.FindByID` | internal/repository/memory_order_repository.go:34-42 | Returns the stored order iff the id is a key, else the zero order and "order not found"; changes nothing |
| `Repository.MemoryOrderRepository.Update` | internal/repository/memory_order_repository.go:44-52 | Returns the error and leaves the map given by UpdateStep; on a valid store keeps it valid |
| `Services.CreateStep` | internal/services/order_service.go:36-48 | An empty id fails and changes nothing; an id already stored fails with "already exists" and changes nothing; otherwise it succeeds, FindByID then returns the order with status "created" and its id and items unchanged, and no other entry changes |
| `Services.ProcessStep` | internal/services/order_service.go:54-64 | An absent id fails with a wrapped "order not found"; a status other than exactly "created" fails naming that status; any failure changes nothing; in a store keyed by id it succeeds iff the order is "created", then holds it as "processed" with id and items kept, and no other entry changes |
| `Services.CreateTwiceFails` | internal/services/order_service.go:41-44 | A second CreateOrder with the same id always fails and leaves the store unchanged |
| `Services.ProcessTwiceFails` | internal/services/order_service.go:59-61 | After a successful ProcessOrder a second one fails with status "processed" and changes nothing |
| `Services.CreateThenProcess` | internal/services/order_service.go:36-64 | Creating a new order and then processing it leaves exactly that order, items kept, in status "processed" |
| `Services.StatusTransitionsAreForward` | internal/services/order_service.go:46-62 | Every request leaves each entry unchanged or moves it absent→"created" or "created"→"processed" |
| `Services.ServeAllKeepsServiceStore` | internal/services/order_service.go:36-64 | Over any sequence of requests the store holds only "created" or "processed" orders under non-empty ids filed by their own id, and no order disappears |
| `Services.OrderService.constructor` | internal/services/order_service.go:30-34 | The new service works over exactly the store it is given |
| `Services.OrderService.CreateOrder` | internal/services/order_service.go:36-48 | Returns the error and leaves the store given by CreateStep; keeps the store valid |
| `Services.OrderService.GetOrder` | internal/services/order_service.go:50-52 | Returns exactly what FindByID returns and changes nothing |
| `Services.OrderService.ProcessOrder` | internal/services/order_service.go:54-64 | Returns the error and leaves the store given by ProcessStep; on the valid store succeeds iff the order under the id exists with status exactly "created"; keeps the store valid |
| `Listener.OnCreatedStep` | internal/infra/nats_listener.go:28-57 | Every delivery gets Ack or Nak, never no disposition; Ack iff the payload decoded to an order with a non-empty id not yet stored; Nak leaves the store unchanged; Ack stores exactly that order with status "created" |
| `Listener.DuplicatesAreNakked` | internal/infra/nats_listener.go:40-49 | Any number of deliveries of a create whose id is already stored are all Nak'ed and leave the store unchanged |
| `Listener.RedeliveredCreateAckedOnce` | internal/infra/nats_listener.go:40-56 | Delivering the same valid create n ≥ 1 times gives Ack then n−1 Naks, and the store holds that one order as "created" |
| `Listener.NATSListener.constructor` | internal/infra/nats_listener.go:18-23 | The new listener drives exactly the service it is given |
| `Listener.NATSListener.OnOrderCreated` | internal/infra/nats_listener.go:28-57 | Returns the disposition and leaves the store given by OnCreatedStep; keeps the store valid |
| `Idempotency.IsProcessed` | main.go:112-116 | alreadyProcessed reads the map: true iff the id is present and mapped to true; a missing id reads as false |
| `Idempotency.Mark` | main.go:119-123 | After markProcessed the id reads as processed and no other id changes |
| `Idempotency.MarkIdempotent` | main.go:119-123 | Marking twice is the same as marking once, and marking never unmarks an id |
| `Idempotency.ProcessedIffMarked` | main.go:112-123 | After a sequence of markProcessed calls, alreadyProcessed(id) holds iff it held before or id was marked |
| `Idempotency.HandleStep` | main.go:87-109 | A processed id is Acked with nothing processed and nothing changed; a new id is marked and processed exactly once, then Acked unless it is "order-3", which gets no disposition; never a Nak; the id is always marked afterwards |
| `Idempotency.FailingIdAckedOnRedelivery` | main.go:91-104 | A first delivery of "order-3" is processed and left without Ack; its redelivery is Acked as a duplicate without processing |
| `Idempotency.RepeatedDeliveryProcessedOnce` | main.go:91-98 | Delivering the same id n ≥ 1 times processes it exactly once if it was new and never if it was already processed |
| `Idempotency.HandleAllProcessesEachIdOnce` | main.go:87-123 | Over any run of deliveries, no id is processed twice, an id is marked exactly when it has been processed, and the processed ids are the earlier ones plus those delivered |
| `Idempotency.OrderHandler.constructor` | main.go:12-17 | The processed-id map starts empty, nothing has been processed, and the map and the processing log agree (so HandleAllProcessesEachIdOnce applies from the start) |
| `Idempotency.OrderHandler.AlreadyProcessed` | main.go:112-116 | True iff the id maps to true; a missing id reads as false; changes nothing |
| `Idempotency.OrderHandler.MarkProcessed` | main.go:119-123 | Sets the id to true and nothing else |
| `Idempotency.OrderHandler.HandleOrderMessage` | main.go:87-109 | Returns the disposition and leaves the processed map and processing log given by HandleStep |

## Left out

- The read/write mutexes of the store and of `processedIDs`, and the races they
  leave open (the check-then-mark window in `main.go`, FindByID-then-Save in
  `CreateOrder`): every call is modelled as one atomic sequential step.
- JSON decoding of the payload: the listener takes the decode result as an
  `Option<Order>` input.
- The errors returned by `Ack()` and `Nak()`, and all logging: the source only
  logs them. The "Processing order" log line of `main.go` is kept as the
  `processing` log, the only observable effect of processing.
- The `OrderRepository` and `OrderService` interfaces (internal/services/order_service.go:11-22)
  and the interface-typed fields holding them: the service is modelled over
  the in-memory store only, and the listener over that one service class.
- `context.Context` parameters, which the core never reads.
- NATS connection, JetStream context, stream provisioning, subscription setup
  and the demo publisher with its sleeps (`main.go` lines 19-84, `cmd/main.go`):
  transport and bootstrap.
- `internal/infra/nats_publisher.go` (a wrapper over JSON encoding and
  publish) and `config/config.go` (environment lookup) are not part of this
  model.
- Error values are modelled by kind and embedded id or status, not by their
  formatted text.
