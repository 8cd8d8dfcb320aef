# VirtualCoffee orders and beverages, modelled in Dafny

VirtualCoffee is made of two small services:

- **The orders backend** (Java, Spring). It keeps an in-memory list of orders and an
  id counter. `createOrder` validates the request, numbers the order, asks the
  beverage catalog whether the beverage exists, and stores the order. A known
  beverage is stored CONFIRMED with the catalog's price. An unknown one is stored
  REJECTED with a reason and the call fails. The service also offers queries by id,
  status and customer, the status counts, the total sales, clearing and statistics.
  `Order` is a mutable record with two constructors, setters, a test builder, status
  predicates and id-based `equals`/`hashCode`.
- **The beverage catalog** (Python, FastAPI). It keeps a module-level list of
  beverage entries and a `next_id` counter. It validates request bodies (name 1..100
  characters and not blank, size small/medium/large, price in (0, 100]). It offers
  the filtered menu, lookup by name ignoring case, add, full replace, partial update,
  delete and reset.

The project has six modules:

| module | file | models |
|---|---|---|
| `Wrappers` | `wrappers.dfy` | `Option` and `Result` |
| `Text` | `text.dfy` | Java `trim()`, Python `strip()`, ASCII case folding, the size pattern |
| `Seqs` | `seqs.dfy` | order-preserving filter, count and first match, with their lemmas |
| `Orders` | `orders.dfy` | `Order.java` |
| `Service` | `order_service.dfy` | `OrderService.java` |
| `DrinksApi` | `drinks_api.dfy` | `drinksApi/app/main.py` |

Each stateful operation follows the same pattern:

- It is a method on a class whose fields are the source's state (`OrderService`,
  `MenuStore`, `Order`, `OrderBuilder`).
- The method is proved equal to a pure specification function of the old state
  (`Create`, `Add`, `Put`, `Patch`, `Delete`, `Lookup`).
- Lemmas about those functions state what the source promises: error cases,
  outcomes, preserved invariants and ordering.

The store invariants are:

- for orders, ids strictly increase below the counter, and every stored order is
  resolved to CONFIRMED or REJECTED;
- for the menu, ids are in `[1, next_id)` and strictly increasing; every operation
  keeps this.

Names are unique ignoring case after add, replace and delete whenever they were
unique before. A partial update can break this, because it checks no names
(`DrinksApi.PatchMayBreakUniqueNames`). So it is not an invariant of the menu
store, and every operation accepts a menu whose names collide.

The beverage catalog client of the orders backend is not modelled as code. The
catalog's answers during one `createOrder` call are a parameter (`Service.Catalog`):

- the existence check answers present, absent, or unavailable (a connection failure);
- the detail lookup answers a reply or nothing.

`CreateOrder` also returns the sequence of catalog requests it made, in order.

## Model

| member | source | states |
|---|---|---|
| `Orders.OrderData.IsConfirmed` | VirtualCoffeOrders/backend/src/main/java/com/virtualcoffeorders/orders/model/Order.java:161-163 | null-safe exact comparison of the status with CONFIRMED; no contract of its own, its meaning is stated by `Orders.StatusPredicatesExclusive` |
| `Orders.OrderData.IsRejected` | VirtualCoffeOrders/backend/src/main/java/com/virtualcoffeorders/orders/model/Order.java:165-167 | the same with REJECTED; no contract of its own, see `Orders.StatusPredicatesExclusive` |
| `Orders.OrderData.IsPending` | VirtualCoffeOrders/backend/src/main/java/com/virtualcoffeorders/orders/model/Order.java:169-171 | the same with PENDING; no contract of its own, see `Orders.StatusPredicatesExclusive` |
| `Orders.OrderData.Equals` | VirtualCoffeOrders/backend/src/main/java/com/virtualcoffeorders/orders/model/Order.java:175-180 | `Objects.equals` on the ids; no contract of its own, its meaning is stated by `Orders.EqualsIsEquivalence` and `Orders.EqualOrdersHashAlike` |
| `Orders.LongHash` | VirtualCoffeOrders/backend/src/main/java/com/virtualcoffeorders/orders/model/Order.java:183-185 | `Long.hashCode` on the 64-bit two's complement pattern; no contract of its own, see `Orders.SmallIdHash` and `Orders.OrderData.HashCode` |
| `Orders.StatusPredicatesExclusive` | VirtualCoffeOrders/backend/src/main/java/com/virtualcoffeorders/orders/model/Order.java:161-171 | isConfirmed, isRejected and isPending are null-safe exact comparisons, so at most one of them holds for any order |
| `Orders.EqualsIsEquivalence` | VirtualCoffeOrders/backend/src/main/java/com/virtualcoffeorders/orders/model/Order.java:175-180 | equals, which compares ids only (two null ids are equal), is reflexive, symmetric and transitive |
| `Orders.EqualOrdersHashAlike` | VirtualCoffeOrders/backend/src/main/java/com/virtualcoffeorders/orders/model/Order.java:175-185 | orders that are equal have the same 32-bit hashCode, whatever their other fields hold |
| `Orders.OrderData.HashCode` | VirtualCoffeOrders/backend/src/main/java/com/virtualcoffeorders/orders/model/Order.java:183-185 | Objects.hash of a null id is 31 |
| `Orders.SmallIdHash` | VirtualCoffeOrders/backend/src/main/java/com/virtualcoffeorders/orders/model/Order.java:183-185 | for an id in [0, 2^32) Long.hashCode is the id itself |
| `Orders.Order.Empty` | VirtualCoffeOrders/backend/src/main/java/com/virtualcoffeorders/orders/model/Order.java:36-39 | the no-argument constructor leaves every field null except the status, which is PENDING |
| `Orders.Order.constructor` | VirtualCoffeOrders/backend/src/main/java/com/virtualcoffeorders/orders/model/Order.java:42-47 | the three-argument constructor stores name, size and customer as given, status PENDING, every other field null |
| `Orders.Order.SetId` | VirtualCoffeOrders/backend/src/main/java/com/virtualcoffeorders/orders/model/Order.java:100-102 | only the id changes, to the given value |
| `Orders.Order.SetBeverageName` | VirtualCoffeOrders/backend/src/main/java/com/virtualcoffeorders/orders/model/Order.java:108-110 | only the beverage name changes |
| `Orders.Order.SetSize` | VirtualCoffeOrders/backend/src/main/java/com/virtualcoffeorders/orders/model/Order.java:116-118 | only the size changes |
| `Orders.Order.SetStatus` | VirtualCoffeOrders/backend/src/main/java/com/virtualcoffeorders/orders/model/Order.java:124-126 | only the status changes |
| `Orders.Order.SetPrice` | VirtualCoffeOrders/backend/src/main/java/com/virtualcoffeorders/orders/model/Order.java:132-134 | only the price changes |
| `Orders.Order.SetCustomerName` | VirtualCoffeOrders/backend/src/main/java/com/virtualcoffeorders/orders/model/Order.java:148-150 | only the customer name changes |
| `Orders.Order.SetRejectionReason` | VirtualCoffeOrders/backend/src/main/java/com/virtualcoffeorders/orders/model/Order.java:156-158 | only the rejection reason changes |
| `Orders.OrderBuilder.constructor` | VirtualCoffeOrders/backend/src/main/java/com/virtualcoffeorders/orders/model/Order.java:55-60 | a new builder has collected nothing |
| `Orders.OrderBuilder.WithBeverageName` | VirtualCoffeOrders/backend/src/main/java/com/virtualcoffeorders/orders/model/Order.java:62-65 | records the name, keeps the other collected fields, returns the same builder |
| `Orders.OrderBuilder.WithSize` | VirtualCoffeOrders/backend/src/main/java/com/virtualcoffeorders/orders/model/Order.java:67-70 | records the size, keeps the rest, returns the same builder |
| `Orders.OrderBuilder.WithCustomerName` | VirtualCoffeOrders/backend/src/main/java/com/virtualcoffeorders/orders/model/Order.java:72-75 | records the customer, keeps the rest, returns the same builder |
| `Orders.OrderBuilder.WithPrice` | VirtualCoffeOrders/backend/src/main/java/com/virtualcoffeorders/orders/model/Order.java:77-80 | records the price, keeps the rest, returns the same builder |
| `Orders.OrderBuilder.WithStatus` | VirtualCoffeOrders/backend/src/main/java/com/virtualcoffeorders/orders/model/Order.java:82-85 | records the status, keeps the rest, returns the same builder |
| `Orders.OrderBuilder.Build` | VirtualCoffeOrders/backend/src/main/java/com/virtualcoffeorders/orders/model/Order.java:87-92 | a fresh order with the collected name, size, customer and price; the status is the collected one, or PENDING when none was given; no id and no reason |
| `Text.TrimEmptyIffBlank` | VirtualCoffeOrders/backend/src/main/java/com/virtualcoffeorders/orders/service/OrderService.java:60 | trimming yields the empty string exactly when every character is white space (for Java trim and for Python strip alike) |
| `Text.TrimOfNonBlank` | VirtualCoffe/drinksApi/app/main.py:42-44 | the trim of a non-blank string is non-empty and has no white space at either end |
| `Service.ValidateOrderInput` | VirtualCoffeOrders/backend/src/main/java/com/virtualcoffeorders/orders/service/OrderService.java:59-69 | the first failing input check, or none; no contract of its own, its meaning is stated by `Service.ValidationVerdicts` |
| `Service.Create` | VirtualCoffeOrders/backend/src/main/java/com/virtualcoffeorders/orders/service/OrderService.java:33-57 | createOrder as a function of the store, the counter and the catalog's answers; no contract of its own, its meaning is stated by `Service.CreateValidatesFirst`, `Service.CreateWhenCatalogUnavailable`, `Service.CreateWhenBeverageAbsent`, `Service.CreateWhenBeveragePresent`, `Service.CreateAfterClear` and `Service.CreateKeepsInvariant` |
| `Service.TotalSales` | VirtualCoffeOrders/backend/src/main/java/com/virtualcoffeorders/orders/service/OrderService.java:97-103 | the sum of the prices of the confirmed, priced orders; no contract of its own, its meaning is stated by `Service.TotalSalesSnoc` |
| `Service.OrderService.CalculateTotalSales` | VirtualCoffeOrders/backend/src/main/java/com/virtualcoffeorders/orders/service/OrderService.java:97-103 | the total sales of the store; no contract of its own, see `Service.TotalSalesSnoc` |
| `Service.ValidationVerdicts` | VirtualCoffeOrders/backend/src/main/java/com/virtualcoffeorders/orders/service/OrderService.java:59-69 | each verdict of validateOrderInput holds exactly when its check is the first to fail: null/blank name, else null or invalid size, else present-but-blank customer; no verdict exactly when all checks pass |
| `Service.CreateValidatesFirst` | VirtualCoffeOrders/backend/src/main/java/com/virtualcoffeorders/orders/service/OrderService.java:33-69 | createOrder fails with a validation error exactly when the input is unacceptable, and then makes no catalog request, takes no id and leaves the store alone; the error names the first failing check (blank name, else invalid size, else blank customer) |
| `Service.CreateWhenCatalogUnavailable` | VirtualCoffeOrders/backend/src/main/java/com/virtualcoffeorders/orders/service/OrderService.java:37-41 | a catalog connection failure propagates after one existence request about the untrimmed name; nothing is stored but the id is used up |
| `Service.CreateWhenBeverageAbsent` | VirtualCoffeOrders/backend/src/main/java/com/virtualcoffeorders/orders/service/OrderService.java:37-46 | an unknown beverage: one REJECTED order with a reason and no price, the trimmed beverage name and the size and customer as given, is appended under the next id, the detail lookup is never requested, and the call fails naming the beverage |
| `Service.CreateWhenBeveragePresent` | VirtualCoffeOrders/backend/src/main/java/com/virtualcoffeorders/orders/service/OrderService.java:37-57 | a known beverage: existence then detail request; the returned order is appended, CONFIRMED, under the next id, with the trimmed non-empty name, size and customer as given, no reason, and a price exactly when the detail reply carried one |
| `Service.CreateAfterClear` | VirtualCoffeOrders/backend/src/main/java/com/virtualcoffeorders/orders/service/OrderService.java:105-108 | after clearing, the order created next has id 1 |
| `Service.CreateKeepsInvariant` | VirtualCoffeOrders/backend/src/main/java/com/virtualcoffeorders/orders/service/OrderService.java:33-57 | createOrder keeps the store invariant: ids strictly increasing below the counter, every order a valid, trimmed, resolved (CONFIRMED or REJECTED) order |
| `Service.TotalSalesSnoc` | VirtualCoffeOrders/backend/src/main/java/com/virtualcoffeorders/orders/service/OrderService.java:97-103 | appending an order adds its price to the total sales when it is confirmed and priced, and nothing otherwise |
| `Service.ResolvedStatusCounts` | VirtualCoffeOrders/backend/src/main/java/com/virtualcoffeorders/orders/service/OrderService.java:91-95 | in a list of CONFIRMED and REJECTED orders the two status counts add up to its length and the PENDING count is zero |
| `Service.StoreStatusCounts` | VirtualCoffeOrders/backend/src/main/java/com/virtualcoffeorders/orders/service/OrderService.java:110-117 | the same holds for every store that keeps the invariant |
| `Service.OrderService.constructor` | VirtualCoffeOrders/backend/src/main/java/com/virtualcoffeorders/orders/service/OrderService.java:21-22 | an empty store with the counter at 1 |
| `Service.OrderService.CreateOrder` | VirtualCoffeOrders/backend/src/main/java/com/virtualcoffeorders/orders/service/OrderService.java:33-57 | building the order with the constructor and setters gives exactly the result, catalog requests, store and counter of `Create`, and keeps the store invariant |
| `Service.OrderService.GetAllOrders` | VirtualCoffeOrders/backend/src/main/java/com/virtualcoffeorders/orders/service/OrderService.java:71-73 | the stored orders in creation order |
| `Service.OrderService.GetOrderById` | VirtualCoffeOrders/backend/src/main/java/com/virtualcoffeorders/orders/service/OrderService.java:75-77 | empty exactly when no order has the id; otherwise the first stored order with that id |
| `Service.OrderService.GetOrdersByStatus` | VirtualCoffeOrders/backend/src/main/java/com/virtualcoffeorders/orders/service/OrderService.java:79-83 | every order returned is stored and has the status ignoring case, and every such stored order is returned |
| `Service.OrderService.GetOrdersByCustomer` | VirtualCoffeOrders/backend/src/main/java/com/virtualcoffeorders/orders/service/OrderService.java:85-89 | every order returned is stored and has the customer ignoring case, and every such stored order is returned; orders without a customer never are |
| `Service.OrderService.CountOrdersByStatus` | VirtualCoffeOrders/backend/src/main/java/com/virtualcoffeorders/orders/service/OrderService.java:91-95 | the count is the number of orders getOrdersByStatus returns |
| `Service.OrderService.ClearOrders` | VirtualCoffeOrders/backend/src/main/java/com/virtualcoffeorders/orders/service/OrderService.java:105-108 | the store is empty, the counter back at 1, the invariant holds |
| `Service.OrderService.GetStatistics` | VirtualCoffeOrders/backend/src/main/java/com/virtualcoffeorders/orders/service/OrderService.java:110-117 | total is the store size, the confirmed and rejected counts are the status query sizes, sales are the total sales; in a store built by createOrder confirmed + rejected = total and pending = 0 |
| `DrinksApi.ValidateBeverage` | VirtualCoffe/drinksApi/app/main.py:33-53 | the validation of a request body; no contract of its own, its meaning is stated by `DrinksApi.BeverageValidation` |
| `DrinksApi.ValidateUpdate` | VirtualCoffe/drinksApi/app/main.py:81-84 | the validation of a partial update body; no contract of its own, its meaning is stated by `DrinksApi.UpdateValidation` |
| `DrinksApi.Put` | VirtualCoffe/drinksApi/app/main.py:151-162 | update_beverage on a menu value; no contract of its own, its meaning is stated by `DrinksApi.PutOutcome`, `DrinksApi.PutKeepsIds` and `DrinksApi.PutKeepsNamesUnique` |
| `DrinksApi.Patch` | VirtualCoffe/drinksApi/app/main.py:164-175 | partial_update_beverage on a menu value; no contract of its own, its meaning is stated by `DrinksApi.PatchOutcome`, `DrinksApi.PatchKeepsIds`, `DrinksApi.Patched`, `DrinksApi.PatchMayBreakUniqueNames` and `DrinksApi.PatchMayStoreEmptyName` |
| `DrinksApi.Delete` | VirtualCoffe/drinksApi/app/main.py:177-183 | delete_beverage on a menu value; no contract of its own, its meaning is stated by `DrinksApi.DeleteOutcome` and `DrinksApi.DeleteKeepsInvariants` |
| `DrinksApi.MenuView` | VirtualCoffe/drinksApi/app/main.py:119-129 | get_menu's chained filters as written; no contract of its own, its meaning is stated by `DrinksApi.MenuViewIsConjunctive` and `DrinksApi.MenuViewUnfiltered` |
| `DrinksApi.BeverageValidation` | VirtualCoffe/drinksApi/app/main.py:33-53 | a body is accepted exactly when the name is 1..100 characters and not blank, the size is small/medium/large and the price is in (0, 100]; the accepted name is stripped, non-empty, without white space at either end; a rejection lists each broken constraint and only those |
| `DrinksApi.UpdateValidation` | VirtualCoffe/drinksApi/app/main.py:81-84 | an update body is accepted, unchanged, exactly when each field it carries meets its length, pattern or range constraint |
| `DrinksApi.ResetMenu` | VirtualCoffe/drinksApi/app/main.py:91-94 | the reset menu has valid ids and unique names |
| `DrinksApi.Add` | VirtualCoffe/drinksApi/app/main.py:139-149 | refused with NameTaken and the menu unchanged exactly when the name is in use ignoring case; otherwise the entry under next_id is appended and next_id moves on |
| `DrinksApi.AddKeepsInvariants` | VirtualCoffe/drinksApi/app/main.py:139-149 | adding keeps ids valid and names unique |
| `DrinksApi.PutOutcome` | VirtualCoffe/drinksApi/app/main.py:151-162 | NotFound exactly when no entry has the id; NameTaken exactly when one does and another entry uses the name; a refusal leaves the menu unchanged; success answers with the stored entry under the requested id |
| `DrinksApi.PutKeepsIds` | VirtualCoffe/drinksApi/app/main.py:151-162 | replacing keeps the length, every id in place, every entry with another id, the counter, and so valid ids |
| `DrinksApi.PutKeepsNamesUnique` | VirtualCoffe/drinksApi/app/main.py:151-162 | on a menu with valid ids, replacing keeps names unique |
| `DrinksApi.Patched` | VirtualCoffe/drinksApi/app/main.py:168-173 | the patched entry keeps its id; each field the update carries is written (the name stripped), the others are kept |
| `DrinksApi.PatchOutcome` | VirtualCoffe/drinksApi/app/main.py:166-174 | a successful partial update writes the old entry patched by the update at the first index holding the id, changes nothing else, and answers with that entry |
| `DrinksApi.PatchKeepsIds` | VirtualCoffe/drinksApi/app/main.py:164-175 | NotFound exactly when no entry has the id; patching keeps the length, every id in place, every other entry, the counter, and so valid ids |
| `DrinksApi.PatchMayBreakUniqueNames` | VirtualCoffe/drinksApi/app/main.py:164-175 | the partial update checks no names: renaming an entry to another entry's name, in any case, leaves two names equal ignoring case |
| `DrinksApi.PatchMayStoreEmptyName` | VirtualCoffe/drinksApi/app/main.py:164-175 | a white-space-only name passes update validation, and the patched entry is left with the empty name |
| `DrinksApi.DeleteOutcome` | VirtualCoffe/drinksApi/app/main.py:177-183 | NotFound with the menu unchanged exactly when no entry has the id; otherwise exactly the first entry with the id is removed, the rest kept in order, the counter kept; with valid ids none with that id is left |
| `DrinksApi.DeleteKeepsInvariants` | VirtualCoffe/drinksApi/app/main.py:177-183 | deleting keeps ids valid and names unique |
| `DrinksApi.Lookup` | VirtualCoffe/drinksApi/app/main.py:131-137 | none exactly when no entry's lowered name equals the lowered, stripped query; otherwise the first entry whose does |
| `DrinksApi.MenuViewIsConjunctive` | VirtualCoffe/drinksApi/app/main.py:119-129 | the chained size, minimum and maximum filters equal one order-preserving filter by the conjunction of the given conditions (empty size = no size filter, bounds inclusive) |
| `DrinksApi.MenuViewUnfiltered` | VirtualCoffe/drinksApi/app/main.py:119-129 | with no filter given, or an empty size, the whole menu is returned |
| `DrinksApi.MenuStore.constructor` | VirtualCoffe/drinksApi/app/main.py:88-89 | the initial state is the reset menu |
| `DrinksApi.MenuStore.ResetDatabase` | VirtualCoffe/drinksApi/app/main.py:91-94 | the state becomes the reset menu |
| `DrinksApi.MenuStore.GetMenu` | VirtualCoffe/drinksApi/app/main.py:119-129 | the entries meeting every given filter, in menu order |
| `DrinksApi.MenuStore.GetBeverageByName` | VirtualCoffe/drinksApi/app/main.py:131-137 | the loop finds what `Lookup` specifies |
| `DrinksApi.MenuStore.AddBeverage` | VirtualCoffe/drinksApi/app/main.py:139-149 | the scan and append give exactly the answer and menu of `Add`, keeping ids valid, and names unique when they were unique before |
| `DrinksApi.MenuStore.UpdateBeverage` | VirtualCoffe/drinksApi/app/main.py:151-162 | the two scans and the replacement give exactly the answer and menu of `Put`, keeping ids valid, and names unique when they were unique before |
| `DrinksApi.MenuStore.PartialUpdateBeverage` | VirtualCoffe/drinksApi/app/main.py:164-175 | the scan and field-by-field update give exactly the answer and menu of `Patch`, keeping ids valid |
| `DrinksApi.MenuStore.DeleteBeverage` | VirtualCoffe/drinksApi/app/main.py:177-183 | the scan and removal give exactly the answer and menu of `Delete`, keeping ids valid, and names unique when they were unique before |

## Left out

- Trimmed name in catalog requests: `createOrder` stores the trimmed beverage name,
  but asks the catalog about the name as given, untrimmed
  (OrderService.java:37 and 41). The service's unit test for trimming expects the
  catalog to be asked about the trimmed name. The model follows the code, not that
  test (`Service.CreateWhenCatalogUnavailable`, `Service.CreateWhenBeveragePresent`).
- Concurrency in the beverage catalog: the endpoints are plain functions, which
  FastAPI runs on a thread pool. Two requests can interleave between a scan and the
  update that follows it (for example the name scan of `add_beverage` and its
  append and `next_id += 1`). That could give two equal names or two equal ids. The
  menu store is modelled sequentially, one operation at a time, so its invariants
  hold only under that assumption.
- Concurrency in the orders backend: `AtomicLong` and the list are modelled as plain fields. Ids are
  unbounded integers, so the wrap-around of a 64-bit counter is not modelled.
- `createdAt` and `LocalDateTime.now()` are not modelled. They are set by the
  constructor, and nothing in the modelled operations reads them.
- Aliasing: the orders store holds order values. In the Java code, `createOrder`
  returns the same object it stores, so later setter calls on the returned object
  would change the stored order. That sharing is not modelled.
- The beverage catalog client (`BeverageClient`) and its HTTP calls are not part of
  this model. Its answers during one call are a parameter: present, absent or
  unavailable, then details or nothing. How HTTP status codes map to those answers
  is not modelled.
- Floating point: prices are exact reals. Java's double summation and Python's
  `round(v, 2)` are not modelled.
- Case folding: `equalsIgnoreCase` and `lower()` are modelled on ASCII letters only.
  Unicode case mappings beyond ASCII are not.
- Regular expressions: the size pattern `^(small|medium|large)$` is modelled as
  membership in the three words. This treats `$` as end of input, which holds for
  both Java `matches` and pydantic's pattern check.
- Null parameters: the id of `getOrderById` and the status of `getOrdersByStatus`
  and `countOrdersByStatus` are non-null here. In the Java code a null id matches no
  stored order, because `Long.equals(null)` is false, so the result is empty. A null
  status matches no order, because `equalsIgnoreCase(null)` is false, so the result
  is the empty list or a count of 0. `getOrdersByCustomer(null)` throws
  `NullPointerException` on a non-empty store and returns the empty list on an empty
  one. Here the customer parameter is non-null.
- A stored order with a null status matches no status query here. In the Java code
  it would throw; `createOrder` never stores such an order.
- `Service.OrderService.GetOrdersByStatus`: the contract states membership in both
  directions, not order or multiplicity. Order and multiplicity are kept by the
  definition through `Seqs.Filter`, whose lemmas state them.
- `Service.OrderService.GetOrdersByCustomer`: weaker in the same way as
  `GetOrdersByStatus`.
- `Service.OrderService.CalculateTotalSales` carries no contract of its own. What it
  computes is stated by `Service.TotalSalesSnoc`.
- Partial update aliasing: `partial_update_beverage` mutates the stored dict and
  returns that same dict. Here the patched entry is returned as a value.
- Response validation: FastAPI checks each answer against `BeverageResponse`,
  which applies the name length bound, the blank-name check and the price range
  again. A partial update that stores an empty name
  (`DrinksApi.PatchMayStoreEmptyName`), or a price that rounds to 0.0, therefore
  answers with a server error after the menu has already been changed. Every later
  `GET /menu` listing that entry fails the same way. The model stops at the changed
  menu and does not model this response check.
- FastAPI and Spring glue is not modelled: routing, response models, HTTP status
  codes, CORS, logging, the root and health endpoints, `clear_all_beverages` (a call
  of `reset_database`), the controller and the exception handlers. Their error
  replies are the `MenuError`, `OrderError` and `FieldError` values.
- Error messages are modelled as values, not as their text.
