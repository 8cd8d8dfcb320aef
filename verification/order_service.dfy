/**
 * The order service of the orders backend: an in-memory list of orders plus an id
 * counter, order creation against the beverage catalog, and the queries and
 * aggregates over the list.
 *
 * The beverage catalog client is an oracle: the answers the catalog gives during one
 * createOrder call are a parameter of that call, and CreateOrder reports which
 * catalog requests it made, in order.
 */
module Service {
  import opened Wrappers
  import opened Text
  import opened Seqs
  import opened Orders

  /** The reason recorded on a rejected order. */
  const NOT_ON_MENU: string := "Bebida no disponible en el men\U{FA}"

  /** What the catalog's existence check answers: found, a not-found reply (or any
      error other than a connection failure), or a connection failure. */
  datatype Existence = Present | Absent | Unavailable

  /** The catalog's detail reply; the reply's price field may itself be null. */
  datatype BeverageDetails = BeverageDetails(price: Option<real>)

  /** The catalog's answers during one createOrder call: to the existence check, and to
      the detail lookup (which turns every failure into an empty answer) should it be
      made. Which requests are made, and about which name, is part of the outcome. */
  datatype Catalog = Catalog(existence: Existence, details: Option<BeverageDetails>)

  /** One request made to the catalog. */
  datatype CatalogCall = ExistsCall(name: string) | LookupCall(name: string)

  /** Which input check failed, in the order the checks run. */
  datatype InputError = BlankBeverageName | InvalidSize | BlankCustomerName

  /** The errors createOrder raises. */
  datatype OrderError =
    | InvalidInput(reason: InputError)
    | BeverageNotFound(name: string)
    | CatalogUnavailable

  /** The aggregate returned by getStatistics. */
  datatype OrderStatistics = OrderStatistics(
    totalOrders: int, confirmedOrders: int, rejectedOrders: int, pendingOrders: int, totalSales: real)

  /** validateOrderInput: the first failing check, or None when the input is acceptable
      (the checks run in the order beverage name, size, customer name). */
  function ValidateOrderInput(beverageName: Option<string>, size: Option<string>, customerName: Option<string>)
    : Option<InputError>
  {
    if beverageName.None? || JavaTrim(beverageName.value) == [] then Some(BlankBeverageName)
    else if size.None? || !IsValidSize(size.value) then Some(InvalidSize)
    else if customerName.Some? && JavaTrim(customerName.value) == [] then Some(BlankCustomerName)
    else None
  }

  /** What each verdict of validateOrderInput means, with "blank" read as empty or all
      white space: a null or blank beverage name, else a null size or one other than
      small/medium/large, else a present but blank customer name; and no verdict
      exactly when none of these holds. */
  lemma ValidationVerdicts(beverageName: Option<string>, size: Option<string>, customerName: Option<string>)
    ensures ValidateOrderInput(beverageName, size, customerName) == Some(BlankBeverageName) <==>
      beverageName.None? || IsBlank(beverageName.value, JavaSpaces)
    ensures ValidateOrderInput(beverageName, size, customerName) == Some(InvalidSize) <==>
      && beverageName.Some? && !IsBlank(beverageName.value, JavaSpaces)
      && (size.None? || !IsValidSize(size.value))
    ensures ValidateOrderInput(beverageName, size, customerName) == Some(BlankCustomerName) <==>
      && beverageName.Some? && !IsBlank(beverageName.value, JavaSpaces)
      && size.Some? && IsValidSize(size.value)
      && customerName.Some? && IsBlank(customerName.value, JavaSpaces)
    ensures ValidateOrderInput(beverageName, size, customerName) == None <==>
      && beverageName.Some? && !IsBlank(beverageName.value, JavaSpaces)
      && size.Some? && IsValidSize(size.value)
      && (customerName.Some? ==> !IsBlank(customerName.value, JavaSpaces))
  {
    var nameBlank := beverageName.None? || IsBlank(beverageName.value, JavaSpaces);
    var sizeOk := size.Some? && IsValidSize(size.value);
    var customerBlank := customerName.Some? && IsBlank(customerName.value, JavaSpaces);
    if beverageName.Some? {
      TrimEmptyIffBlank(beverageName.value, JavaSpaces);
    }
    if customerName.Some? {
      TrimEmptyIffBlank(customerName.value, JavaSpaces);
    }
    assert ValidateOrderInput(beverageName, size, customerName) ==
      if nameBlank then Some(BlankBeverageName)
      else if !sizeOk then Some(InvalidSize)
      else if customerBlank then Some(BlankCustomerName)
      else None;
  }

  /** A stored order as createOrder leaves it: an id in [1, bound), a non-empty beverage
      name with no white space at either end, a valid size, a non-blank customer if any, and resolved to
      CONFIRMED (no rejection reason) or REJECTED (a reason, no price). */
  ghost predicate StoredOrder(o: OrderData, bound: int) {
    && o.id.Some? && 1 <= o.id.value < bound
    && o.beverageName.Some? && IsTrimmedNonEmpty(o.beverageName.value, JavaSpaces)
    && o.size.Some? && IsValidSize(o.size.value)
    && (o.customerName.Some? ==> !IsBlank(o.customerName.value, JavaSpaces))
    && ((o.IsConfirmed() && o.rejectionReason.None?) ||
        (o.IsRejected() && o.rejectionReason.Some? && o.price.None?))
  }

  /** The store invariant between clears: every order is a stored order below the
      counter, and ids strictly increase in store order. */
  ghost predicate StoreInvariant(orders: seq<OrderData>, nextId: int) {
    && nextId >= 1
    && (forall i :: 0 <= i < |orders| ==> StoredOrder(orders[i], nextId))
    && (forall i, j :: 0 <= i < j < |orders| ==> orders[i].id.value < orders[j].id.value)
  }

  /** o.getStatus().equalsIgnoreCase(status). */
  function HasStatus(status: string): OrderData -> bool {
    (o: OrderData) => o.status.Some? && EqualsIgnoreCase(o.status.value, status)
  }

  /** customerName.equalsIgnoreCase(o.getCustomerName()): false when the order has no customer. */
  function HasCustomer(customerName: string): OrderData -> bool {
    (o: OrderData) => o.customerName.Some? && EqualsIgnoreCase(customerName, o.customerName.value)
  }

  /** o.getId().equals(id). */
  function HasId(id: int): OrderData -> bool {
    (o: OrderData) => o.id == Some(id)
  }

  /** An order that counts towards the total sales: confirmed and priced. */
  predicate IsSale(o: OrderData) {
    o.IsConfirmed() && o.price.Some?
  }

  function Prices(orders: seq<OrderData>): seq<real>
    requires forall i :: 0 <= i < |orders| ==> orders[i].price.Some?
  {
    seq(|orders|, i requires 0 <= i < |orders| => orders[i].price.value)
  }

  function Sum(xs: seq<real>): real {
    if xs == [] then 0.0 else xs[0] + Sum(xs[1..])
  }

  /** calculateTotalSales: filter(isConfirmed), filter(price != null), map(price), sum. */
  function TotalSales(orders: seq<OrderData>): real {
    Sum(Prices(Filter(orders, IsSale)))
  }

  lemma {:induction false} SumAppend(a: seq<real>, b: seq<real>)
    ensures Sum(a + b) == Sum(a) + Sum(b)
  {
    if a == [] {
      assert a + b == b;
    } else {
      assert (a + b)[1..] == a[1..] + b;
      SumAppend(a[1..], b);
    }
  }

  /** Appending an order adds its price to the total sales when it is confirmed and
      priced, and nothing otherwise (a rejected order never changes the total). */
  lemma TotalSalesSnoc(orders: seq<OrderData>, o: OrderData)
    ensures TotalSales(orders + [o]) == TotalSales(orders) + (if IsSale(o) then o.price.value else 0.0)
  {
    FilterAppend(orders, [o], IsSale);
    var a, b := Filter(orders, IsSale), Filter([o], IsSale);
    assert Prices(a + b) == Prices(a) + Prices(b);
    SumAppend(Prices(a), Prices(b));
    if IsSale(o) {
      assert Prices(b) == [o.price.value];
    } else {
      assert Prices(b) == [];
    }
  }

  /** In a store whose orders are all CONFIRMED or REJECTED, the CONFIRMED and the
      REJECTED counts add up to the size of the store and nothing is PENDING. */
  lemma {:induction false} ResolvedStatusCounts(orders: seq<OrderData>)
    requires forall i :: 0 <= i < |orders| ==> orders[i].IsConfirmed() || orders[i].IsRejected()
    ensures Count(orders, HasStatus(CONFIRMED)) + Count(orders, HasStatus(REJECTED)) == |orders|
    ensures Count(orders, HasStatus(PENDING)) == 0
  {
    if orders != [] {
      ResolvedStatusCounts(orders[1..]);
      var o := orders[0];
      assert o.IsConfirmed() || o.IsRejected();
      assert HasStatus(CONFIRMED)(o) <==> o.IsConfirmed();
      assert HasStatus(REJECTED)(o) <==> o.IsRejected();
      assert !HasStatus(PENDING)(o);
    }
  }

  /** Moving the counter forward keeps the invariant. */
  lemma InvariantUnderBump(orders: seq<OrderData>, nextId: int)
    requires StoreInvariant(orders, nextId)
    ensures StoreInvariant(orders, nextId + 1)
  {
    forall i | 0 <= i < |orders|
      ensures StoredOrder(orders[i], nextId + 1)
    {
      assert StoredOrder(orders[i], nextId);
    }
  }

  /** Appending an order whose id is the previous counter value keeps the invariant,
      with the counter already past that id. */
  lemma InvariantUnderAppend(orders: seq<OrderData>, id: int, o: OrderData)
    requires StoreInvariant(orders, id + 1) && o.id == Some(id) && StoredOrder(o, id + 1)
    requires forall i :: 0 <= i < |orders| ==> orders[i].id.Some? && orders[i].id.value < id
    ensures StoreInvariant(orders + [o], id + 1)
  {
    var s := orders + [o];
    forall i | 0 <= i < |s|
      ensures StoredOrder(s[i], id + 1)
    {
      if i < |orders| {
        assert s[i] == orders[i];
      }
    }
  }

  /** An order made from accepted input, given an id and resolved the way createOrder
      resolves orders, is a stored order. */
  lemma ResolvedOrderIsStored(beverageName: Option<string>, size: Option<string>, customerName: Option<string>,
                              id: int, o: OrderData)
    requires ValidateOrderInput(beverageName, size, customerName) == None && id >= 1
    requires o.id == Some(id) && o.beverageName == Some(JavaTrim(beverageName.value))
    requires o.size == size && o.customerName == customerName
    requires (o.status == Some(CONFIRMED) && o.rejectionReason.None?) ||
             (o.status == Some(REJECTED) && o.rejectionReason.Some? && o.price.None?)
    ensures StoredOrder(o, id + 1)
  {
    ValidationVerdicts(beverageName, size, customerName);
    TrimOfNonBlank(beverageName.value, JavaSpaces);
  }

  /** The status counts of ResolvedStatusCounts hold in every store that keeps the invariant. */
  lemma StoreStatusCounts(orders: seq<OrderData>, nextId: int)
    ensures StoreInvariant(orders, nextId) ==>
      && Count(orders, HasStatus(CONFIRMED)) + Count(orders, HasStatus(REJECTED)) == |orders|
      && Count(orders, HasStatus(PENDING)) == 0
  {
    if StoreInvariant(orders, nextId) {
      assert forall i :: 0 <= i < |orders| ==> StoredOrder(orders[i], nextId);
      ResolvedStatusCounts(orders);
    }
  }

  /** What one createOrder call returns, which catalog requests it made (in order), and
      the store and counter it leaves. */
  datatype Creation = Creation(
    result: Result<OrderData, OrderError>, calls: seq<CatalogCall>, orders: seq<OrderData>, nextId: int)

  /** The order createOrder builds before asking the catalog: the next id, the trimmed
      beverage name, size and customer as given, PENDING. */
  function Pending(id: int, beverageName: string, size: Option<string>, customerName: Option<string>): OrderData {
    OrderData(Some(id), Some(JavaTrim(beverageName)), size, Some(PENDING), None, customerName, None)
  }

  /** createOrder on a store and counter. Invalid input fails before anything else
      happens. Otherwise the id is taken and the catalog is asked about the name as
      given: a connection failure propagates with the store unchanged; an absent
      beverage is stored REJECTED with a reason; a present one is looked up and stored
      CONFIRMED with the price of the detail reply, if any. */
  function Create(orders: seq<OrderData>, nextId: int, beverageName: Option<string>, size: Option<string>,
                  customerName: Option<string>, catalog: Catalog): Creation
  {
    match ValidateOrderInput(beverageName, size, customerName)
    case Some(e) => Creation(Err(InvalidInput(e)), [], orders, nextId)
    case None =>
      var name := beverageName.value;
      var pending := Pending(nextId, name, size, customerName);
      match catalog.existence
      case Unavailable =>
        Creation(Err(CatalogUnavailable), [ExistsCall(name)], orders, nextId + 1)
      case Absent =>
        var o := pending.(status := Some(REJECTED), rejectionReason := Some(NOT_ON_MENU));
        Creation(Err(BeverageNotFound(name)), [ExistsCall(name)], orders + [o], nextId + 1)
      case Present =>
        var price := match catalog.details case Some(d) => d.price case None => None;
        var o := pending.(status := Some(CONFIRMED), price := price);
        Creation(Ok(o), [ExistsCall(name), LookupCall(name)], orders + [o], nextId + 1)
  }

  /** The input validateOrderInput accepts, with "blank" read as empty or all white space. */
  predicate AcceptableInput(beverageName: Option<string>, size: Option<string>, customerName: Option<string>) {
    && beverageName.Some? && !IsBlank(beverageName.value, JavaSpaces)
    && size.Some? && IsValidSize(size.value)
    && (customerName.Some? ==> !IsBlank(customerName.value, JavaSpaces))
  }

  /** Input validation comes first: createOrder fails with a validation error exactly
      when the input is not acceptable, and then no catalog request is made, no id is
      taken and the store is unchanged. The error names the first failing check: a
      null or blank beverage name, else a missing or invalid size, else a present but
      blank customer name. */
  lemma CreateValidatesFirst(orders: seq<OrderData>, nextId: int, beverageName: Option<string>,
                             size: Option<string>, customerName: Option<string>, catalog: Catalog)
    ensures var c := Create(orders, nextId, beverageName, size, customerName, catalog);
            c.result.Err? && c.result.error.InvalidInput? <==> !AcceptableInput(beverageName, size, customerName)
    ensures var c := Create(orders, nextId, beverageName, size, customerName, catalog);
            !AcceptableInput(beverageName, size, customerName) ==>
              c.calls == [] && c.orders == orders && c.nextId == nextId
    ensures var c := Create(orders, nextId, beverageName, size, customerName, catalog);
            (beverageName.None? || IsBlank(beverageName.value, JavaSpaces)) ==>
              c.result == Err(InvalidInput(BlankBeverageName))
    ensures var c := Create(orders, nextId, beverageName, size, customerName, catalog);
            (&& beverageName.Some? && !IsBlank(beverageName.value, JavaSpaces)
             && (size.None? || !IsValidSize(size.value))) ==>
              c.result == Err(InvalidInput(InvalidSize))
    ensures var c := Create(orders, nextId, beverageName, size, customerName, catalog);
            (&& beverageName.Some? && !IsBlank(beverageName.value, JavaSpaces)
             && size.Some? && IsValidSize(size.value)
             && customerName.Some? && IsBlank(customerName.value, JavaSpaces)) ==>
              c.result == Err(InvalidInput(BlankCustomerName))
  {
    ValidationVerdicts(beverageName, size, customerName);
  }

  /** A catalog connection failure propagates with the store unchanged, though the id
      has been taken; the one request made asks about the name as given, untrimmed. */
  lemma CreateWhenCatalogUnavailable(orders: seq<OrderData>, nextId: int, beverageName: Option<string>,
                                     size: Option<string>, customerName: Option<string>, catalog: Catalog)
    requires AcceptableInput(beverageName, size, customerName) && catalog.existence == Unavailable
    ensures var c := Create(orders, nextId, beverageName, size, customerName, catalog);
            && c.result == Err(CatalogUnavailable)
            && c.calls == [ExistsCall(beverageName.value)]
            && c.orders == orders && c.nextId == nextId + 1
  {
    ValidationVerdicts(beverageName, size, customerName);
  }

  /** An unknown beverage: exactly one REJECTED order with a rejection reason, the
      trimmed beverage name and the size and customer as given is appended under the
      next id, the detail lookup is never requested, and the call
      fails with BeverageNotFound naming the beverage as given. */
  lemma CreateWhenBeverageAbsent(orders: seq<OrderData>, nextId: int, beverageName: Option<string>,
                                 size: Option<string>, customerName: Option<string>, catalog: Catalog)
    requires AcceptableInput(beverageName, size, customerName) && catalog.existence == Absent
    ensures var c := Create(orders, nextId, beverageName, size, customerName, catalog);
            && c.result == Err(BeverageNotFound(beverageName.value))
            && c.calls == [ExistsCall(beverageName.value)]
            && |c.orders| == |orders| + 1 && c.orders[..|orders|] == orders
            && c.orders[|orders|].id == Some(nextId)
            && c.orders[|orders|].IsRejected() && c.orders[|orders|].rejectionReason.Some?
            && c.orders[|orders|].price.None?
            && c.orders[|orders|].beverageName == Some(JavaTrim(beverageName.value))
            && c.orders[|orders|].size == size && c.orders[|orders|].customerName == customerName
            && c.nextId == nextId + 1
  {
    ValidationVerdicts(beverageName, size, customerName);
  }

  /** A known beverage: the returned order is the new last element of the store,
      CONFIRMED, under the counter value before the call, with the trimmed beverage name
      (non-empty, no white space at either end), the size and customer as given, no
      rejection reason, and the price of the detail reply exactly when there was one;
      the counter moves on by one. */
  lemma CreateWhenBeveragePresent(orders: seq<OrderData>, nextId: int, beverageName: Option<string>,
                                  size: Option<string>, customerName: Option<string>, catalog: Catalog)
    requires AcceptableInput(beverageName, size, customerName) && catalog.existence == Present
    ensures var c := Create(orders, nextId, beverageName, size, customerName, catalog);
            && c.calls == [ExistsCall(beverageName.value), LookupCall(beverageName.value)]
            && c.result.Ok? && c.orders == orders + [c.result.value]
            && c.nextId == nextId + 1
            && c.result.value.id == Some(nextId)
            && c.result.value.IsConfirmed()
            && c.result.value.beverageName == Some(JavaTrim(beverageName.value))
            && IsTrimmedNonEmpty(JavaTrim(beverageName.value), JavaSpaces)
            && c.result.value.size == size && c.result.value.customerName == customerName
            && c.result.value.rejectionReason.None?
            && (c.result.value.price.Some? <==> catalog.details.Some? && catalog.details.value.price.Some?)
            && (c.result.value.price.Some? ==> c.result.value.price == catalog.details.value.price)
  {
    ValidationVerdicts(beverageName, size, customerName);
    TrimOfNonBlank(beverageName.value, JavaSpaces);
  }

  /** After clearOrders the next order created gets id 1. */
  lemma CreateAfterClear(beverageName: Option<string>, size: Option<string>, customerName: Option<string>,
                         catalog: Catalog)
    ensures var c := Create([], 1, beverageName, size, customerName, catalog);
            forall i :: 0 <= i < |c.orders| ==> c.orders[i].id == Some(1)
  {
  }

  /** Create keeps the store invariant. */
  lemma CreateKeepsInvariant(orders: seq<OrderData>, nextId: int, beverageName: Option<string>,
                             size: Option<string>, customerName: Option<string>, catalog: Catalog)
    requires StoreInvariant(orders, nextId)
    ensures var c := Create(orders, nextId, beverageName, size, customerName, catalog);
            StoreInvariant(c.orders, c.nextId)
  {
    if ValidateOrderInput(beverageName, size, customerName).None? {
      var name := beverageName.value;
      InvariantUnderBump(orders, nextId);
      var c := Create(orders, nextId, beverageName, size, customerName, catalog);
      if c.orders != orders {
        var o := c.orders[|orders|];
        assert c.orders == orders + [o];
        ResolvedOrderIsStored(beverageName, size, customerName, nextId, o);
        InvariantUnderAppend(orders, nextId, o);
      }
    }
  }

  class OrderService {
    /** The orders in creation order. */
    var orders: seq<OrderData>
    /** The value idGenerator hands out next. */
    var nextId: int

    ghost predicate Valid()
      reads this
    {
      StoreInvariant(orders, nextId)
    }

    constructor ()
      ensures Valid() && orders == [] && nextId == 1
    {
      orders := [];
      nextId := 1;
    }

    /** createOrder, step by step on an Order object as the source does it; the outcome
        and the new store are those of Create. */
    method CreateOrder(beverageName: Option<string>, size: Option<string>, customerName: Option<string>,
                       catalog: Catalog)
      returns (r: Result<OrderData, OrderError>, calls: seq<CatalogCall>)
      requires Valid()
      modifies this
      ensures Valid()
      ensures var c := Create(old(orders), old(nextId), beverageName, size, customerName, catalog);
              r == c.result && calls == c.calls && orders == c.orders && nextId == c.nextId
    {
      CreateKeepsInvariant(orders, nextId, beverageName, size, customerName, catalog);
      var invalid := ValidateOrderInput(beverageName, size, customerName);
      if invalid.Some? {
        return Err(InvalidInput(invalid.value)), [];
      }
      var name := beverageName.value;
      var order := new Order(Some(JavaTrim(name)), size, customerName);
      var id := nextId;
      order.SetId(Some(id));
      nextId := nextId + 1;

      calls := [ExistsCall(name)];
      var existence := catalog.existence;
      if existence == Unavailable {
        return Err(CatalogUnavailable), calls;
      }
      if existence == Absent {
        order.SetStatus(Some(REJECTED));
        order.SetRejectionReason(Some(NOT_ON_MENU));
        orders := orders + [order.Value()];
        return Err(BeverageNotFound(name)), calls;
      }

      calls := calls + [LookupCall(name)];
      var details := catalog.details;
      if details.Some? {
        order.SetPrice(details.value.price);
      }
      order.SetStatus(Some(CONFIRMED));
      orders := orders + [order.Value()];
      r := Ok(order.Value());
    }

    /** getAllOrders: a copy of the store, in creation order. */
    function GetAllOrders(): (r: seq<OrderData>)
      reads this
      ensures r == orders
    {
      orders
    }

    /** getOrderById: the first stored order with that id, or none when no order has it. */
    function GetOrderById(id: int): (r: Option<OrderData>)
      reads this
      ensures r.None? <==> forall i :: 0 <= i < |orders| ==> orders[i].id != Some(id)
      ensures r.Some? ==> exists i ::
        && 0 <= i < |orders| && orders[i] == r.value && r.value.id == Some(id)
        && forall j :: 0 <= j < i ==> orders[j].id != Some(id)
    {
      match FirstIndex(orders, HasId(id))
      case Some(i) => Some(orders[i])
      case None => None
    }

    /** getOrdersByStatus: the orders whose status equals the given one ignoring case. */
    function GetOrdersByStatus(status: string): (r: seq<OrderData>)
      reads this
      ensures forall i :: 0 <= i < |r| ==> r[i] in orders && r[i].status.Some?
                                            && EqualsIgnoreCase(r[i].status.value, status)
      ensures forall i :: 0 <= i < |orders| && HasStatus(status)(orders[i]) ==> orders[i] in r
    {
      Filter(orders, HasStatus(status))
    }

    /** getOrdersByCustomer: the orders whose customer equals the given name ignoring
        case; orders without a customer are never returned. */
    function GetOrdersByCustomer(customerName: string): (r: seq<OrderData>)
      reads this
      ensures forall i :: 0 <= i < |r| ==> r[i] in orders && r[i].customerName.Some?
                                            && EqualsIgnoreCase(customerName, r[i].customerName.value)
      ensures forall i :: 0 <= i < |orders| && HasCustomer(customerName)(orders[i]) ==> orders[i] in r
    {
      Filter(orders, HasCustomer(customerName))
    }

    /** countOrdersByStatus: as many as getOrdersByStatus returns. */
    function CountOrdersByStatus(status: string): (n: nat)
      reads this
      ensures n == |GetOrdersByStatus(status)|
    {
      CountIsFilterLength(orders, HasStatus(status));
      Count(orders, HasStatus(status))
    }

    /** calculateTotalSales. */
    function CalculateTotalSales(): real
      reads this
    {
      TotalSales(orders)
    }

    /** clearOrders: the store is emptied and the counter goes back to 1, so the next
        order created gets id 1. */
    method ClearOrders()
      modifies this
      ensures Valid() && orders == [] && nextId == 1
    {
      orders := [];
      nextId := 1;
    }

    /** getStatistics: total is the store size; in a store built by createOrder the
        CONFIRMED and REJECTED counts add up to it and nothing is PENDING. */
    function GetStatistics(): (s: OrderStatistics)
      reads this
      ensures s.totalOrders == |orders|
      ensures s.confirmedOrders == |GetOrdersByStatus(CONFIRMED)|
      ensures s.rejectedOrders == |GetOrdersByStatus(REJECTED)|
      ensures s.totalSales == TotalSales(orders)
      ensures Valid() ==> s.confirmedOrders + s.rejectedOrders == s.totalOrders && s.pendingOrders == 0
    {
      StoreStatusCounts(orders, nextId);
      OrderStatistics(|orders|, CountOrdersByStatus(CONFIRMED), CountOrdersByStatus(REJECTED),
                      CountOrdersByStatus(PENDING), CalculateTotalSales())
    }
  }
}
