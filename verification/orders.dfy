/**
 * The Order record of the orders backend: its value (OrderData), the mutable Java
 * object (class Order, with the two constructors and the setters), the test
 * builder (class OrderBuilder), the status predicates and equals/hashCode.
 * Every reference-typed Java field may be null, so each is an Option here.
 * The creation timestamp is not part of this model.
 */
module Orders {
  import opened Wrappers

  const PENDING: string := "PENDING"
  const CONFIRMED: string := "CONFIRMED"
  const REJECTED: string := "REJECTED"

  /** The fields of one Order at a point in time. */
  datatype OrderData = OrderData(
    id: Option<int>,
    beverageName: Option<string>,
    size: Option<string>,
    status: Option<string>,
    price: Option<real>,
    customerName: Option<string>,
    rejectionReason: Option<string>)
  {
    /** "CONFIRMED".equals(status): exact and null-safe. */
    predicate IsConfirmed() {
      status == Some(CONFIRMED)
    }

    predicate IsRejected() {
      status == Some(REJECTED)
    }

    predicate IsPending() {
      status == Some(PENDING)
    }

    /** equals: two orders are equal exactly when their ids are (both null counts as equal). */
    predicate Equals(other: OrderData) {
      id == other.id
    }

    /** hashCode = Objects.hash(id) = 31 * 1 + (id == null ? 0 : Long.hashCode(id)), in 32-bit arithmetic. */
    function HashCode(): (h: bv32)
      ensures id.None? ==> h == 31
    {
      match id
      case None => 31
      case Some(v) => 31 + LongHash(v)
    }
  }

  /** Long.hashCode(v) = (int)(v ^ (v >>> 32)) on the 64-bit two's complement pattern of v:
      the low 32 bits of that pattern exclusive-or its high 32 bits. */
  function LongHash(v: int): bv32 {
    var bits := v % 0x1_0000_0000_0000_0000;
    var low := bits % 0x1_0000_0000;
    var high := bits / 0x1_0000_0000;
    (low as bv32) ^ (high as bv32)
  }

  /** At most one of the three status predicates holds for any order. */
  lemma StatusPredicatesExclusive(o: OrderData)
    ensures !(o.IsConfirmed() && o.IsRejected())
    ensures !(o.IsConfirmed() && o.IsPending())
    ensures !(o.IsRejected() && o.IsPending())
  {
  }

  /** equals is an equivalence relation. */
  lemma EqualsIsEquivalence(a: OrderData, b: OrderData, c: OrderData)
    ensures a.Equals(a)
    ensures a.Equals(b) ==> b.Equals(a)
    ensures a.Equals(b) && b.Equals(c) ==> a.Equals(c)
  {
  }

  /** Equal orders have equal hash codes, whatever their other fields hold. */
  lemma EqualOrdersHashAlike(a: OrderData, b: OrderData)
    requires a.Equals(b)
    ensures a.HashCode() == b.HashCode()
  {
  }

  /** For an id in [0, 2^32) the upper half of the long is zero, so the hash is 31 + id (mod 2^32). */
  lemma SmallIdHash(v: int)
    requires 0 <= v < 0x1_0000_0000
    ensures LongHash(v) == v as bv32
  {
    var bits := v % 0x1_0000_0000_0000_0000;
    assert bits == v;
    assert bits / 0x1_0000_0000 == 0;
    assert bits % 0x1_0000_0000 == v;
    assert LongHash(v) == (v as bv32) ^ (0 as bv32);
  }

  /** The mutable Java object. */
  class Order {
    var id: Option<int>
    var beverageName: Option<string>
    var size: Option<string>
    var status: Option<string>
    var price: Option<real>
    var customerName: Option<string>
    var rejectionReason: Option<string>

    /** The current field values. */
    function Value(): OrderData
      reads this
    {
      OrderData(id, beverageName, size, status, price, customerName, rejectionReason)
    }

    /** new Order(): a pending order with every other field null. */
    constructor Empty()
      ensures Value() == OrderData(None, None, None, Some(PENDING), None, None, None)
    {
      id, beverageName, size, customerName := None, None, None, None;
      status := Some(PENDING);
      price, rejectionReason := None, None;
    }

    /** new Order(beverageName, size, customerName): pending, no id, no price, no rejection reason. */
    constructor (beverageName: Option<string>, size: Option<string>, customerName: Option<string>)
      ensures Value() == OrderData(None, beverageName, size, Some(PENDING), None, customerName, None)
    {
      id := None;
      status := Some(PENDING);
      price, rejectionReason := None, None;
      this.beverageName := beverageName;
      this.size := size;
      this.customerName := customerName;
    }

    method SetId(id: Option<int>)
      modifies this
      ensures Value() == old(Value()).(id := id)
    {
      this.id := id;
    }

    method SetBeverageName(beverageName: Option<string>)
      modifies this
      ensures Value() == old(Value()).(beverageName := beverageName)
    {
      this.beverageName := beverageName;
    }

    method SetSize(size: Option<string>)
      modifies this
      ensures Value() == old(Value()).(size := size)
    {
      this.size := size;
    }

    method SetStatus(status: Option<string>)
      modifies this
      ensures Value() == old(Value()).(status := status)
    {
      this.status := status;
    }

    method SetPrice(price: Option<real>)
      modifies this
      ensures Value() == old(Value()).(price := price)
    {
      this.price := price;
    }

    method SetCustomerName(customerName: Option<string>)
      modifies this
      ensures Value() == old(Value()).(customerName := customerName)
    {
      this.customerName := customerName;
    }

    method SetRejectionReason(rejectionReason: Option<string>)
      modifies this
      ensures Value() == old(Value()).(rejectionReason := rejectionReason)
    {
      this.rejectionReason := rejectionReason;
    }
  }

  /** Order.builder(): collects five optional fields, then builds an Order from them. */
  class OrderBuilder {
    var beverageName: Option<string>
    var size: Option<string>
    var customerName: Option<string>
    var price: Option<real>
    var status: Option<string>

    constructor ()
      ensures beverageName == None && size == None && customerName == None
      ensures price == None && status == None
    {
      beverageName, size, customerName := None, None, None;
      price, status := None, None;
    }

    method WithBeverageName(v: Option<string>) returns (self: OrderBuilder)
      modifies this
      ensures self == this && beverageName == v
      ensures size == old(size) && customerName == old(customerName)
      ensures price == old(price) && status == old(status)
    {
      beverageName := v;
      self := this;
    }

    method WithSize(v: Option<string>) returns (self: OrderBuilder)
      modifies this
      ensures self == this && size == v
      ensures beverageName == old(beverageName) && customerName == old(customerName)
      ensures price == old(price) && status == old(status)
    {
      size := v;
      self := this;
    }

    method WithCustomerName(v: Option<string>) returns (self: OrderBuilder)
      modifies this
      ensures self == this && customerName == v
      ensures beverageName == old(beverageName) && size == old(size)
      ensures price == old(price) && status == old(status)
    {
      customerName := v;
      self := this;
    }

    method WithPrice(v: Option<real>) returns (self: OrderBuilder)
      modifies this
      ensures self == this && price == v
      ensures beverageName == old(beverageName) && size == old(size)
      ensures customerName == old(customerName) && status == old(status)
    {
      price := v;
      self := this;
    }

    method WithStatus(v: Option<string>) returns (self: OrderBuilder)
      modifies this
      ensures self == this && status == v
      ensures beverageName == old(beverageName) && size == old(size)
      ensures customerName == old(customerName) && price == old(price)
    {
      status := v;
      self := this;
    }

    /** A fresh order with the collected name, size and customer; the price and the
        status override the constructor's only when they were given, so an unset
        status leaves it PENDING and an unset price leaves it absent. */
    method Build() returns (o: Order)
      ensures fresh(o)
      ensures o.Value().id.None? && o.Value().rejectionReason.None?
      ensures o.Value().beverageName == beverageName && o.Value().size == size
      ensures o.Value().customerName == customerName
      ensures o.Value().price == price
      ensures o.Value().status == if status.Some? then status else Some(PENDING)
    {
      o := new Order(beverageName, size, customerName);
      if price.Some? {
        o.SetPrice(price);
      }
      if status.Some? {
        o.SetStatus(status);
      }
    }
  }
}
