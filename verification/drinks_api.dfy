/**
 * The beverage catalog service: the validation of a beverage in a request body, and
 * the in-memory menu (a list of beverage entries plus the next id to hand out) with
 * its queries and its add, replace, partial update and delete operations.
 *
 * The HTTP layer only wraps these operations; its error replies become MenuError
 * values, and the request-body validation errors become FieldError lists.
 */
module DrinksApi {
  import opened Wrappers
  import opened Text
  import opened Seqs

  const MAX_NAME_LENGTH: nat := 100
  const MAX_PRICE: real := 100.0

  /** A request body that passed validation: the name is already stripped. */
  datatype Beverage = Beverage(name: string, size: string, price: real)

  /** One menu entry. */
  datatype BeverageRecord = BeverageRecord(id: int, name: string, size: string, price: real)

  /** A partial update request: absent fields are left alone. */
  datatype BeverageUpdate = BeverageUpdate(name: Option<string>, size: Option<string>, price: Option<real>)

  /** Which field constraint a request body breaks. */
  datatype FieldError =
    | NameLength   // not 1 to 100 characters long
    | NameBlank    // only white space
    | SizePattern  // not small, medium or large
    | PriceRange   // not in (0, 100]

  /** The error replies of the menu operations. */
  datatype MenuError = NotFound | NameTaken

  /** The name constraints of a request body: the length bound on the name as sent,
      then the blank check, which also strips the accepted name. */
  function CheckName(name: string): Result<string, FieldError> {
    if !(1 <= |name| <= MAX_NAME_LENGTH) then Err(NameLength)
    else if PyStrip(name) == [] then Err(NameBlank)
    else Ok(PyStrip(name))
  }

  predicate ValidPrice(price: real) {
    0.0 < price <= MAX_PRICE
  }

  /** Validation of a Beverage request body: every field is checked and all failures
      are reported, in field order. */
  function ValidateBeverage(name: string, size: string, price: real): Result<Beverage, seq<FieldError>> {
    var checkedName := CheckName(name);
    var errors :=
      (if checkedName.Err? then [checkedName.error] else []) +
      (if IsValidSize(size) then [] else [SizePattern]) +
      (if ValidPrice(price) then [] else [PriceRange]);
    if errors == [] then Ok(Beverage(checkedName.value, size, price)) else Err(errors)
  }

  /** A body is accepted exactly when its name is 1 to 100 characters and not blank,
      its size is small, medium or large and its price is in (0, 100]; the accepted
      beverage carries the stripped name, which is non-empty with no white space at
      either end. A rejection names each broken constraint. */
  lemma BeverageValidation(name: string, size: string, price: real)
    ensures var r := ValidateBeverage(name, size, price);
            r.Ok? <==>
              && 1 <= |name| <= MAX_NAME_LENGTH && !IsBlank(name, PythonSpaces)
              && IsValidSize(size) && ValidPrice(price)
    ensures var r := ValidateBeverage(name, size, price);
            r.Ok? ==>
              && r.value == Beverage(PyStrip(name), size, price)
              && IsTrimmedNonEmpty(r.value.name, PythonSpaces)
    ensures var r := ValidateBeverage(name, size, price);
            r.Err? ==>
              && (NameLength in r.error <==> !(1 <= |name| <= MAX_NAME_LENGTH))
              && (NameBlank in r.error <==> 1 <= |name| <= MAX_NAME_LENGTH && IsBlank(name, PythonSpaces))
              && (SizePattern in r.error <==> !IsValidSize(size))
              && (PriceRange in r.error <==> !ValidPrice(price))
  {
    TrimEmptyIffBlank(name, PythonSpaces);
    if !IsBlank(name, PythonSpaces) {
      TrimOfNonBlank(name, PythonSpaces);
    }
  }

  /** Validation of a BeverageUpdate request body: only the fields present are
      checked, with the same length, pattern and range constraints, and no blank check. */
  function ValidateUpdate(name: Option<string>, size: Option<string>, price: Option<real>)
    : Result<BeverageUpdate, seq<FieldError>>
  {
    var errors :=
      (if name.Some? && !(1 <= |name.value| <= MAX_NAME_LENGTH) then [NameLength] else []) +
      (if size.Some? && !IsValidSize(size.value) then [SizePattern] else []) +
      (if price.Some? && !ValidPrice(price.value) then [PriceRange] else []);
    if errors == [] then Ok(BeverageUpdate(name, size, price)) else Err(errors)
  }

  /** An update body is accepted, unchanged, exactly when each field it carries meets
      its constraint. */
  lemma UpdateValidation(name: Option<string>, size: Option<string>, price: Option<real>)
    ensures var r := ValidateUpdate(name, size, price);
            r.Ok? <==>
              && (name.Some? ==> 1 <= |name.value| <= MAX_NAME_LENGTH)
              && (size.Some? ==> IsValidSize(size.value))
              && (price.Some? ==> ValidPrice(price.value))
    ensures var r := ValidateUpdate(name, size, price);
            r.Ok? ==> r.value == BeverageUpdate(name, size, price)
  {
    var r := ValidateUpdate(name, size, price);
    if name.Some? && !(1 <= |name.value| <= MAX_NAME_LENGTH) {
      assert NameLength in r.error;
    }
    if size.Some? && !IsValidSize(size.value) {
      assert SizePattern in r.error;
    }
  }

  // ---------------------------------------------------------------- the menu

  /** The menu: the entries in insertion order and the next id. */
  datatype Menu = Menu(beverages: seq<BeverageRecord>, nextId: int)

  /** What a menu operation answers and the menu it leaves. */
  datatype Outcome<T> = Outcome(result: Result<T, MenuError>, menu: Menu)

  /** Every id is in [1, nextId) and ids strictly increase in list order (so they
      are unique). */
  predicate IdsValid(m: Menu) {
    && m.nextId >= 1
    && (forall i :: 0 <= i < |m.beverages| ==> 1 <= m.beverages[i].id < m.nextId)
    && (forall i, j :: 0 <= i < j < |m.beverages| ==> m.beverages[i].id < m.beverages[j].id)
  }

  /** No two entries have names that are equal ignoring case. */
  predicate NamesUnique(beverages: seq<BeverageRecord>) {
    forall i, j :: 0 <= i < j < |beverages| ==> !EqualsIgnoreCase(beverages[i].name, beverages[j].name)
  }

  /** The menu reset_database leaves: empty, next id 1. */
  function ResetMenu(): (m: Menu)
    ensures IdsValid(m) && NamesUnique(m.beverages)
  {
    Menu([], 1)
  }

  function WithId(id: int): BeverageRecord -> bool {
    (b: BeverageRecord) => b.id == id
  }

  /** Some entry's name equals the given one ignoring case. */
  predicate NameInUse(beverages: seq<BeverageRecord>, name: string) {
    exists i :: 0 <= i < |beverages| && EqualsIgnoreCase(beverages[i].name, name)
  }

  /** Some entry with another id has a name equal to the given one ignoring case. */
  predicate NameInUseByOther(beverages: seq<BeverageRecord>, name: string, id: int) {
    exists i :: 0 <= i < |beverages| && beverages[i].id != id && EqualsIgnoreCase(beverages[i].name, name)
  }

  /** add_beverage: a name already in use ignoring case is refused with the menu
      unchanged; otherwise a new entry under the next id is appended and the counter
      moves on. */
  function Add(m: Menu, b: Beverage): (o: Outcome<BeverageRecord>)
    ensures o.result.Err? <==> NameInUse(m.beverages, b.name)
    ensures o.result.Err? ==> o.result.error == NameTaken && o.menu == m
    ensures o.result.Ok? ==>
      && o.result.value == BeverageRecord(m.nextId, b.name, b.size, b.price)
      && o.menu == Menu(m.beverages + [o.result.value], m.nextId + 1)
  {
    if NameInUse(m.beverages, b.name) then Outcome(Err(NameTaken), m)
    else
      var entry := BeverageRecord(m.nextId, b.name, b.size, b.price);
      Outcome(Ok(entry), Menu(m.beverages + [entry], m.nextId + 1))
  }

  /** update_beverage: the first entry with the id is replaced in place, keeping its
      id, unless no entry has the id (NotFound) or an entry with another id already
      uses the name ignoring case (NameTaken); a refusal leaves the menu unchanged. */
  function Put(m: Menu, id: int, b: Beverage): (o: Outcome<BeverageRecord>)
  {
    match FirstIndex(m.beverages, WithId(id))
    case None => Outcome(Err(NotFound), m)
    case Some(i) =>
      if NameInUseByOther(m.beverages, b.name, id) then Outcome(Err(NameTaken), m)
      else
        var entry := BeverageRecord(id, b.name, b.size, b.price);
        Outcome(Ok(entry), Menu(m.beverages[i := entry], m.nextId))
  }

  /** The entry after a partial update: each field the update carries is written, the
      name stripped; the others, and the id, are kept. */
  function Patched(b: BeverageRecord, u: BeverageUpdate): (r: BeverageRecord)
    ensures r.id == b.id
    ensures r.name == (if u.name.Some? then PyStrip(u.name.value) else b.name)
    ensures r.size == (if u.size.Some? then u.size.value else b.size)
    ensures r.price == (if u.price.Some? then u.price.value else b.price)
  {
    var named := if u.name.Some? then b.(name := PyStrip(u.name.value)) else b;
    var sized := if u.size.Some? then named.(size := u.size.value) else named;
    if u.price.Some? then sized.(price := u.price.value) else sized
  }

  /** partial_update_beverage: the first entry with the id is patched where it stands;
      NotFound, with the menu unchanged, when no entry has the id. */
  function Patch(m: Menu, id: int, u: BeverageUpdate): Outcome<BeverageRecord> {
    match FirstIndex(m.beverages, WithId(id))
    case None => Outcome(Err(NotFound), m)
    case Some(i) =>
      var entry := Patched(m.beverages[i], u);
      Outcome(Ok(entry), Menu(m.beverages[i := entry], m.nextId))
  }

  /** delete_beverage: the first entry with the id is removed; NotFound, with the menu
      unchanged, when no entry has the id. The counter never goes back. */
  function Delete(m: Menu, id: int): Outcome<()> {
    match FirstIndex(m.beverages, WithId(id))
    case None => Outcome(Err(NotFound), m)
    case Some(i) => Outcome(Ok(()), Menu(m.beverages[..i] + m.beverages[i + 1..], m.nextId))
  }

  /** Python's name.lower() == query, with the query already lowered and stripped. */
  function NameMatches(query: string): BeverageRecord -> bool {
    (b: BeverageRecord) => AsciiLower(b.name) == query
  }

  /** get_beverage_by_name: the first entry whose lowered name equals the lowered and
      stripped query, if any. */
  function Lookup(beverages: seq<BeverageRecord>, name: string): (r: Option<BeverageRecord>)
    ensures r.None? <==> forall i :: 0 <= i < |beverages| ==> AsciiLower(beverages[i].name) != PyStrip(AsciiLower(name))
    ensures r.Some? ==> exists i ::
      && 0 <= i < |beverages| && beverages[i] == r.value
      && AsciiLower(r.value.name) == PyStrip(AsciiLower(name))
      && forall k :: 0 <= k < i ==> AsciiLower(beverages[k].name) != PyStrip(AsciiLower(name))
  {
    match FirstIndex(beverages, NameMatches(PyStrip(AsciiLower(name))))
    case Some(i) => Some(beverages[i])
    case None => None
  }

  /** The entries get_menu returns when every filter given holds. The size filter
      applies only to a non-empty size; the price bounds are inclusive. */
  function OnMenu(size: Option<string>, minPrice: Option<real>, maxPrice: Option<real>): BeverageRecord -> bool {
    (b: BeverageRecord) => SizeOk(size)(b) && MinOk(minPrice)(b) && MaxOk(maxPrice)(b)
  }

  /** The size filter, which a missing or empty size switches off. */
  function SizeOk(size: Option<string>): BeverageRecord -> bool {
    (b: BeverageRecord) => size.None? || size.value == [] || b.size == size.value
  }

  /** The minimum price filter, inclusive, off when no minimum is given. */
  function MinOk(minPrice: Option<real>): BeverageRecord -> bool {
    (b: BeverageRecord) => minPrice.None? || b.price >= minPrice.value
  }

  /** The maximum price filter, inclusive, off when no maximum is given. */
  function MaxOk(maxPrice: Option<real>): BeverageRecord -> bool {
    (b: BeverageRecord) => maxPrice.None? || b.price <= maxPrice.value
  }

  function SizeIs(size: string): BeverageRecord -> bool {
    (b: BeverageRecord) => b.size == size
  }

  function PriceAtLeast(minPrice: real): BeverageRecord -> bool {
    (b: BeverageRecord) => b.price >= minPrice
  }

  function PriceAtMost(maxPrice: real): BeverageRecord -> bool {
    (b: BeverageRecord) => b.price <= maxPrice
  }

  /** get_menu as written: the size filter, then the minimum, then the maximum, each
      only when given. */
  function MenuView(beverages: seq<BeverageRecord>, size: Option<string>, minPrice: Option<real>,
                    maxPrice: Option<real>): seq<BeverageRecord>
  {
    var bySize := if size.Some? && size.value != [] then Filter(beverages, SizeIs(size.value)) else beverages;
    var byMin := if minPrice.Some? then Filter(bySize, PriceAtLeast(minPrice.value)) else bySize;
    if maxPrice.Some? then Filter(byMin, PriceAtMost(maxPrice.value)) else byMin
  }

  /** Filtering by p, when p holds on the elements of s wherever q does, keeps the
      result of filtering by q as it is. */
  lemma FilterBy<T>(s: seq<T>, p: T -> bool, given: bool, q: T -> bool)
    requires forall x :: q(x) == (given ==> p(x))
    ensures (if given then Filter(s, p) else s) == Filter(s, q)
  {
    if given {
      FilterSame(s, p, q);
    } else {
      FilterAll(s, q);
    }
  }

  function SizeAndMinOk(size: Option<string>, minPrice: Option<real>): BeverageRecord -> bool {
    (b: BeverageRecord) => SizeOk(size)(b) && MinOk(minPrice)(b)
  }

  /** The size step of get_menu filters by SizeOk. */
  lemma SizeStep(beverages: seq<BeverageRecord>, size: Option<string>)
    ensures (if size.Some? && size.value != [] then Filter(beverages, SizeIs(size.value)) else beverages)
            == Filter(beverages, SizeOk(size))
  {
    FilterBy(beverages, SizeIs(if size.Some? then size.value else []), size.Some? && size.value != [], SizeOk(size));
  }

  /** The size and minimum steps of get_menu filter by SizeAndMinOk. */
  lemma MinStep(beverages: seq<BeverageRecord>, size: Option<string>, minPrice: Option<real>)
    ensures var bySize := Filter(beverages, SizeOk(size));
            (if minPrice.Some? then Filter(bySize, PriceAtLeast(minPrice.value)) else bySize)
            == Filter(beverages, SizeAndMinOk(size, minPrice))
  {
    var bySize := Filter(beverages, SizeOk(size));
    FilterBy(bySize, PriceAtLeast(if minPrice.Some? then minPrice.value else 0.0), minPrice.Some?, MinOk(minPrice));
    FilterTwice(beverages, SizeOk(size), MinOk(minPrice), SizeAndMinOk(size, minPrice));
  }

  /** All three steps of get_menu filter by OnMenu. */
  lemma MaxStep(beverages: seq<BeverageRecord>, size: Option<string>, minPrice: Option<real>, maxPrice: Option<real>)
    ensures var byMin := Filter(beverages, SizeAndMinOk(size, minPrice));
            (if maxPrice.Some? then Filter(byMin, PriceAtMost(maxPrice.value)) else byMin)
            == Filter(beverages, OnMenu(size, minPrice, maxPrice))
  {
    var byMin := Filter(beverages, SizeAndMinOk(size, minPrice));
    FilterBy(byMin, PriceAtMost(if maxPrice.Some? then maxPrice.value else 0.0), maxPrice.Some?, MaxOk(maxPrice));
    FilterTwice(beverages, SizeAndMinOk(size, minPrice), MaxOk(maxPrice), OnMenu(size, minPrice, maxPrice));
  }

  /** The chained filters of get_menu are one filter by the conjunction of the given
      conditions, so the result is the order-preserving sub-sequence of the entries
      meeting every given filter. */
  lemma MenuViewIsConjunctive(beverages: seq<BeverageRecord>, size: Option<string>, minPrice: Option<real>,
                              maxPrice: Option<real>)
    ensures MenuView(beverages, size, minPrice, maxPrice) == Filter(beverages, OnMenu(size, minPrice, maxPrice))
  {
    SizeStep(beverages, size);
    MinStep(beverages, size, minPrice);
    MaxStep(beverages, size, minPrice, maxPrice);
  }

  /** Without filters get_menu returns the whole menu. */
  lemma MenuViewUnfiltered(beverages: seq<BeverageRecord>, size: Option<string>)
    requires size.None? || size.value == []
    ensures MenuView(beverages, size, None, None) == beverages
  {
  }

  // ------------------------------------------------ what the operations keep

  /** add_beverage keeps ids valid and, since it refuses a name in use, keeps names
      unique. */
  lemma AddKeepsInvariants(m: Menu, b: Beverage)
    ensures IdsValid(m) ==> IdsValid(Add(m, b).menu)
    ensures NamesUnique(m.beverages) ==> NamesUnique(Add(m, b).menu.beverages)
  {
    var o := Add(m, b);
    if o.result.Ok? {
      var s := o.menu.beverages;
      assert s == m.beverages + [o.result.value];
      if NamesUnique(m.beverages) {
        forall i, j | 0 <= i < j < |s|
          ensures !EqualsIgnoreCase(s[i].name, s[j].name)
        {
          if j == |m.beverages| {
            assert s[i] == m.beverages[i];
          } else {
            assert s[i] == m.beverages[i] && s[j] == m.beverages[j];
          }
        }
      }
    }
  }

  /** update_beverage keeps the length and every id where it stands, so it keeps ids
      valid; it changes at most the entry holding the id. */
  lemma PutKeepsIds(m: Menu, id: int, b: Beverage)
    ensures var s := Put(m, id, b).menu.beverages;
            && |s| == |m.beverages| && Put(m, id, b).menu.nextId == m.nextId
            && (forall i :: 0 <= i < |s| ==> s[i].id == m.beverages[i].id)
            && (forall i :: 0 <= i < |s| && m.beverages[i].id != id ==> s[i] == m.beverages[i])
    ensures IdsValid(m) ==> IdsValid(Put(m, id, b).menu)
  {
    var o := Put(m, id, b);
    if o.result.Ok? {
      var i := FirstIndex(m.beverages, WithId(id)).value;
      assert m.beverages[i].id == id;
    }
  }

  /** update_beverage refuses a name used by an entry with another id, so, ids being
      unique, it keeps names unique. */
  lemma PutKeepsNamesUnique(m: Menu, id: int, b: Beverage)
    requires IdsValid(m) && NamesUnique(m.beverages)
    ensures NamesUnique(Put(m, id, b).menu.beverages)
  {
    var o := Put(m, id, b);
    if o.result.Ok? {
      var i := FirstIndex(m.beverages, WithId(id)).value;
      var s := o.menu.beverages;
      forall k, l | 0 <= k < l < |s|
        ensures !EqualsIgnoreCase(s[k].name, s[l].name)
      {
        if k == i || l == i {
          var other := if k == i then l else k;
          assert m.beverages[other].id != id;
          assert !EqualsIgnoreCase(m.beverages[other].name, b.name);
        }
      }
    }
  }

  /** A refused update_beverage leaves the menu unchanged; one that succeeds answers
      with the stored entry, under the requested id. */
  lemma PutOutcome(m: Menu, id: int, b: Beverage)
    ensures var o := Put(m, id, b);
            o.result == Err(NotFound) <==> forall i :: 0 <= i < |m.beverages| ==> m.beverages[i].id != id
    ensures var o := Put(m, id, b);
            o.result == Err(NameTaken) <==>
              (exists i :: 0 <= i < |m.beverages| && m.beverages[i].id == id) && NameInUseByOther(m.beverages, b.name, id)
    ensures var o := Put(m, id, b);
            o.result.Err? ==> o.menu == m
    ensures var o := Put(m, id, b);
            o.result.Ok? ==> o.result.value == BeverageRecord(id, b.name, b.size, b.price) && o.result.value in o.menu.beverages
  {
    var o := Put(m, id, b);
    if o.result.Ok? {
      var i := FirstIndex(m.beverages, WithId(id)).value;
      assert o.menu.beverages[i] == o.result.value;
    }
  }

  /** partial_update_beverage keeps the length, the position and id of every entry,
      and every entry but the patched one; so it keeps ids valid. */
  lemma PatchKeepsIds(m: Menu, id: int, u: BeverageUpdate)
    ensures var o := Patch(m, id, u);
            && |o.menu.beverages| == |m.beverages| && o.menu.nextId == m.nextId
            && (forall i :: 0 <= i < |m.beverages| ==> o.menu.beverages[i].id == m.beverages[i].id)
            && (forall i :: 0 <= i < |m.beverages| && m.beverages[i].id != id ==> o.menu.beverages[i] == m.beverages[i])
    ensures var o := Patch(m, id, u);
            o.result.Err? <==> forall i :: 0 <= i < |m.beverages| ==> m.beverages[i].id != id
    ensures IdsValid(m) ==> IdsValid(Patch(m, id, u).menu)
  {
    var o := Patch(m, id, u);
    if o.result.Ok? {
      var i := FirstIndex(m.beverages, WithId(id)).value;
      assert m.beverages[i].id == id;
    }
  }

  /** A successful partial_update_beverage patches the first entry with the id where
      it stands, leaves every other entry alone and answers with the patched entry. */
  lemma PatchOutcome(m: Menu, id: int, u: BeverageUpdate)
    ensures var o := Patch(m, id, u);
            o.result.Ok? ==> exists i ::
              && 0 <= i < |m.beverages| && m.beverages[i].id == id
              && (forall k :: 0 <= k < i ==> m.beverages[k].id != id)
              && o.result.value == Patched(m.beverages[i], u)
              && o.menu == Menu(m.beverages[i := o.result.value], m.nextId)
  {
    var o := Patch(m, id, u);
    if o.result.Ok? {
      var i := FirstIndex(m.beverages, WithId(id)).value;
      assert o.menu == Menu(m.beverages[i := o.result.value], m.nextId);
    }
  }

  /** partial_update_beverage does not check names: renaming an entry to the name of
      another entry, in any case, leaves two entries whose names are equal ignoring
      case. */
  lemma PatchMayBreakUniqueNames(m: Menu, id: int, u: BeverageUpdate, other: nat)
    requires other < |m.beverages| && m.beverages[other].id != id
    requires exists i :: 0 <= i < |m.beverages| && m.beverages[i].id == id
    requires u.name.Some? && EqualsIgnoreCase(PyStrip(u.name.value), m.beverages[other].name)
    ensures !NamesUnique(Patch(m, id, u).menu.beverages)
  {
    var i := FirstIndex(m.beverages, WithId(id)).value;
    var s := Patch(m, id, u).menu.beverages;
    assert s[i].name == PyStrip(u.name.value) && s[other] == m.beverages[other];
    if i < other {
      assert EqualsIgnoreCase(s[i].name, s[other].name);
    } else {
      assert EqualsIgnoreCase(s[other].name, s[i].name);
    }
  }

  /** A partial update body whose name is white space only passes validation, and
      the entry it patches is left with an empty name. */
  lemma PatchMayStoreEmptyName(m: Menu, id: int, name: string)
    requires 1 <= |name| <= MAX_NAME_LENGTH && IsBlank(name, PythonSpaces)
    requires exists i :: 0 <= i < |m.beverages| && m.beverages[i].id == id
    ensures ValidateUpdate(Some(name), None, None).Ok?
    ensures var o := Patch(m, id, BeverageUpdate(Some(name), None, None));
            o.result.Ok? && o.result.value.name == [] && o.result.value in o.menu.beverages
  {
    TrimEmptyIffBlank(name, PythonSpaces);
    var i := FirstIndex(m.beverages, WithId(id)).value;
    var o := Patch(m, id, BeverageUpdate(Some(name), None, None));
    assert o.menu.beverages[i] == o.result.value;
  }

  /** delete_beverage removes exactly the first entry with the id, keeps the others in
      order and keeps the counter; NotFound, with the menu unchanged, when no entry
      has the id. With valid ids no entry with the id is left. */
  lemma DeleteOutcome(m: Menu, id: int)
    ensures var o := Delete(m, id);
            o.result.Err? <==> forall i :: 0 <= i < |m.beverages| ==> m.beverages[i].id != id
    ensures var o := Delete(m, id);
            o.result.Err? ==> o.menu == m
    ensures var o := Delete(m, id);
            o.result.Ok? ==> exists i ::
              && 0 <= i < |m.beverages| && m.beverages[i].id == id
              && (forall k :: 0 <= k < i ==> m.beverages[k].id != id)
              && o.menu == Menu(m.beverages[..i] + m.beverages[i + 1..], m.nextId)
    ensures var o := Delete(m, id);
            IdsValid(m) ==> forall i :: 0 <= i < |o.menu.beverages| ==> o.menu.beverages[i].id != id
  {
    var o := Delete(m, id);
    if o.result.Ok? {
      var i := FirstIndex(m.beverages, WithId(id)).value;
      var s := o.menu.beverages;
      if IdsValid(m) {
        forall k | 0 <= k < |s|
          ensures s[k].id != id
        {
          if k < i {
            assert s[k] == m.beverages[k];
          } else {
            assert s[k] == m.beverages[k + 1];
          }
        }
      }
    }
  }

  /** delete_beverage keeps ids valid and names unique: what is left is a
      sub-sequence. */
  lemma DeleteKeepsInvariants(m: Menu, id: int)
    ensures IdsValid(m) ==> IdsValid(Delete(m, id).menu)
    ensures NamesUnique(m.beverages) ==> NamesUnique(Delete(m, id).menu.beverages)
  {
    var o := Delete(m, id);
    if o.result.Ok? {
      var i := FirstIndex(m.beverages, WithId(id)).value;
      var s := o.menu.beverages;
      assert forall k :: 0 <= k < |s| ==> s[k] == m.beverages[if k < i then k else k + 1];
    }
  }

  // ------------------------------------------------------------- the store

  /** The module-level beverages_db list and next_id counter. */
  class MenuStore {
    var beverages: seq<BeverageRecord>
    var nextId: int

    function State(): Menu
      reads this
    {
      Menu(beverages, nextId)
    }

    /** Ids stay valid under every operation. */
    ghost predicate Valid()
      reads this
    {
      IdsValid(State())
    }

    /** The initial module state: no entries, next id 1. */
    constructor ()
      ensures State() == ResetMenu()
    {
      beverages := [];
      nextId := 1;
    }

    /** reset_database. */
    method ResetDatabase()
      modifies this
      ensures State() == ResetMenu()
    {
      beverages := [];
      nextId := 1;
    }

    /** get_menu. */
    function GetMenu(size: Option<string>, minPrice: Option<real>, maxPrice: Option<real>): (r: seq<BeverageRecord>)
      reads this
      ensures r == Filter(beverages, OnMenu(size, minPrice, maxPrice))
    {
      MenuViewIsConjunctive(beverages, size, minPrice, maxPrice);
      MenuView(beverages, size, minPrice, maxPrice)
    }

    /** get_beverage_by_name: a scan for the first entry whose lowered name equals the
        lowered, stripped query. */
    method GetBeverageByName(name: string) returns (r: Option<BeverageRecord>)
      ensures r == Lookup(beverages, name)
    {
      var query := PyStrip(AsciiLower(name));
      var i := 0;
      while i < |beverages|
        invariant 0 <= i <= |beverages|
        invariant forall k :: 0 <= k < i ==> AsciiLower(beverages[k].name) != query
      {
        if AsciiLower(beverages[i].name) == query {
          FirstIndexAt(beverages, NameMatches(query), i);
          return Some(beverages[i]);
        }
        i := i + 1;
      }
      return None;
    }

    /** add_beverage: a scan for a name in use, then the append. */
    method AddBeverage(b: Beverage) returns (r: Result<BeverageRecord, MenuError>)
      requires Valid()
      modifies this
      ensures Valid()
      ensures old(NamesUnique(beverages)) ==> NamesUnique(beverages)
      ensures r == Add(old(State()), b).result && State() == Add(old(State()), b).menu
    {
      AddKeepsInvariants(State(), b);
      var nameLower := AsciiLower(b.name);
      var i := 0;
      while i < |beverages|
        invariant 0 <= i <= |beverages|
        invariant forall k :: 0 <= k < i ==> AsciiLower(beverages[k].name) != nameLower
      {
        if AsciiLower(beverages[i].name) == nameLower {
          return Err(NameTaken);
        }
        i := i + 1;
      }
      var entry := BeverageRecord(nextId, b.name, b.size, b.price);
      beverages := beverages + [entry];
      nextId := nextId + 1;
      return Ok(entry);
    }

    /** update_beverage: a scan for the id, then a scan for the name among the other
        entries, then the replacement at the index found. */
    method UpdateBeverage(id: int, b: Beverage) returns (r: Result<BeverageRecord, MenuError>)
      requires Valid()
      modifies this
      ensures Valid()
      ensures old(NamesUnique(beverages)) ==> NamesUnique(beverages)
      ensures r == Put(old(State()), id, b).result && State() == Put(old(State()), id, b).menu
    {
      PutKeepsIds(State(), id, b);
      if NamesUnique(beverages) {
        PutKeepsNamesUnique(State(), id, b);
      }
      var i := 0;
      while i < |beverages|
        invariant 0 <= i <= |beverages|
        invariant forall k :: 0 <= k < i ==> beverages[k].id != id
      {
        if beverages[i].id == id {
          FirstIndexAt(beverages, WithId(id), i);
          var nameLower := AsciiLower(b.name);
          var j := 0;
          while j < |beverages|
            invariant 0 <= j <= |beverages|
            invariant forall k :: 0 <= k < j ==> !(beverages[k].id != id && AsciiLower(beverages[k].name) == nameLower)
          {
            if beverages[j].id != id && AsciiLower(beverages[j].name) == nameLower {
              assert NameInUseByOther(beverages, b.name, id);
              return Err(NameTaken);
            }
            j := j + 1;
          }
          assert !NameInUseByOther(beverages, b.name, id);
          var updated := BeverageRecord(id, b.name, b.size, b.price);
          beverages := beverages[i := updated];
          return Ok(updated);
        }
        i := i + 1;
      }
      return Err(NotFound);
    }

    /** partial_update_beverage: a scan for the id, then the given fields written into
        the entry one by one. */
    method PartialUpdateBeverage(id: int, u: BeverageUpdate) returns (r: Result<BeverageRecord, MenuError>)
      requires Valid()
      modifies this
      ensures Valid()
      ensures r == Patch(old(State()), id, u).result && State() == Patch(old(State()), id, u).menu
    {
      PatchKeepsIds(State(), id, u);
      var i := 0;
      while i < |beverages|
        invariant 0 <= i <= |beverages|
        invariant forall k :: 0 <= k < i ==> beverages[k].id != id
      {
        if beverages[i].id == id {
          FirstIndexAt(beverages, WithId(id), i);
          var entry := beverages[i];
          if u.name.Some? {
            entry := entry.(name := PyStrip(u.name.value));
          }
          if u.size.Some? {
            entry := entry.(size := u.size.value);
          }
          if u.price.Some? {
            entry := entry.(price := u.price.value);
          }
          beverages := beverages[i := entry];
          return Ok(entry);
        }
        i := i + 1;
      }
      return Err(NotFound);
    }

    /** delete_beverage: a scan for the id, then the removal at the index found. */
    method DeleteBeverage(id: int) returns (r: Result<(), MenuError>)
      requires Valid()
      modifies this
      ensures Valid()
      ensures old(NamesUnique(beverages)) ==> NamesUnique(beverages)
      ensures r == Delete(old(State()), id).result && State() == Delete(old(State()), id).menu
    {
      DeleteKeepsInvariants(State(), id);
      var i := 0;
      while i < |beverages|
        invariant 0 <= i <= |beverages|
        invariant forall k :: 0 <= k < i ==> beverages[k].id != id
      {
        if beverages[i].id == id {
          FirstIndexAt(beverages, WithId(id), i);
          beverages := beverages[..i] + beverages[i + 1..];
          return Ok(());
        }
        i := i + 1;
      }
      return Err(NotFound);
    }
  }
}
