/**
  The business rules of the order screen, lifted out of the widgets: the form
  is a value (the chosen buyer, restaurant, driver and status, the selected
  dishes, the shown total and the chat text) and every rule is a function of
  it, except adding and updating, which change the order store.
 */
module OrderRules {

  import opened Wrappers
  import opened Store
  import opened Model
  import opened Services

  /** What the order form holds when a button is pressed. */
  datatype OrderForm = OrderForm(
    buyer: Option<BasicUser>,
    restaurant: Option<Restaurant>,
    driver: Option<Driver>,
    status: Option<OrderStatus>,
    selected: seq<Cuisine>,
    priceShown: Option<Cents>,
    chatText: string)

  // ---------------------------------------------------------------- validation

  datatype OrderError = BuyerRequired | RestaurantRequired | DriverRequired | StatusRequired | DishRequired

  /** The messages validate collects, in the order it collects them. */
  function Errors(f: OrderForm): (e: seq<OrderError>)
    ensures |e| <= 5
    ensures forall i, j :: 0 <= i < j < |e| ==> e[i] != e[j]
    ensures BuyerRequired in e <==> f.buyer.None?
    ensures RestaurantRequired in e <==> f.restaurant.None?
    ensures DriverRequired in e <==> f.driver.None?
    ensures StatusRequired in e <==> f.status.None?
    ensures DishRequired in e <==> |f.selected| == 0
  {
    (if f.buyer.None? then [BuyerRequired] else []) +
    (if f.restaurant.None? then [RestaurantRequired] else []) +
    (if f.driver.None? then [DriverRequired] else []) +
    (if f.status.None? then [StatusRequired] else []) +
    (if |f.selected| == 0 then [DishRequired] else [])
  }

  /** The form passes when no message was collected. */
  function Validate(f: OrderForm): (ok: bool)
    ensures ok <==> f.buyer.Some? && f.restaurant.Some? && f.driver.Some? && f.status.Some? && |f.selected| > 0
  {
    Errors(f) == []
  }

  // ---------------------------------------------------------------- price

  /** The sum of the dishes' prices, each occurrence counted. */
  function TotalPrice(dishes: seq<Cuisine>): Cents {
    if |dishes| == 0 then 0 else dishes[0].data.price + TotalPrice(dishes[1..])
  }

  /** The total of two runs of dishes is the sum of their totals. */
  lemma {:induction false} TotalPriceAppend(a: seq<Cuisine>, b: seq<Cuisine>)
    ensures TotalPrice(a + b) == TotalPrice(a) + TotalPrice(b)
  {
    if |a| == 0 {
      assert a + b == b;
    } else {
      assert (a + b)[0] == a[0];
      assert (a + b)[1..] == a[1..] + b;
      TotalPriceAppend(a[1..], b);
    }
  }

  /** Dishes with no negative price give a total that is no less than any single price. */
  lemma {:induction false} TotalPriceBounds(dishes: seq<Cuisine>, k: nat)
    requires forall i :: 0 <= i < |dishes| ==> dishes[i].data.price >= 0
    requires k < |dishes|
    ensures TotalPrice(dishes) >= dishes[k].data.price >= 0
  {
    if k == 0 {
      TotalPriceNonNegative(dishes[1..]);
    } else {
      TotalPriceBounds(dishes[1..], k - 1);
    }
  }

  lemma {:induction false} TotalPriceNonNegative(dishes: seq<Cuisine>)
    requires forall i :: 0 <= i < |dishes| ==> dishes[i].data.price >= 0
    ensures TotalPrice(dishes) >= 0
  {
    if |dishes| > 0 {
      TotalPriceNonNegative(dishes[1..]);
    }
  }

  /** The stored price agrees with the stored dishes. */
  predicate PriceConsistent(o: OrderFields) {
    o.price == TotalPrice(o.cuisineList)
  }

  // ---------------------------------------------------------------- chat

  /**
    Java's String.isBlank: every character is white space in the sense of
    Character.isWhitespace (the tab to carriage-return controls, the four
    separator controls, and the Unicode space, line and paragraph separators
    except the three no-break spaces).
   */
  predicate IsWhitespace(c: char) {
    var n := c as int;
    (0x09 <= n <= 0x0D) || (0x1C <= n <= 0x20) || n == 0x1680 ||
    (0x2000 <= n <= 0x2006) || (0x2008 <= n <= 0x200A) ||
    n == 0x2028 || n == 0x2029 || n == 0x205F || n == 0x3000
  }

  predicate IsBlank(s: string) {
    forall i :: 0 <= i < |s| ==> IsWhitespace(s[i])
  }

  /** The chat a new order gets: one holding the text, but only when the text is not blank. */
  function NewChat(text: string): (c: Option<Chat>)
    ensures c.Some? <==> !IsBlank(text)
    ensures c.Some? ==> c.value.messages == text
  {
    if IsBlank(text) then None else Some(Chat(0, text))
  }

  /**
    The chat after an update: a missing chat is created only for a non-blank
    text; an existing chat stays the same chat and takes the text, blank or not.
   */
  function UpdatedChat(existing: Option<Chat>, text: string): (c: Option<Chat>)
    ensures existing.None? ==> c == NewChat(text)
    ensures existing.Some? ==> c.Some? && c.value.id == existing.value.id && c.value.messages == text
    ensures c.Some? <==> existing.Some? || !IsBlank(text)
  {
    if existing.None? && !IsBlank(text) then Some(Chat(0, text))
    else if existing.Some? then Some(existing.value.(messages := text))
    else existing
  }

  // ---------------------------------------------------------------- add and update

  /** A new order built from the form: the fixed name "Order", the total price and the creation time. */
  function NewOrder(f: OrderForm, now: Timestamp): (o: OrderFields)
    ensures o.name == "Order" && PriceConsistent(o) && o.createdAt == now && o.cuisineList == f.selected
    ensures o.buyer == f.buyer && o.restaurant == f.restaurant && o.driver == f.driver && o.status == f.status
    ensures o.chat == NewChat(f.chatText)
  {
    OrderFields("Order", f.buyer, f.restaurant, f.driver, f.status, f.selected,
                TotalPrice(f.selected), now, NewChat(f.chatText))
  }

  /**
    The selected order refreshed from the form: buyer, restaurant, driver,
    status, dishes and price are reassigned; name and createdAt are not.
   */
  function RefreshedOrder(o: OrderFields, f: OrderForm): (u: OrderFields)
    ensures PriceConsistent(u) && u.cuisineList == f.selected
    ensures u.name == o.name && u.createdAt == o.createdAt
    ensures u.buyer == f.buyer && u.restaurant == f.restaurant && u.driver == f.driver && u.status == f.status
    ensures u.chat == UpdatedChat(o.chat, f.chatText)
  {
    o.(buyer := f.buyer, restaurant := f.restaurant, driver := f.driver, status := f.status,
       cuisineList := f.selected, price := TotalPrice(f.selected),
       chat := UpdatedChat(o.chat, f.chatText))
  }

  /**
    The add button: nothing happens when the form does not validate;
    otherwise the order built from the form is stored with the next id and
    the form shows its total.
   */
  method AddOrder(svc: OrderService, f: OrderForm, now: Timestamp)
    returns (added: Option<FoodOrder>, form: OrderForm)
    requires svc.orders.Valid()
    modifies svc.orders
    ensures svc.orders.Valid()
    ensures !Validate(f) ==> added.None? && form == f
    ensures !Validate(f) ==> svc.orders.items == old(svc.orders.items) && svc.orders.nextId == old(svc.orders.nextId)
    ensures Validate(f) ==> added == Some(Record(old(svc.orders.nextId), NewOrder(f, now)))
    ensures Validate(f) ==> svc.orders.nextId == old(svc.orders.nextId) + 1
    ensures Validate(f) ==> svc.orders.items == old(svc.orders.items) + [added.value]
    ensures Validate(f) ==> form == f.(priceShown := Some(TotalPrice(f.selected)))
  {
    if !Validate(f) {
      return None, f;
    }
    var order := NewOrder(f, now);
    var stored := svc.Add(Record(0, order));
    added := Some(stored);
    form := f.(priceShown := Some(order.price));
  }

  /**
    The update button: with no order selected, or a form that does not
    validate, nothing changes; otherwise the refreshed order replaces the
    stored one with the same id.
   */
  method UpdateOrder(svc: OrderService, selected: Option<FoodOrder>, f: OrderForm)
    returns (updated: bool, form: OrderForm)
    requires svc.orders.Valid()
    modifies svc.orders
    ensures svc.orders.Valid() && svc.orders.nextId == old(svc.orders.nextId)
    ensures selected.None? || !Validate(f) ==> !updated && form == f
    ensures selected.None? || !Validate(f) ==> svc.orders.items == old(svc.orders.items)
    ensures selected.Some? && Validate(f) ==>
      var u := Record(selected.value.id, RefreshedOrder(selected.value.data, f));
      && updated == HasId(old(svc.orders.items), u.id)
      && svc.orders.items == ReplaceFirst(old(svc.orders.items), u)
      && form == f.(priceShown := Some(TotalPrice(f.selected)))
  {
    if selected.None? || !Validate(f) {
      return false, f;
    }
    var u := Record(selected.value.id, RefreshedOrder(selected.value.data, f));
    updated := svc.orders.Update(u);
    form := f.(priceShown := Some(u.data.price));
  }

  /** Every stored order's price agrees with its dishes. */
  predicate AllPricesConsistent(orders: seq<FoodOrder>) {
    forall i :: 0 <= i < |orders| ==> PriceConsistent(orders[i].data)
  }

  /** Adding and updating through the form keep every stored price equal to the sum of its dishes. */
  lemma PricesStayConsistent(orders: seq<FoodOrder>, f: OrderForm, id: nat, now: Timestamp, o: OrderFields)
    requires AllPricesConsistent(orders)
    ensures AllPricesConsistent(orders + [Record(id, NewOrder(f, now))])
    ensures AllPricesConsistent(ReplaceFirst(orders, Record(id, RefreshedOrder(o, f))))
    ensures AllPricesConsistent(RemoveAll(orders, id))
  {
    var s := orders + [Record(id, NewOrder(f, now))];
    assert forall i :: 0 <= i < |orders| ==> s[i] == orders[i];
    var r := RemoveAll(orders, id);
    forall i | 0 <= i < |r| ensures PriceConsistent(r[i].data) {
      var k :| 0 <= k < |orders| && orders[k] == r[i];
    }
  }

  // ---------------------------------------------------------------- dish filter

  /**
    The restaurant filter on the dish list: with no restaurant chosen every
    dish shows; otherwise a dish shows when it has a restaurant and that is the
    chosen one (the same stored restaurant, that is, the same id).
   */
  predicate DishVisible(chosen: Option<Restaurant>, c: Cuisine) {
    chosen.None? || (c.data.restaurant.Some? && c.data.restaurant.value.id == chosen.value.id)
  }

  /** The filtered dish list the form shows, in the dish service's order. */
  function VisibleDishes(dishes: seq<Cuisine>, chosen: Option<Restaurant>): (v: seq<Cuisine>)
    ensures |v| <= |dishes|
    ensures chosen.None? ==> v == dishes
    ensures forall i :: 0 <= i < |v| ==> v[i] in dishes && DishVisible(chosen, v[i])
    ensures forall i :: 0 <= i < |dishes| && DishVisible(chosen, dishes[i]) ==> dishes[i] in v
  {
    if |dishes| == 0 then []
    else
      assert dishes == [dishes[0]] + dishes[1..];
      var rest := VisibleDishes(dishes[1..], chosen);
      if DishVisible(chosen, dishes[0]) then
        assert forall i :: 1 <= i < |[dishes[0]] + rest| ==> ([dishes[0]] + rest)[i] == rest[i - 1];
        [dishes[0]] + rest
      else rest
  }

  /** The filter is live: a dish added to the dish list shows exactly when the filter admits it. */
  lemma {:induction false} VisibleDishesAppend(dishes: seq<Cuisine>, c: Cuisine, chosen: Option<Restaurant>)
    ensures VisibleDishes(dishes + [c], chosen) ==
            VisibleDishes(dishes, chosen) + (if DishVisible(chosen, c) then [c] else [])
  {
    if |dishes| == 0 {
      assert dishes + [c] == [c];
      assert [c][1..] == [];
    } else {
      assert (dishes + [c])[0] == dishes[0];
      assert (dishes + [c])[1..] == dishes[1..] + [c];
      VisibleDishesAppend(dishes[1..], c, chosen);
    }
  }

  /** Every selected dish is one the list currently shows. */
  predicate SelectionVisible(f: OrderForm, dishes: seq<Cuisine>) {
    forall i :: 0 <= i < |f.selected| ==> f.selected[i] in VisibleDishes(dishes, f.restaurant)
  }

  /**
    The restaurant box's change listener: choosing a different restaurant
    refilters the dish list, clears the dish selection and the shown price;
    choosing the same one fires no change.
   */
  function ChooseRestaurant(f: OrderForm, r: Option<Restaurant>): (g: OrderForm)
    ensures g.restaurant == r
    ensures r == f.restaurant ==> g == f
    ensures r != f.restaurant ==> g.selected == [] && g.priceShown.None?
    ensures g.buyer == f.buyer && g.driver == f.driver && g.status == f.status && g.chatText == f.chatText
  {
    if r == f.restaurant then f else f.(restaurant := r, selected := [], priceShown := None)
  }

  /** Changing the restaurant never leaves a dish selected that the new filter hides. */
  lemma ChooseRestaurantKeepsSelectionVisible(f: OrderForm, r: Option<Restaurant>, dishes: seq<Cuisine>)
    requires SelectionVisible(f, dishes)
    ensures SelectionVisible(ChooseRestaurant(f, r), dishes)
  {
  }

  /**
    Choosing a restaurant drops a dish of another restaurant (or of none)
    from the list shown.  That it is not selected either is immediate from
    ChooseRestaurant, which empties the selection; it is repeated here to show
    the whole scenario.
   */
  lemma ChoosingHidesOtherDishes(f: OrderForm, r: Option<Restaurant>, dishes: seq<Cuisine>, d: Cuisine)
    requires r.Some? && r != f.restaurant
    requires d.data.restaurant.None? || d.data.restaurant.value.id != r.value.id
    ensures d !in VisibleDishes(dishes, r)
    ensures d !in ChooseRestaurant(f, r).selected
  {
  }

  // ---------------------------------------------------------------- statistics

  /** The number of orders whose status is DELIVERED. */
  function DeliveredCount(orders: seq<FoodOrder>): (n: nat)
    ensures n <= |orders|
    ensures n == 0 <==> forall i :: 0 <= i < |orders| ==> orders[i].data.status != Some(DELIVERED)
    ensures n == |orders| <==> forall i :: 0 <= i < |orders| ==> orders[i].data.status == Some(DELIVERED)
  {
    if |orders| == 0 then 0
    else
      assert forall i :: 1 <= i < |orders| ==> orders[i] == orders[1..][i - 1];
      (if orders[0].data.status == Some(DELIVERED) then 1 else 0) + DeliveredCount(orders[1..])
  }

  /** Counting over two runs of orders adds up. */
  lemma {:induction false} DeliveredCountAppend(a: seq<FoodOrder>, b: seq<FoodOrder>)
    ensures DeliveredCount(a + b) == DeliveredCount(a) + DeliveredCount(b)
  {
    if |a| == 0 {
      assert a + b == b;
    } else {
      assert (a + b)[0] == a[0];
      assert (a + b)[1..] == a[1..] + b;
      DeliveredCountAppend(a[1..], b);
    }
  }
}
