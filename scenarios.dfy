/**
  Client code driving the services and the controller rules the way the
  screens do; each method checks what the contracts let a caller conclude.
 */
module Scenarios {

  import opened Wrappers
  import opened Model
  import opened Services
  import OrderRules
  import ReviewRules

  /** Ids count from 1 and a deleted id is never handed out again. */
  method IdsAreNotReused() {
    var svc := new BasicUserService();
    var jonas := svc.CreateBasicUser("jonas", "pw", "Jonas", "J", "+370", "Vilnius", false);
    assert jonas.id == 1;
    var gone := svc.users.Delete(jonas.id);
    assert gone && svc.users.items == [];
    var ona := svc.CreateBasicUser("ona", "pw", "Ona", "O", "+370", "Kaunas", true);
    assert ona.id == 2 && svc.users.FindById(1).None?;
    var again := svc.users.Delete(jonas.id);
    assert !again && svc.users.items == [ona];
  }

  /** An order of two burgers at 8.50 costs 17.00; deleting it twice succeeds once. */
  method BurgerOrder(resto: Restaurant, jonas: BasicUser, petras: Driver) {
    var dishes := new CuisineService();
    var burger := dishes.CreateCuisine("Burger", "bun, beef", 850, false, false, Some(resto));
    assert OrderRules.VisibleDishes(dishes.cuisines.items, Some(resto)) == [burger];
    TwoBurgers(burger);

    var orders := new OrderService();
    var form := OrderRules.OrderForm(Some(jonas), Some(resto), Some(petras), Some(PENDING),
                                     [burger, burger], None, "");
    var added, shown := OrderRules.AddOrder(orders, form, 100);
    assert added.Some? && added.value.id == 1;
    assert added.value.data.price == 1700 && |added.value.data.cuisineList| == 2;
    assert shown.priceShown == Some(1700);

    var first := orders.orders.Delete(1);
    assert first && orders.orders.items == [];
    var second := orders.orders.Delete(1);
    assert !second && |orders.orders.items| == 0;
  }

  lemma TwoBurgers(burger: Cuisine)
    requires burger.data.price == 850
    ensures OrderRules.TotalPrice([burger, burger]) == 1700
  {
    assert [burger][1..] == [];
    assert OrderRules.TotalPrice([burger]) == 850;
    assert [burger, burger] == [burger] + [burger];
    OrderRules.TotalPriceAppend([burger], [burger]);
  }

  /** A form without a driver is refused and the store is left as it was. */
  method OrderWithoutDriverIsRefused(orders: OrderService, buyer: BasicUser, resto: Restaurant, dish: Cuisine)
    requires orders.orders.Valid()
    modifies orders.orders
  {
    var before := orders.orders.items;
    var form := OrderRules.OrderForm(Some(buyer), Some(resto), None, Some(PENDING), [dish], None, "hi");
    var added, _ := OrderRules.AddOrder(orders, form, 0);
    assert added.None? && orders.orders.items == before;
  }

  /** A stored review fills the form, which submits back the same review. */
  method ReviewRoundTrip(reviews: ReviewService, r: Review, blank: ReviewRules.ReviewForm)
    requires reviews.reviews.Valid() && r in reviews.reviews.items
    requires r.data.commentOwner.Some? && OneTarget(r.data)
    modifies reviews.reviews
  {
    var form := ReviewRules.FillForm(blank, r.data);
    ReviewRules.FillFormRoundTrip(blank, r.data);
    var ok := ReviewRules.UpdateReview(reviews, Some(r), form);
    assert ok;
    assert reviews.reviews.items == old(reviews.reviews.items);
  }
}
