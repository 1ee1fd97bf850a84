# Food-delivery administration: the entity store and the order and review rules

This project models the core of a desktop application that administers a
food-delivery business. The data lives in six in-memory services: users,
restaurants, drivers, dishes ("cuisine"), orders and reviews. Each service
owns a list of entities and an id counter. The counter starts at 1 and is
post-incremented on every create. The order and review screens add rules on
top of the store: form validation, the order's total price, the chat policy,
the restaurant filter on the dish list, the delivered-order count, and the
rule that a review targets exactly one restaurant or driver.

Modules:

- `Wrappers` (`wrappers.dfy`): `Option`, which stands for a Java reference that may be null.
- `Store` (`store.dfy`): `Record<T>`, an entity value made of its id and its other fields.
  It also holds the functions that specify the list operations (`FirstIndex`, `ReplaceFirst`,
  `RemoveAll`), their lemmas, and the generic class `Repository<T>`. That class is the list and
  counter that every service updates in place. Its invariant `Valid()` says three things:
  ids strictly increase along the list, every id is at least 1, and every id is below the counter.
- `Model` (`model.dfy`): the entity records and the record invariants stated in the comments
  of `Review.java` (`WellFormedReview`).
- `Services` (`services.dfy`): the six service classes. Each holds one `Repository` and adds its
  own create operation. The other operations of a service are those of its repository:
  `findById` is `Repository.FindById`, `update…` is `Repository.Update`, `delete…` is
  `Repository.Delete`, and `getAll…` reads `Repository.items`.
- `OrderRules` (`order_rules.dfy`) and `ReviewRules` (`review_rules.dfy`): the rules of the two
  controllers. Each is a function of a form value, except add and update, which are methods
  on the order or review service.
- `Scenarios` (`scenarios.dfy`): client code checked against the contracts. It covers ids not
  being reused after a delete, two 8.50 burgers costing 17.00, a second delete returning false,
  a form without a driver being refused, and a review filling the form and coming back unchanged.

Modelling choices:

- Prices are `double` in the source. Here they are integer cents (`Cents`), and no rounding is claimed.
- `LocalDateTime.now()` and birth dates become `nat` parameters (`Timestamp`, `Date`) passed in by the caller.
- A reference to another entity is that entity's value. The dish filter compares the chosen restaurant
  with a dish's restaurant by id. Java compares them with `equals` on stored objects, and a stored
  object is identified by its id.
  The restaurant box's change event in `ChooseRestaurant` compares whole values: two copies of one
  restaurant that differ in another field count as a change and empty the dish selection.
- A chat's back-reference to its order (`Chat.order`) is represented by nesting: the chat value lives
  inside the order it belongs to. No code assigns a chat id, so it stays 0, the value of a fresh object.
- `BasicUser.java`, `Driver.java`, `FoodOrder.java` and `VehicleType.java` are not part of this model.
  Their fields are those the services and controllers set. The vehicle type is the enumeration
  `CAR | BIKE | BY_FOOT`. Restaurants and drivers are created with `isAdmin` false, because their
  create methods never set the flag.
- In the source, delete removes EVERY element with the id (`removeIf`), not only the first.
  The order form requires a driver (`OrdersController.java:382-384`). The model follows the code on both.
- The services check nothing. `CreateReview` stores whatever target and rating it is given.
  For review values built by the controller rules, the review invariants are preserved (`ReviewsStayWellFormed`).
  In the source, shared references let edits on other screens break them (see "## Left out").

## Model

| member | source | states |
|---|---|---|
| Store.FirstIndex | src/main/java/coursework/service/BasicUserService.java:46-52 | the scan from index 0 stops at the first element with the id: that element has the id, no earlier one has it, and there is none exactly when no element has the id |
| Store.ReplaceFirst | src/main/java/coursework/service/BasicUserService.java:45-53 | same length; only the first index with the id holds the new record, every other position is unchanged; with the id absent the list is unchanged |
| Store.RemoveAll | src/main/java/coursework/service/BasicUserService.java:56-58 | no element with the id remains; every survivor came from the list and every element with another id survives; the length drops exactly when the id was present; with the id absent the list is unchanged |
| Store.RemoveAllAppend | src/main/java/coursework/service/BasicUserService.java:57 | removal distributes over concatenation, so the remaining elements keep their relative order |
| Store.RemoveAllKeepsIncreasing | src/main/java/coursework/service/RestaurantService.java:51-53 | deleting keeps the ids strictly increasing along the list (part of the invariant that delete preserves) |
| Store.DeleteTwice | src/main/java/coursework/service/OrderService.java:31-33 | after a delete the id is gone, so a second delete of the same id removes nothing and leaves the list as it is |
| Store.CreateThenFind | src/main/java/coursework/service/BasicUserService.java:17-42 | a record appended with an id above all present ids is exactly what a find for that id reaches |
| Store.UpdateThenFind | src/main/java/coursework/service/CuisineService.java:39-54 | after a successful update, a find for the id stops at the same index and yields the new record |
| Store.Repository.Valid | src/main/java/coursework/service/BasicUserService.java:10-18 | defines the service invariant: the counter is at least 1, ids strictly increase along the list, and every id lies in [1, counter); the constructor establishes it and Create, Update and Delete preserve it |
| Store.Repository.constructor | src/main/java/coursework/service/BasicUserService.java:10-11 | a new store is an empty list with the counter at 1 |
| Store.Repository.Create | src/main/java/coursework/service/BasicUserService.java:17-28 | the new record takes the pre-call counter as id, an id no stored element has; the counter advances by exactly 1; the record is appended and earlier elements are unchanged; the invariant is kept |
| Store.Repository.FindById | src/main/java/coursework/service/BasicUserService.java:37-42 | returns the first element whose id matches, or None (null) exactly when none matches |
| Store.Repository.Update | src/main/java/coursework/service/BasicUserService.java:45-53 | returns true exactly when some element had the id; the list becomes that list with only the first match replaced (unchanged on false); the counter is untouched; the invariant is kept |
| Store.Repository.Delete | src/main/java/coursework/service/BasicUserService.java:56-58 | returns true exactly when some element had the id; the list becomes the list without every such element, the rest in order; the counter is untouched, so ids are never reused; the invariant is kept |
| Services.BasicUserService.constructor | src/main/java/coursework/service/BasicUserService.java:10-11 | the user list starts empty and the counter at 1 |
| Services.BasicUserService.CreateBasicUser | src/main/java/coursework/service/BasicUserService.java:14-29 | the user carries the given fields and the next id, and is appended |
| Services.RestaurantService.constructor | src/main/java/coursework/service/RestaurantService.java:11-12 | the restaurant list starts empty and the counter at 1 |
| Services.RestaurantService.CreateRestaurant | src/main/java/coursework/service/RestaurantService.java:14-28 | the restaurant carries the given account fields, is not an admin, takes the next id and is appended |
| Services.DriverService.constructor | src/main/java/coursework/service/DriverService.java:13-14 | the driver list starts empty and the counter at 1 |
| Services.DriverService.CreateDriver | src/main/java/coursework/service/DriverService.java:16-40 | the driver carries the given account, licence, birth date and vehicle type, takes the next id and is appended |
| Services.CuisineService.constructor | src/main/java/coursework/service/CuisineService.java:12-13 | the dish list starts empty and the counter at 1 |
| Services.CuisineService.CreateCuisine | src/main/java/coursework/service/CuisineService.java:15-33 | the dish carries exactly the given name, ingredients, price, flags and restaurant, takes the next id and is appended |
| Services.OrderService.constructor | src/main/java/coursework/service/OrderService.java:9-10 | the order list starts empty and the counter at 1 |
| Services.OrderService.Add | src/main/java/coursework/service/OrderService.java:12-15 | the stored order is the given one with its id overwritten by the counter; the counter advances by 1; the order is appended |
| Services.ReviewService.constructor | src/main/java/coursework/service/ReviewService.java:14-15 | the review list starts empty and the counter at 1 |
| Services.ReviewService.CreateReview | src/main/java/coursework/service/ReviewService.java:17-37 | the review stores owner, feedback user, restaurant, driver, rating and text as passed, unchecked; createdAt is the supplied time, chat is null; it takes the next id and is appended |
| Model.OwnerIsClient | src/main/java/coursework/model/Review.java:22-24 | defines the owner invariant: the comment owner is present and is not an admin |
| Model.FeedbackIsStaff | src/main/java/coursework/model/Review.java:26-28 | defines the feedback invariant: a feedback user, when present, is an admin |
| Model.OneTarget | src/main/java/coursework/model/Review.java:30-35 | defines the target invariant: exactly one of restaurant and driver is non-null |
| Model.RatingInScale | src/main/java/coursework/model/Review.java:37-38 | defines the rating invariant: the rating lies in 1..5 |
| Model.WellFormedReview | src/main/java/coursework/model/Review.java:22-38 | defines a well-formed review as one meeting all four record invariants |
| OrderRules.Errors | src/main/java/coursework/app/controllers/OrdersController.java:373-391 | each of the five messages is collected exactly when its field is missing (buyer, restaurant, driver, status, no dish selected), at most five in all |
| OrderRules.Validate | src/main/java/coursework/app/controllers/OrdersController.java:373-397 | the form passes exactly when buyer, restaurant, driver and status are chosen and at least one dish is selected |
| OrderRules.TotalPrice | src/main/java/coursework/app/controllers/OrdersController.java:298-301 | defines the stream sum of the selected dishes' prices, each occurrence counted; its properties are TotalPriceAppend, TotalPriceBounds and TotalPriceNonNegative |
| OrderRules.TotalPriceAppend | src/main/java/coursework/app/controllers/OrdersController.java:298-301 | the price sum is additive over the selected dishes, each occurrence counted |
| OrderRules.TotalPriceBounds | src/main/java/coursework/app/controllers/OrdersController.java:299-301 | with no negative price, the total is at least any selected dish's price |
| OrderRules.TotalPriceNonNegative | src/main/java/coursework/app/controllers/OrdersController.java:335-337 | with no negative price, the total is not negative |
| OrderRules.IsWhitespace | src/main/java/coursework/app/controllers/OrdersController.java:313 | defines Java's `Character.isWhitespace` set of characters, as `String.isBlank` uses it |
| OrderRules.IsBlank | src/main/java/coursework/app/controllers/OrdersController.java:313 | defines `String.isBlank`: every character is whitespace, so the empty text is blank |
| OrderRules.NewChat | src/main/java/coursework/app/controllers/OrdersController.java:313-318 | a new order gets a chat exactly when the chat text is not blank, and the chat holds that text |
| OrderRules.UpdatedChat | src/main/java/coursework/app/controllers/OrdersController.java:346-353 | a missing chat is created only for non-blank text; an existing chat stays the same chat (same id) and takes the text even when blank; so a second chat is never created |
| OrderRules.NewOrder | src/main/java/coursework/app/controllers/OrdersController.java:303-318 | the new order is named "Order", its price equals the sum of its dishes, createdAt is the supplied time, buyer, restaurant, driver, status and dishes are the form's, and it gets a chat exactly when the text is not blank |
| OrderRules.RefreshedOrder | src/main/java/coursework/app/controllers/OrdersController.java:339-353 | the update reassigns buyer, restaurant, driver, status, dishes and a price equal to their sum; name and createdAt stay as they were |
| OrderRules.AddOrder | src/main/java/coursework/app/controllers/OrdersController.java:295-324 | an invalid form changes nothing; a valid one appends the order built from the form with the next id, advances the id counter by one and shows its total |
| OrderRules.UpdateOrder | src/main/java/coursework/app/controllers/OrdersController.java:326-359 | with no order selected or an invalid form nothing changes; otherwise the refreshed order replaces the stored one with its id |
| OrderRules.PricesStayConsistent | src/main/java/coursework/app/controllers/OrdersController.java:298-344 | if every stored price equals its dishes' sum, it still does after an add, an update or a delete |
| OrderRules.DishVisible | src/main/java/coursework/app/controllers/OrdersController.java:92-100 | defines the filter predicate: every dish with no restaurant chosen, otherwise a dish whose restaurant is non-null and is the chosen one |
| OrderRules.VisibleDishes | src/main/java/coursework/app/controllers/OrdersController.java:92-100 | with no restaurant every dish shows; otherwise exactly the dishes that have a restaurant and whose restaurant is the chosen one show |
| OrderRules.VisibleDishesAppend | src/main/java/coursework/app/controllers/OrdersController.java:87-100 | the filtered list is live: a dish added to the dish list shows at the end exactly when the filter admits it |
| OrderRules.ChooseRestaurant | src/main/java/coursework/app/controllers/OrdersController.java:92-103 | choosing the same restaurant leaves the form unchanged (no change event); choosing a different one clears the dish selection and the price field and keeps the other boxes |
| OrderRules.ChooseRestaurantKeepsSelectionVisible | src/main/java/coursework/app/controllers/OrdersController.java:92-103 | after a restaurant change, every selected dish is still one the filtered list shows |
| OrderRules.ChoosingHidesOtherDishes | src/main/java/coursework/app/controllers/OrdersController.java:92-103 | choosing a restaurant drops a dish of another restaurant, or of none, both from the list shown and from the selection |
| OrderRules.DeliveredCount | src/main/java/coursework/app/controllers/OrdersController.java:403-406 | the delivered count is at most the total order count; it is 0 exactly when no order is DELIVERED and equals the total exactly when all are |
| OrderRules.DeliveredCountAppend | src/main/java/coursework/app/controllers/OrdersController.java:404-406 | the delivered count is additive over concatenated order lists |
| ReviewRules.UsersByAdmin | src/main/java/coursework/app/controllers/ReviewController.java:124-137 | the filtered list holds exactly the users with the given admin flag, each taken from the user list |
| ReviewRules.UsersByAdminAppend | src/main/java/coursework/app/controllers/ReviewController.java:124-137 | the filter keeps the user list's order: an appended user joins the end of its group's list exactly when its flag matches |
| ReviewRules.OwnerCandidates | src/main/java/coursework/app/controllers/ReviewController.java:124-129 | defines the owner box's items as the non-admin users, in the user service's order |
| ReviewRules.FeedbackCandidates | src/main/java/coursework/app/controllers/ReviewController.java:131-137 | defines the feedback box's items as the admin users, in the user service's order |
| ReviewRules.CandidatesPartitionUsers | src/main/java/coursework/app/controllers/ReviewController.java:124-137 | the owner candidates (non-admins) and feedback candidates (admins) split the users: each user is in exactly one list, and the two lengths add up to the user count |
| ReviewRules.RatingChoices | src/main/java/coursework/app/controllers/ReviewController.java:146 | the rating choices are exactly the values 1 to 5, ascending |
| ReviewRules.RadiosExclusive | src/main/java/coursework/app/controllers/ReviewController.java:149-153 | defines the one toggle group: at most one of the two radios is selected; SelectRestaurantRadio, SelectDriverRadio and FillForm establish it, and the one-target results rest on it |
| ReviewRules.DrawsFrom | src/main/java/coursework/app/controllers/ReviewController.java:124-145 | defines that the owner box holds a non-admin user, the feedback box an admin user and the rating box a value 1..5, or nothing; the owner, feedback and rating invariants rest on it |
| ReviewRules.SelectRestaurantRadio | src/main/java/coursework/app/controllers/ReviewController.java:150-160 | selecting the restaurant radio deselects the driver radio; on a change of selection it empties the driver box, and when the radio was already on the driver box keeps its value; the other boxes and the text stay |
| ReviewRules.SelectDriverRadio | src/main/java/coursework/app/controllers/ReviewController.java:161-165 | selecting the driver radio deselects the restaurant radio; on a change of selection it empties the restaurant box, and when the radio was already on the restaurant box keeps its value; the other boxes and the text stay |
| ReviewRules.Errors | src/main/java/coursework/app/controllers/ReviewController.java:271-294 | owner and rating messages exactly when those are missing; the type message exactly when neither radio is on; the restaurant (driver) message exactly when its radio is on and its box is empty |
| ReviewRules.Validate | src/main/java/coursework/app/controllers/ReviewController.java:271-300 | the form passes exactly when it has an owner, a rating and a target type, and the box of each selected type holds a value |
| ReviewRules.TargetRestaurant | src/main/java/coursework/app/controllers/ReviewController.java:221 | defines the restaurant passed on: the box's value when the restaurant radio is on, otherwise null |
| ReviewRules.TargetDriver | src/main/java/coursework/app/controllers/ReviewController.java:222 | defines the driver passed on: the box's value when the driver radio is on, otherwise null |
| ReviewRules.ValidFormHasOneTarget | src/main/java/coursework/app/controllers/ReviewController.java:221-222 | a valid form with exclusive radios passes on exactly one of restaurant and driver, the one whose radio is selected |
| ReviewRules.Submitted | src/main/java/coursework/app/controllers/ReviewController.java:224-231 | defines the review the form yields: owner, feedback user, the selected target only, rating and text, with the given creation time and chat |
| ReviewRules.SubmittedIsWellFormed | src/main/java/coursework/app/controllers/ReviewController.java:218-231 | a valid form whose boxes hold offered values yields a review with a client owner, a staff feedback user or none, exactly one target and a rating in 1..5 |
| ReviewRules.AddReview | src/main/java/coursework/app/controllers/ReviewController.java:218-238 | an invalid form changes nothing; a valid one creates the review from the form with the selected target only, at the supplied time, and advances the id counter by one |
| ReviewRules.UpdateReview | src/main/java/coursework/app/controllers/ReviewController.java:240-258 | with no review selected or an invalid form nothing changes; otherwise the selected review takes the form's values (id, createdAt and chat kept) and replaces the stored one |
| ReviewRules.ReviewsStayWellFormed | src/main/java/coursework/model/Review.java:22-38 | if every stored review satisfies the record invariants, they still do after the controller adds, updates or deletes |
| ReviewRules.FillForm | src/main/java/coursework/app/controllers/ReviewController.java:200-216 | the restaurant radio is selected exactly when the review has a restaurant; otherwise the driver radio exactly when it has a driver; otherwise neither; the owner, feedback, rating, text and restaurant boxes take the review's values, and so does the driver box except that it is emptied when a restaurant review is loaded while the restaurant radio was off |
| ReviewRules.FillFormRoundTrip | src/main/java/coursework/app/controllers/ReviewController.java:200-251 | filling the form from a review with an owner and one target, then submitting it unchanged, validates and gives back the same review |
| Scenarios.TwoBurgers | src/main/java/coursework/app/controllers/OrdersController.java:298-301 | two dishes at 850 cents each total 1700 cents |

## Left out

- JavaFX: table and combo-box wiring, cell factories, alerts, the statistics window, `table.refresh`, and App.java's tabs. The controllers' delete buttons are only "select first, then call the service delete".
- The Users, Restaurant, Drivers and Cuisine controllers: form plumbing, blank-field checks, demo data, and the price parsing with `Double.parseDouble`.
- `OrdersController.fillForm`, which restores the dish selection by list index.
- Live `ObservableList` notification and aliasing. The list is a plain sequence field. When a controller mutates the stored object before calling update, that becomes a whole-value replacement. `getAll…` is a read of `Repository.items`; the live binding is not modelled.
- JPA and Lombok annotations (`@GeneratedValue`, cascades, the unused `menu` and `foodOrders` lists of Restaurant): no code exercises them.
- ReviewRules.ReviewsStayWellFormed: holds for value copies only. In the source, a review keeps a reference to the same user object that the Users screen edits (`UsersController.java:153`, `selected.setAdmin(...)`), and the review form's owner box offers a one-time copy of that user list (`ReviewController.java:124-129`). So a stored or newly created review can end up with an admin owner, which breaks `OwnerIsClient`.
- OrderRules.PricesStayConsistent: holds for value copies only. In the source, an order's dish list holds the same Cuisine objects that the Cuisine screen edits (`CuisineController.java:193`), so a dish price edit leaves the stored order's `price` different from the sum of its dishes.
- Store.Repository.Create: does not model the wrap-around of the Java `int`/`long` counter, because ids are unbounded naturals here.
- Floating point: prices are integer cents.
- The clock: the caller passes the time in.
- Order status transitions and referential integrity: the source enforces neither. No service checks references or cascades deletes.
