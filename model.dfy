/**
  The entity records of the food-delivery application.  Each entity is a
  Store.Record: the id its service assigns plus the fields below.  A Java
  reference that may be null is an Option; an object reference to another
  entity is that entity's value.
 */
module Model {

  import opened Wrappers
  import opened Store

  /** A money amount in cents; the source keeps prices as doubles. */
  type Cents = int

  /** A clock reading (LocalDateTime) supplied by the caller. */
  type Timestamp = nat

  /** A calendar date (LocalDate) supplied by the caller. */
  type Date = nat

  /** The account fields of a BasicUser; restaurants and drivers extend them. */
  datatype UserFields = UserFields(
    login: string,
    password: string,
    name: string,
    surname: string,
    phoneNumber: string,
    address: string,
    isAdmin: bool)

  type BasicUser = Record<UserFields>

  /** A Restaurant is a BasicUser; its menu and order lists are never filled in by the services. */
  datatype RestaurantFields = RestaurantFields(account: UserFields)

  type Restaurant = Record<RestaurantFields>

  datatype VehicleType = CAR | BIKE | BY_FOOT

  /** A Driver is a BasicUser with a licence, a birth date and a vehicle. */
  datatype DriverFields = DriverFields(
    account: UserFields,
    licence: string,
    bDate: Date,
    vehicleType: VehicleType)

  type Driver = Record<DriverFields>

  /** A dish (Cuisine) on a restaurant's menu. */
  datatype CuisineFields = CuisineFields(
    name: string,
    ingredients: string,
    price: Cents,
    spicy: bool,
    vegan: bool,
    restaurant: Option<Restaurant>)

  type Cuisine = Record<CuisineFields>

  /** The ten order states; nothing in the application restricts which follows which. */
  datatype OrderStatus =
    | PENDING
    | SEEN_BY_STAFF
    | ACCEPTED
    | REJECTED
    | FOOD_BEING_PREPARED
    | WAITING_FOR_DRIVER
    | IN_DELIVERY
    | DELIVERED
    | COMPLETED
    | CANCELLED

  /**
    The chat attached to an order.  Its back-reference to the order is the
    nesting itself: a chat value lives inside the order it belongs to.  No code
    assigns a chat id, so it keeps the value a fresh object has, 0.
   */
  datatype Chat = Chat(id: nat, messages: string)

  /** A FoodOrder, with the fields the order form sets. */
  datatype OrderFields = OrderFields(
    name: string,
    buyer: Option<BasicUser>,
    restaurant: Option<Restaurant>,
    driver: Option<Driver>,
    status: Option<OrderStatus>,
    cuisineList: seq<Cuisine>,
    price: Cents,
    createdAt: Timestamp,
    chat: Option<Chat>)

  type FoodOrder = Record<OrderFields>

  /** A review of a restaurant or a driver. */
  datatype ReviewFields = ReviewFields(
    commentOwner: Option<BasicUser>,
    feedbackUser: Option<BasicUser>,
    restaurant: Option<Restaurant>,
    driver: Option<Driver>,
    rating: int,
    text: string,
    createdAt: Timestamp,
    chat: Option<Chat>)

  type Review = Record<ReviewFields>

  /** The comment owner is always present and always a client, never an admin. */
  predicate OwnerIsClient(r: ReviewFields) {
    r.commentOwner.Some? && !r.commentOwner.value.data.isAdmin
  }

  /** The feedback user, where there is one, is staff: an admin. */
  predicate FeedbackIsStaff(r: ReviewFields) {
    r.feedbackUser.Some? ==> r.feedbackUser.value.data.isAdmin
  }

  /** The review targets either the restaurant or the driver: exactly one of the two is null. */
  predicate OneTarget(r: ReviewFields) {
    r.restaurant.Some? != r.driver.Some?
  }

  /** The shared star scale runs from 1 to 5. */
  predicate RatingInScale(rating: int) {
    1 <= rating <= 5
  }

  /** The record invariants a review is meant to satisfy. */
  predicate WellFormedReview(r: ReviewFields) {
    OwnerIsClient(r) && FeedbackIsStaff(r) && OneTarget(r) && RatingInScale(r.rating)
  }
}
