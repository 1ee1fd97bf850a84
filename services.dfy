/**
  The six services.  Each owns one Store.Repository (its list and its id
  counter) and knows how to build its own entity on create; find, update and
  delete are the repository's own FindById, Update and Delete.  The Java
  OrderService and ReviewService have no find method; here their public
  repository still offers FindById.
 */
module Services {

  import opened Wrappers
  import opened Store
  import opened Model

  class BasicUserService {
    const users: Repository<UserFields>

    constructor ()
      ensures fresh(users) && users.Valid()
      ensures users.items == [] && users.nextId == 1
    {
      users := new Repository<UserFields>();
    }

    /** Builds a user from the given fields with the next id and appends it. */
    method CreateBasicUser(login: string, password: string, name: string, surname: string,
                           phoneNumber: string, address: string, isAdmin: bool)
      returns (u: BasicUser)
      requires users.Valid()
      modifies users
      ensures users.Valid()
      ensures u.id == old(users.nextId) && users.nextId == old(users.nextId) + 1
      ensures u.data == UserFields(login, password, name, surname, phoneNumber, address, isAdmin)
      ensures users.items == old(users.items) + [u]
    {
      u := users.Create(UserFields(login, password, name, surname, phoneNumber, address, isAdmin));
    }
  }

  class RestaurantService {
    const restaurants: Repository<RestaurantFields>

    constructor ()
      ensures fresh(restaurants) && restaurants.Valid()
      ensures restaurants.items == [] && restaurants.nextId == 1
    {
      restaurants := new Repository<RestaurantFields>();
    }

    /** Builds a restaurant account (never an admin: the flag keeps its default) and appends it. */
    method CreateRestaurant(login: string, password: string, name: string, surname: string,
                            phoneNumber: string, address: string)
      returns (r: Restaurant)
      requires restaurants.Valid()
      modifies restaurants
      ensures restaurants.Valid()
      ensures r.id == old(restaurants.nextId) && restaurants.nextId == old(restaurants.nextId) + 1
      ensures r.data.account == UserFields(login, password, name, surname, phoneNumber, address, false)
      ensures restaurants.items == old(restaurants.items) + [r]
    {
      r := restaurants.Create(RestaurantFields(
        UserFields(login, password, name, surname, phoneNumber, address, false)));
    }
  }

  class DriverService {
    const drivers: Repository<DriverFields>

    constructor ()
      ensures fresh(drivers) && drivers.Valid()
      ensures drivers.items == [] && drivers.nextId == 1
    {
      drivers := new Repository<DriverFields>();
    }

    /** Builds a driver with the given account, licence, birth date and vehicle and appends it. */
    method CreateDriver(login: string, password: string, name: string, surname: string,
                        phoneNumber: string, address: string,
                        licence: string, bDate: Date, vehicleType: VehicleType)
      returns (d: Driver)
      requires drivers.Valid()
      modifies drivers
      ensures drivers.Valid()
      ensures d.id == old(drivers.nextId) && drivers.nextId == old(drivers.nextId) + 1
      ensures d.data.account == UserFields(login, password, name, surname, phoneNumber, address, false)
      ensures d.data.licence == licence && d.data.bDate == bDate && d.data.vehicleType == vehicleType
      ensures drivers.items == old(drivers.items) + [d]
    {
      d := drivers.Create(DriverFields(
        UserFields(login, password, name, surname, phoneNumber, address, false),
        licence, bDate, vehicleType));
    }
  }

  class CuisineService {
    const cuisines: Repository<CuisineFields>

    constructor ()
      ensures fresh(cuisines) && cuisines.Valid()
      ensures cuisines.items == [] && cuisines.nextId == 1
    {
      cuisines := new Repository<CuisineFields>();
    }

    /** Builds a dish for the given restaurant (which may be null) and appends it. */
    method CreateCuisine(name: string, ingredients: string, price: Cents,
                         spicy: bool, vegan: bool, restaurant: Option<Restaurant>)
      returns (c: Cuisine)
      requires cuisines.Valid()
      modifies cuisines
      ensures cuisines.Valid()
      ensures c.id == old(cuisines.nextId) && cuisines.nextId == old(cuisines.nextId) + 1
      ensures c.data == CuisineFields(name, ingredients, price, spicy, vegan, restaurant)
      ensures cuisines.items == old(cuisines.items) + [c]
    {
      c := cuisines.Create(CuisineFields(name, ingredients, price, spicy, vegan, restaurant));
    }
  }

  class OrderService {
    const orders: Repository<OrderFields>

    constructor ()
      ensures fresh(orders) && orders.Valid()
      ensures orders.items == [] && orders.nextId == 1
    {
      orders := new Repository<OrderFields>();
    }

    /** Overwrites the order's id with the next id and appends it; every other field is kept. */
    method Add(order: FoodOrder) returns (stored: FoodOrder)
      requires orders.Valid()
      modifies orders
      ensures orders.Valid()
      ensures stored == order.(id := old(orders.nextId))
      ensures orders.nextId == old(orders.nextId) + 1
      ensures orders.items == old(orders.items) + [stored]
    {
      stored := orders.Create(order.data);
    }
  }

  class ReviewService {
    const reviews: Repository<ReviewFields>

    constructor ()
      ensures fresh(reviews) && reviews.Valid()
      ensures reviews.items == [] && reviews.nextId == 1
    {
      reviews := new Repository<ReviewFields>();
    }

    /**
      Stores the arguments as given (no check of target or rating happens
      here), stamps the creation time `now`, leaves the chat null and appends.
     */
    method CreateReview(commentOwner: Option<BasicUser>, feedbackUser: Option<BasicUser>,
                        restaurant: Option<Restaurant>, driver: Option<Driver>,
                        rating: int, text: string, now: Timestamp)
      returns (r: Review)
      requires reviews.Valid()
      modifies reviews
      ensures reviews.Valid()
      ensures r.id == old(reviews.nextId) && reviews.nextId == old(reviews.nextId) + 1
      ensures r.data == ReviewFields(commentOwner, feedbackUser, restaurant, driver, rating, text, now, None)
      ensures reviews.items == old(reviews.items) + [r]
    {
      r := reviews.Create(ReviewFields(commentOwner, feedbackUser, restaurant, driver, rating, text, now, None));
    }
  }
}
