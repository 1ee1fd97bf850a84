/**
  The business rules of the review screen, lifted out of the widgets: the
  candidate lists for owner and feedback user, the rating choices, the two
  target radios of one toggle group, validation, the target a submitted review
  gets, and how a stored review fills the form back in.
 */
module ReviewRules {

  import opened Wrappers
  import opened Store
  import opened Model
  import opened Services

  // ---------------------------------------------------------------- candidates

  /** The users whose admin flag is `admin`, in the user service's order. */
  function UsersByAdmin(users: seq<BasicUser>, admin: bool): (r: seq<BasicUser>)
    ensures |r| <= |users|
    ensures forall i :: 0 <= i < |r| ==> r[i] in users && r[i].data.isAdmin == admin
    ensures forall i :: 0 <= i < |users| && users[i].data.isAdmin == admin ==> users[i] in r
  {
    if |users| == 0 then []
    else
      assert users == [users[0]] + users[1..];
      var rest := UsersByAdmin(users[1..], admin);
      if users[0].data.isAdmin == admin then
        assert forall i :: 1 <= i < |[users[0]] + rest| ==> ([users[0]] + rest)[i] == rest[i - 1];
        [users[0]] + rest
      else rest
  }

  /** The filter is order-preserving: an appended user joins the end of its group's list. */
  lemma {:induction false} UsersByAdminAppend(users: seq<BasicUser>, u: BasicUser, admin: bool)
    ensures UsersByAdmin(users + [u], admin) ==
            UsersByAdmin(users, admin) + (if u.data.isAdmin == admin then [u] else [])
  {
    if |users| == 0 {
      assert users + [u] == [u];
      assert [u][1..] == [];
    } else {
      assert (users + [u])[0] == users[0];
      assert (users + [u])[1..] == users[1..] + [u];
      UsersByAdminAppend(users[1..], u, admin);
    }
  }

  /** Who may own a review (and, on the order screen, buy): the non-admin users. */
  function OwnerCandidates(users: seq<BasicUser>): seq<BasicUser> {
    UsersByAdmin(users, false)
  }

  /** Who may handle a review: the admin users. */
  function FeedbackCandidates(users: seq<BasicUser>): seq<BasicUser> {
    UsersByAdmin(users, true)
  }

  /**
    The two candidate lists split the users: every user is in exactly one of
    them, and together they are exactly as long as the user list.
   */
  lemma {:induction false} CandidatesPartitionUsers(users: seq<BasicUser>)
    ensures |OwnerCandidates(users)| + |FeedbackCandidates(users)| == |users|
    ensures forall i :: 0 <= i < |users| ==>
      (users[i] in OwnerCandidates(users)) != (users[i] in FeedbackCandidates(users))
  {
    if |users| > 0 {
      CandidatesPartitionUsers(users[1..]);
    }
  }

  /** The rating box offers exactly the star scale, in ascending order. */
  function RatingChoices(): (r: seq<int>)
    ensures forall x :: x in r <==> RatingInScale(x)
    ensures forall i, j :: 0 <= i < j < |r| ==> r[i] < r[j]
  {
    [1, 2, 3, 4, 5]
  }

  // ---------------------------------------------------------------- the form

  /** What the review form holds: the boxes, the text and the two target radios. */
  datatype ReviewForm = ReviewForm(
    owner: Option<BasicUser>,
    feedback: Option<BasicUser>,
    restaurant: Option<Restaurant>,
    driver: Option<Driver>,
    rating: Option<int>,
    text: string,
    restaurantRadio: bool,
    driverRadio: bool)

  /** The radios share one toggle group, so at most one of them is selected. */
  predicate RadiosExclusive(f: ReviewForm) {
    !(f.restaurantRadio && f.driverRadio)
  }

  /** Every box holds one of the values it offers (or nothing). */
  predicate DrawsFrom(f: ReviewForm, users: seq<BasicUser>) {
    && (f.owner.Some? ==> f.owner.value in OwnerCandidates(users))
    && (f.feedback.Some? ==> f.feedback.value in FeedbackCandidates(users))
    && (f.rating.Some? ==> f.rating.value in RatingChoices())
  }

  /**
    Selecting the restaurant radio: the group deselects the driver radio and,
    when the selection changes, the listener empties the driver box.
   */
  function SelectRestaurantRadio(f: ReviewForm): (g: ReviewForm)
    ensures RadiosExclusive(g) && g.restaurantRadio
    ensures !f.restaurantRadio ==> g.driver.None?
    ensures f.restaurantRadio ==> g.driver == f.driver
    ensures g.restaurant == f.restaurant && g.owner == f.owner && g.rating == f.rating
    ensures g.feedback == f.feedback && g.text == f.text
  {
    f.(restaurantRadio := true, driverRadio := false, driver := if f.restaurantRadio then f.driver else None)
  }

  /**
    Selecting the driver radio: the group deselects the restaurant radio and,
    when the selection changes, the listener empties the restaurant box.
   */
  function SelectDriverRadio(f: ReviewForm): (g: ReviewForm)
    ensures RadiosExclusive(g) && g.driverRadio
    ensures !f.driverRadio ==> g.restaurant.None?
    ensures f.driverRadio ==> g.restaurant == f.restaurant
    ensures g.driver == f.driver && g.owner == f.owner && g.rating == f.rating
    ensures g.feedback == f.feedback && g.text == f.text
  {
    f.(driverRadio := true, restaurantRadio := false, restaurant := if f.driverRadio then f.restaurant else None)
  }

  // ---------------------------------------------------------------- validation

  datatype ReviewError = OwnerRequired | RatingRequired | TypeRequired | RestaurantRequired | DriverRequired

  /** The messages validate collects, in the order it collects them. */
  function Errors(f: ReviewForm): (e: seq<ReviewError>)
    ensures |e| <= 4
    ensures forall i, j :: 0 <= i < j < |e| ==> e[i] != e[j]
    ensures OwnerRequired in e <==> f.owner.None?
    ensures RatingRequired in e <==> f.rating.None?
    ensures TypeRequired in e <==> !f.restaurantRadio && !f.driverRadio
    ensures RestaurantRequired in e <==> f.restaurantRadio && f.restaurant.None?
    ensures DriverRequired in e <==> f.driverRadio && f.driver.None?
  {
    (if f.owner.None? then [OwnerRequired] else []) +
    (if f.rating.None? then [RatingRequired] else []) +
    (if !f.restaurantRadio && !f.driverRadio then [TypeRequired]
     else
       (if f.restaurantRadio && f.restaurant.None? then [RestaurantRequired] else []) +
       (if f.driverRadio && f.driver.None? then [DriverRequired] else []))
  }

  /**
    The form passes when it has an owner, a rating and a target type, and the
    box of every selected type holds a value.
   */
  function Validate(f: ReviewForm): (ok: bool)
    ensures ok <==> && f.owner.Some? && f.rating.Some?
                    && (f.restaurantRadio || f.driverRadio)
                    && (f.restaurantRadio ==> f.restaurant.Some?)
                    && (f.driverRadio ==> f.driver.Some?)
  {
    Errors(f) == []
  }

  // ---------------------------------------------------------------- submitting

  /** The restaurant passed on: the box's value, but only when its radio is selected. */
  function TargetRestaurant(f: ReviewForm): Option<Restaurant> {
    if f.restaurantRadio then f.restaurant else None
  }

  /** The driver passed on: the box's value, but only when its radio is selected. */
  function TargetDriver(f: ReviewForm): Option<Driver> {
    if f.driverRadio then f.driver else None
  }

  /** A form that validates, with its radios exclusive, names exactly one target. */
  lemma ValidFormHasOneTarget(f: ReviewForm)
    requires Validate(f) && RadiosExclusive(f)
    ensures TargetRestaurant(f).Some? != TargetDriver(f).Some?
    ensures TargetRestaurant(f).Some? <==> f.restaurantRadio
  {
  }

  /** The review fields a submitted form yields, with the given creation time and chat. */
  function Submitted(f: ReviewForm, createdAt: Timestamp, chat: Option<Chat>): (r: ReviewFields)
    requires f.rating.Some?
  {
    ReviewFields(f.owner, f.feedback, TargetRestaurant(f), TargetDriver(f), f.rating.value, f.text, createdAt, chat)
  }

  /**
    What the controller adds or updates keeps the review invariants: a form
    that validates, whose radios are exclusive and whose boxes hold offered
    values, yields a well-formed review.
   */
  lemma SubmittedIsWellFormed(f: ReviewForm, users: seq<BasicUser>, createdAt: Timestamp, chat: Option<Chat>)
    requires Validate(f) && RadiosExclusive(f) && DrawsFrom(f, users)
    ensures WellFormedReview(Submitted(f, createdAt, chat))
  {
    ValidFormHasOneTarget(f);
  }

  /**
    The add button: nothing happens when the form does not validate;
    otherwise the service creates the review from the form at time `now`.
   */
  method AddReview(svc: ReviewService, f: ReviewForm, now: Timestamp) returns (added: Option<Review>)
    requires svc.reviews.Valid()
    modifies svc.reviews
    ensures svc.reviews.Valid()
    ensures !Validate(f) ==> added.None?
    ensures !Validate(f) ==> svc.reviews.items == old(svc.reviews.items) && svc.reviews.nextId == old(svc.reviews.nextId)
    ensures Validate(f) ==> added == Some(Record(old(svc.reviews.nextId), Submitted(f, now, None)))
    ensures Validate(f) ==> svc.reviews.nextId == old(svc.reviews.nextId) + 1
    ensures Validate(f) ==> svc.reviews.items == old(svc.reviews.items) + [added.value]
  {
    if !Validate(f) {
      return None;
    }
    var r := svc.CreateReview(f.owner, f.feedback, TargetRestaurant(f), TargetDriver(f), f.rating.value, f.text, now);
    added := Some(r);
  }

  /**
    The update button: with no review selected, or a form that does not
    validate, nothing changes; otherwise the selected review takes the form's
    owner, feedback user, target, rating and text (its id, creation time and
    chat stay) and replaces the stored review with its id.
   */
  method UpdateReview(svc: ReviewService, selected: Option<Review>, f: ReviewForm) returns (updated: bool)
    requires svc.reviews.Valid()
    modifies svc.reviews
    ensures svc.reviews.Valid() && svc.reviews.nextId == old(svc.reviews.nextId)
    ensures selected.None? || !Validate(f) ==> !updated && svc.reviews.items == old(svc.reviews.items)
    ensures selected.Some? && Validate(f) ==>
      var s := selected.value;
      var u := Record(s.id, Submitted(f, s.data.createdAt, s.data.chat));
      && updated == HasId(old(svc.reviews.items), s.id)
      && svc.reviews.items == ReplaceFirst(old(svc.reviews.items), u)
  {
    if selected.None? || !Validate(f) {
      return false;
    }
    var s := selected.value;
    updated := svc.reviews.Update(Record(s.id, Submitted(f, s.data.createdAt, s.data.chat)));
  }

  /** Every stored review satisfies the record invariants. */
  predicate AllWellFormed(reviews: seq<Review>) {
    forall i :: 0 <= i < |reviews| ==> WellFormedReview(reviews[i].data)
  }

  /** Adding, updating and deleting through the controller keep every stored review well-formed. */
  lemma ReviewsStayWellFormed(reviews: seq<Review>, f: ReviewForm, users: seq<BasicUser>,
                              id: nat, createdAt: Timestamp, chat: Option<Chat>)
    requires AllWellFormed(reviews)
    requires Validate(f) && RadiosExclusive(f) && DrawsFrom(f, users)
    ensures AllWellFormed(reviews + [Record(id, Submitted(f, createdAt, chat))])
    ensures AllWellFormed(ReplaceFirst(reviews, Record(id, Submitted(f, createdAt, chat))))
    ensures AllWellFormed(RemoveAll(reviews, id))
  {
    SubmittedIsWellFormed(f, users, createdAt, chat);
    var s := reviews + [Record(id, Submitted(f, createdAt, chat))];
    assert forall i :: 0 <= i < |reviews| ==> s[i] == reviews[i];
    var r := RemoveAll(reviews, id);
    forall i | 0 <= i < |r| ensures WellFormedReview(r[i].data) {
      var k :| 0 <= k < |reviews| && reviews[k] == r[i];
    }
  }

  // ---------------------------------------------------------------- filling the form

  /**
    Selecting a review in the table fills the form: every box takes the
    review's value, then the restaurant radio is selected if it has a
    restaurant, else the driver radio if it has a driver, else neither.
   */
  function FillForm(f: ReviewForm, r: ReviewFields): (g: ReviewForm)
    ensures RadiosExclusive(g)
    ensures g.restaurantRadio <==> r.restaurant.Some?
    ensures g.driverRadio <==> r.restaurant.None? && r.driver.Some?
    ensures g.owner == r.commentOwner && g.feedback == r.feedbackUser
    ensures g.rating == Some(r.rating) && g.text == r.text
    ensures g.restaurant == r.restaurant
    ensures g.driver == (if r.restaurant.Some? && !f.restaurantRadio then None else r.driver)
  {
    var boxes := f.(owner := r.commentOwner, feedback := r.feedbackUser,
                    restaurant := r.restaurant, driver := r.driver,
                    rating := Some(r.rating), text := r.text);
    if r.restaurant.Some? then SelectRestaurantRadio(boxes)
    else if r.driver.Some? then SelectDriverRadio(boxes)
    else boxes.(restaurantRadio := false, driverRadio := false)
  }

  /**
    Filling the form from a review with an owner and one target and then
    submitting it unchanged gives back the same review: the form validates
    and the target, rating, text and users come back as they were.
   */
  lemma FillFormRoundTrip(f: ReviewForm, r: ReviewFields)
    requires r.commentOwner.Some? && OneTarget(r)
    ensures Validate(FillForm(f, r))
    ensures Submitted(FillForm(f, r), r.createdAt, r.chat) == r
  {
    var g := FillForm(f, r);
    if r.restaurant.Some? {
      assert g.restaurant == r.restaurant;
      assert !f.restaurantRadio || g.driver == r.driver;
    } else {
      assert g.driver == r.driver;
    }
  }
}
