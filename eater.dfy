/** The eater portal: an eater signs in under a generated id and writes reviews, either of a
    truck already listed or of a truck they describe, which is added to the shared custom-truck
    list unless a truck of the same name and city (ignoring case) is already there. The browser's
    storage is modelled by fields: the review list, the custom-truck list and the stored eater
    id and name. */
module EaterPage {
  import opened Common

  datatype Review = Review(
    id: int,
    truckId: int,
    truckName: string,
    eaterId: string,
    eaterName: string,
    rating: int,
    comment: string,
    createdAt: string)

  /** The truck an eater describes in the review form. */
  datatype TruckDetails = TruckDetails(
    name: string, cuisine: string, city: string, lat: Degrees, lng: Degrees, icon: string, description: string)

  /** The review form: the chosen listed truck (0 for none), the described truck, and the review. */
  datatype ReviewForm = ReviewForm(existingTruckId: int, truck: TruckDetails, rating: int, comment: string)

  /** The id prefix of a freshly signed-in eater. */
  const EaterPrefix := "eater_"

  // ---------------------------------------------------------------------------
  // loadEaterData

  /** The reviews written by `eaterId`, in stored order. */
  function MyReviews(reviews: seq<Review>, eaterId: string): (r: seq<Review>)
    ensures forall x :: x in r <==> x in reviews && x.eaterId == eaterId
  {
    Filter(reviews, (x: Review) => x.eaterId == eaterId)
  }

  /** A review appended to storage is appended to its author's list, and to no one else's. */
  lemma MyReviewsAppend(reviews: seq<Review>, x: Review, eaterId: string)
    ensures MyReviews(reviews + [x], eaterId) ==
              MyReviews(reviews, eaterId) + (if x.eaterId == eaterId then [x] else [])
  {
    FilterAppend(reviews, [x], (x: Review) => x.eaterId == eaterId);
    assert [x][1..] == [];
  }

  /** Every stored review of `eaterId` shows up in their list as often as it is stored. */
  lemma MyReviewsCounts(reviews: seq<Review>, eaterId: string, x: Review)
    ensures multiset(MyReviews(reviews, eaterId))[x] == if x.eaterId == eaterId then multiset(reviews)[x] else 0
  {
    FilterCounts(reviews, (x: Review) => x.eaterId == eaterId, x);
  }

  // ---------------------------------------------------------------------------
  // upsertTruck

  /** A stored truck has the given name and city, ignoring case. */
  predicate SameNameCity(t: Truck, name: string, city: string) {
    Lower(t.name) == Lower(name) && Lower(t.city) == Lower(city)
  }

  /** Position k holds a truck with the given name and city, and no earlier position does. */
  predicate IsFirstMatch(custom: seq<Truck>, name: string, city: string, k: int) {
    0 <= k < |custom| && SameNameCity(custom[k], name, city) &&
    forall j :: 0 <= j < k ==> !SameNameCity(custom[j], name, city)
  }

  /** The first custom truck with the given name and city, ignoring case. */
  function FirstMatch(custom: seq<Truck>, name: string, city: string): (r: Option<Truck>)
    ensures r.None? <==> forall t :: t in custom ==> !SameNameCity(t, name, city)
    ensures r.Some? ==> r.value in custom && SameNameCity(r.value, name, city)
    ensures r.Some? ==> exists k :: IsFirstMatch(custom, name, city, k) && custom[k] == r.value
    decreases |custom|
  {
    if custom == [] then None
    else if SameNameCity(custom[0], name, city) then
      assert IsFirstMatch(custom, name, city, 0);
      Some(custom[0])
    else
      assert forall t :: t in custom ==> t == custom[0] || t in custom[1..];
      var r := FirstMatch(custom[1..], name, city);
      if r.Some? then
        var k :| IsFirstMatch(custom[1..], name, city, k) && custom[1..][k] == r.value;
        assert IsFirstMatch(custom, name, city, k + 1);
        r
      else r
  }

  /** The truck an eater adds. */
  function EaterTruck(d: TruckDetails, id: int, eaterId: string, createdAt: string): Truck {
    Truck(id, d.name, d.cuisine, d.city, d.lat, d.lng, d.icon, d.description,
          None, None, Some(eaterId), Some(createdAt))
  }

  /** The custom-truck list and the truck id after an upsert: the first custom truck of the same
      name and city is reused as it is; otherwise a new truck under `freshId` is appended. The catalog is
      never consulted. */
  function Upsert(custom: seq<Truck>, d: TruckDetails, eaterId: string, freshId: int, createdAt: string): (r: (seq<Truck>, int))
    ensures (exists t :: t in custom && SameNameCity(t, d.name, d.city)) ==>
              r.0 == custom && exists k :: IsFirstMatch(custom, d.name, d.city, k) && custom[k].id == r.1
    ensures (forall t :: t in custom ==> !SameNameCity(t, d.name, d.city)) ==>
              r.0 == custom + [EaterTruck(d, freshId, eaterId, createdAt)] && r.1 == freshId
  {
    match FirstMatch(custom, d.name, d.city)
    case Some(t) => (custom, t.id)
    case None => (custom + [EaterTruck(d, freshId, eaterId, createdAt)], freshId)
  }

  /** Upserting a second time with the same name and city, in any case, adds nothing and returns
      the same id, whatever the other details, eater, fresh id and time. */
  lemma {:induction false} UpsertIdempotent(custom: seq<Truck>, d: TruckDetails, d': TruckDetails,
                                            eaterId: string, eaterId': string, id: int, id': int, at: string, at': string)
    requires Lower(d'.name) == Lower(d.name) && Lower(d'.city) == Lower(d.city)
    ensures var first := Upsert(custom, d, eaterId, id, at);
            Upsert(first.0, d', eaterId', id', at') == first
  {
    var first := Upsert(custom, d, eaterId, id, at);
    assert forall t :: SameNameCity(t, d'.name, d'.city) <==> SameNameCity(t, d.name, d.city);
    assert FirstMatch(custom, d'.name, d'.city) == FirstMatch(custom, d.name, d.city) by {
      FirstMatchSameKey(custom, d.name, d.city, d'.name, d'.city);
    }
    match FirstMatch(custom, d.name, d.city)
    case Some(t) =>
    case None =>
      var added := EaterTruck(d, id, eaterId, at);
      assert first.0 == custom + [added];
      FirstMatchAppend(custom, added, d'.name, d'.city);
  }

  /** Lookups under keys that agree ignoring case agree. */
  lemma {:induction false} FirstMatchSameKey(custom: seq<Truck>, name: string, city: string, name': string, city': string)
    requires Lower(name') == Lower(name) && Lower(city') == Lower(city)
    ensures FirstMatch(custom, name', city') == FirstMatch(custom, name, city)
    decreases |custom|
  {
    if custom != [] {
      FirstMatchSameKey(custom[1..], name, city, name', city');
    }
  }

  /** When no stored truck matches, a matching truck appended last is the one found. */
  lemma {:induction false} FirstMatchAppend(custom: seq<Truck>, t: Truck, name: string, city: string)
    requires forall x :: x in custom ==> !SameNameCity(x, name, city)
    requires SameNameCity(t, name, city)
    ensures FirstMatch(custom + [t], name, city) == Some(t)
    decreases |custom|
  {
    if custom == [] {
      assert custom + [t] == [t];
    } else {
      assert (custom + [t])[0] == custom[0];
      assert (custom + [t])[1..] == custom[1..] + [t];
      FirstMatchAppend(custom[1..], t, name, city);
    }
  }

  // ---------------------------------------------------------------------------
  // handleDeleteReview

  function RemoveReview(reviews: seq<Review>, reviewId: int): (r: seq<Review>)
    ensures forall x :: x in r <==> x in reviews && x.id != reviewId
  {
    Filter(reviews, (x: Review) => x.id != reviewId)
  }

  /** Deleting keeps every other review, as often as it occurred. */
  lemma RemoveKeepsOthers(reviews: seq<Review>, reviewId: int, x: Review)
    ensures multiset(RemoveReview(reviews, reviewId))[x] == if x.id == reviewId then 0 else multiset(reviews)[x]
  {
    FilterCounts(reviews, (x: Review) => x.id != reviewId, x);
  }

  /** Deleting a review just added, under an id no other review carries, gives back the list. */
  lemma RemoveUndoesAppend(reviews: seq<Review>, x: Review)
    requires forall y :: y in reviews ==> y.id != x.id
    ensures RemoveReview(reviews + [x], x.id) == reviews
  {
    var p := (y: Review) => y.id != x.id;
    FilterAppend(reviews, [x], p);
    FilterKeepsAll(reviews, p);
    assert [x][1..] == [];
  }

  // ---------------------------------------------------------------------------
  // The portal

  class Portal {
    /** The built-in truck catalog. */
    const catalog: seq<Truck>
    /** Stored data. */
    var reviews: seq<Review>
    var customTrucks: seq<Truck>
    var storedEaterId: Option<string>
    var storedEaterName: Option<string>
    /** Page state. */
    var authenticated: bool
    var eaterName: string
    var myReviews: seq<Review>
    var availableTrucks: seq<Truck>

    /** Mounting the page over the stored data: signed in, with data loaded, when both the id
        and the name are stored. */
    constructor (catalog: seq<Truck>, reviews: seq<Review>, customTrucks: seq<Truck>,
                 storedEaterId: Option<string>, storedEaterName: Option<string>)
      ensures this.catalog == catalog && this.reviews == reviews && this.customTrucks == customTrucks
      ensures this.storedEaterId == storedEaterId && this.storedEaterName == storedEaterName
      ensures authenticated <==> Present(storedEaterId) && Present(storedEaterName)
      ensures authenticated ==>
                && eaterName == storedEaterName.value
                && myReviews == MyReviews(reviews, storedEaterId.value)
                && availableTrucks == catalog + customTrucks
      ensures !authenticated ==> eaterName == "" && myReviews == [] && availableTrucks == []
    {
      this.catalog := catalog;
      this.reviews, this.customTrucks := reviews, customTrucks;
      this.storedEaterId, this.storedEaterName := storedEaterId, storedEaterName;
      if Present(storedEaterId) && Present(storedEaterName) {
        authenticated, eaterName := true, storedEaterName.value;
        myReviews, availableTrucks := MyReviews(reviews, storedEaterId.value), catalog + customTrucks;
      } else {
        authenticated, eaterName, myReviews, availableTrucks := false, "", [], [];
      }
    }

    /** The eater's reviews and the trucks a review may name: the catalog, then the custom trucks. */
    method LoadEaterData(eaterId: string)
      modifies this`myReviews, this`availableTrucks
      ensures myReviews == MyReviews(reviews, eaterId)
      ensures availableTrucks == catalog + customTrucks
    {
      myReviews := MyReviews(reviews, eaterId);
      availableTrucks := catalog + customTrucks;
    }

    /** Sign-in: a blank name changes nothing; otherwise the id is "eater_" followed by the clock. */
    method Login(name: string, now: nat)
      modifies this
      ensures IsBlank(name) ==> unchanged(this)
      ensures !IsBlank(name) ==>
                && storedEaterId == Some(EaterPrefix + NatToString(now)) && storedEaterName == Some(name)
                && authenticated && eaterName == name
                && myReviews == MyReviews(reviews, storedEaterId.value)
                && availableTrucks == catalog + customTrucks
      ensures reviews == old(reviews) && customTrucks == old(customTrucks)
    {
      if IsBlank(name) {
        return;
      }
      var id := EaterPrefix + NatToString(now);
      storedEaterId, storedEaterName := Some(id), Some(name);
      eaterName, authenticated := name, true;
      LoadEaterData(id);
    }

    method Logout()
      modifies this`storedEaterId, this`storedEaterName, this`authenticated, this`eaterName, this`myReviews
      ensures storedEaterId.None? && storedEaterName.None?
      ensures !authenticated && eaterName == "" && myReviews == []
    {
      storedEaterId, storedEaterName := None, None;
      authenticated, eaterName, myReviews := false, "", [];
    }

    /** Store a review by the stored eater. For a described truck the truck is upserted and the
        review names it as typed; for a listed truck the review names the listed truck with that
        id, or nothing when none is listed. Without an eater id, or with no listed truck chosen
        (id 0), nothing is written. */
    method AddReview(isNewTruck: bool, form: ReviewForm, freshTruckId: int, freshReviewId: int, createdAt: string)
      modifies this`reviews, this`customTrucks, this`myReviews, this`availableTrucks
      ensures !Present(storedEaterId) || (!isNewTruck && form.existingTruckId == 0) ==>
                reviews == old(reviews) && customTrucks == old(customTrucks) &&
                myReviews == old(myReviews) && availableTrucks == old(availableTrucks)
      ensures Present(storedEaterId) && isNewTruck ==>
                var up := Upsert(old(customTrucks), form.truck, storedEaterId.value, freshTruckId, createdAt);
                && customTrucks == up.0
                && reviews == old(reviews) + [Review(freshReviewId, up.1, form.truck.name, storedEaterId.value,
                                                      eaterName, form.rating, form.comment, createdAt)]
      ensures Present(storedEaterId) && !isNewTruck && form.existingTruckId != 0 ==>
                var listed := Find(old(availableTrucks), (t: Truck) => t.id == form.existingTruckId);
                && customTrucks == old(customTrucks)
                && reviews == old(reviews) + [Review(freshReviewId, form.existingTruckId,
                                                      if listed.Some? then listed.value.name else "",
                                                      storedEaterId.value, eaterName, form.rating, form.comment, createdAt)]
      ensures Present(storedEaterId) && (isNewTruck || form.existingTruckId != 0) ==>
                && myReviews == MyReviews(reviews, storedEaterId.value)
                && myReviews[|myReviews| - 1] == reviews[|reviews| - 1]
                && availableTrucks == catalog + customTrucks
    {
      if !Present(storedEaterId) {
        return;
      }
      var eaterId := storedEaterId.value;
      var truckId: int;
      var truckName: string;
      if isNewTruck {
        var up := Upsert(customTrucks, form.truck, eaterId, freshTruckId, createdAt);
        customTrucks, truckId := up.0, up.1;
        truckName := form.truck.name;
      } else {
        if form.existingTruckId == 0 {
          return;
        }
        truckId := form.existingTruckId;
        var listed := Find(availableTrucks, (t: Truck) => t.id == truckId);
        truckName := if listed.Some? then listed.value.name else "";
      }
      var review := Review(freshReviewId, truckId, truckName, eaterId, eaterName, form.rating, form.comment, createdAt);
      StoreReview(review);
    }

    /** Append a review to storage and reload its author's lists: the review shows last in them. */
    method StoreReview(review: Review)
      modifies this`reviews, this`myReviews, this`availableTrucks
      ensures reviews == old(reviews) + [review]
      ensures myReviews == MyReviews(reviews, review.eaterId) && myReviews != []
      ensures myReviews[|myReviews| - 1] == review
      ensures availableTrucks == catalog + customTrucks
    {
      MyReviewsAppend(reviews, review, review.eaterId);
      reviews := reviews + [review];
      LoadEaterData(review.eaterId);
    }

    /** Delete review `reviewId` once the eater confirms; the lists are reloaded when an eater
        id is stored. */
    method DeleteReview(reviewId: int, confirmed: bool)
      modifies this`reviews, this`myReviews, this`availableTrucks
      ensures !confirmed ==> reviews == old(reviews) && myReviews == old(myReviews) && availableTrucks == old(availableTrucks)
      ensures confirmed ==> reviews == RemoveReview(old(reviews), reviewId)
      ensures confirmed && Present(storedEaterId) ==>
                myReviews == MyReviews(reviews, storedEaterId.value) && availableTrucks == catalog + customTrucks
      ensures confirmed && !Present(storedEaterId) ==> myReviews == old(myReviews) && availableTrucks == old(availableTrucks)
    {
      if !confirmed {
        return;
      }
      reviews := RemoveReview(reviews, reviewId);
      if Present(storedEaterId) {
        LoadEaterData(storedEaterId.value);
      }
    }
  }
}
