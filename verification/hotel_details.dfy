/** The hotel details page: where "Book Now" leads, the per-night price text,
    the rating stars (the rules of the hotel card) and the loading of the
    recommended hotels into the hotel store. */
module HotelDetails {
  import opened Optional
  import opened Js
  import opened StayPricing
  import opened Display
  import opened HotelCard
  import opened HotelSlice

  const DetailsPlaceholder := "https://via.placeholder.com/800x400?text=No+Image"
  const RecommendedFailedMessage := "Failed to fetch recommended hotels"

  /** A navigation: the path, and for the login page the path to return to. */
  datatype Navigation = Navigation(path: string, from: Option<string>)

  function BookingPath(id: string): string {
    "/booking/" + id
  }

  /** `handleBookNow`: a signed-in user goes straight to the booking page of
      this hotel; anyone else goes to the login page, which remembers the
      booking page to return to. */
  function BookNow(user: JsValue, id: string): (nav: Navigation)
    ensures Truthy(user) ==> nav == Navigation(BookingPath(id), None)
    ensures !Truthy(user) ==> nav == Navigation("/login", Some(BookingPath(id)))
  {
    if Truthy(user) then Navigation(BookingPath(id), None)
    else Navigation("/login", Some(BookingPath(id)))
  }

  /** Either way the booking page of the same hotel is the destination, now
      or after signing in. */
  lemma BookNowReachesBooking(user: JsValue, id: string)
    ensures BookNow(user, id).path == BookingPath(id) || BookNow(user, id).from == Some(BookingPath(id))
    ensures BookNow(user, id).from.None? <==> Truthy(user)
  {
  }

  /** The per-night price text: "$" and the nightly rate as a string. */
  function PriceText(hotel: JsObject): (text: string)
    ensures |text| >= 1 && text[0] == '$'
    ensures text[1..] == ToJsString(NightlyRate(hotel))
  {
    "$" + ToJsString(NightlyRate(hotel))
  }

  /** A whole-number rate shows as "$" and its decimal digits; a hotel with
      neither tiers nor a price shows "$undefined". */
  lemma PriceTextExamples(hotel: JsObject, k: nat)
    ensures NightlyRate(hotel) == Num(k as real) ==> PriceText(hotel) == "$" + NatToDecimal(k)
    ensures FirstTier(hotel).None? && "price" !in hotel ==> PriceText(hotel) == "$undefined"
  {
  }

  /** The page's own copy of `getRatingValue`, as written: it throws on a
      `null` rating like the card's. */
  function PageRatingValue(rating: JsValue): (c: Completion)
    ensures c.Throw? <==> rating.Null?
    ensures IsNumber(rating) ==> c == Normal(rating)
  {
    if IsNumber(rating) then Normal(rating)
    else if rating.Null? then Throw(TypeError)
    else if IsObjectType(rating) && Truthy(OptGet(rating, "score")) then Normal(OptGet(rating, "score"))
    else if IsObjectType(rating) && Truthy(OptGet(rating, "value")) then Normal(OptGet(rating, "value"))
    else Normal(Num(0.0))
  }

  /** The page's own copy of `getMaxRating`, as written. */
  function PageMaxRating(rating: JsValue): (c: Completion)
    ensures c.Throw? <==> rating.Null?
    ensures IsNumber(rating) ==> c == Normal(Num(5.0))
  {
    if IsNumber(rating) then Normal(Num(5.0))
    else if rating.Null? then Throw(TypeError)
    else if IsObjectType(rating) && Truthy(OptGet(rating, "maxScore")) then Normal(OptGet(rating, "maxScore"))
    else if IsObjectType(rating) && Truthy(OptGet(rating, "max")) then Normal(OptGet(rating, "max"))
    else Normal(Num(5.0))
  }

  /** The page's copies return, or throw, exactly as the card's helpers do,
      for every rating. */
  lemma PageHelpersMatchCard(rating: JsValue)
    ensures PageRatingValue(rating) == RatingValueAsWritten(rating)
    ensures PageMaxRating(rating) == MaxRatingAsWritten(rating)
  {
  }

  /** The rating block of the page: the value and the star row, `None` where
      rendering throws (a `null` rating, or a maximum that is no valid array
      length). The row is the card's row, and its filled stars are the
      floored value clamped to the row. */
  function DetailsRating(hotel: JsObject): (shown: Option<(JsValue, seq<bool>)>)
    ensures shown.Some? <==> !Get(hotel, "rating").Null? && StarSlots(MaxRating(Get(hotel, "rating"))).Some?
    ensures shown.Some? ==> shown.value.0 == RatingValue(Get(hotel, "rating"))
    ensures shown.Some? ==> Stars(Get(hotel, "rating")) == Some(shown.value.1)
    ensures shown.Some? && FloorOf(shown.value.0).Some? ==>
      CountFilled(shown.value.1) == Clamp(FloorOf(shown.value.0).value, 0, |shown.value.1|)
  {
    var rating := Get(hotel, "rating");
    PageHelpersMatchCard(rating);
    RatingCorrectionAgrees(rating);
    match (PageRatingValue(rating), PageMaxRating(rating))
    case (Normal(value), Normal(max)) =>
      (match StarSlots(max)
       case Some(slots) =>
         FilledStars(slots, value);
         Some((value, StarRow(slots, value)))
       case None => None)
    case _ => None
  }

  /** The page's main image: main image, single image, or the large
      placeholder. */
  function DetailsImage(hotel: JsObject): (src: JsValue)
    ensures Truthy(src)
    ensures Truthy(OptGet(Get(hotel, "images"), "main")) ==> src == OptGet(Get(hotel, "images"), "main")
    ensures !Truthy(OptGet(Get(hotel, "images"), "main")) && Truthy(Get(hotel, "image")) ==>
      src == Get(hotel, "image")
    ensures !Truthy(OptGet(Get(hotel, "images"), "main")) && !Truthy(Get(hotel, "image")) ==>
      src == Str(DetailsPlaceholder)
  {
    ImageSourceAlwaysShown(Obj(hotel), DetailsPlaceholder);
    ImageSource(Obj(hotel), DetailsPlaceholder)
  }

  /** `fetchRecommended` over the hotel store: loading on, then the response
      stored (`response` is `None` when the request failed, which records the
      error instead), and loading off either way. */
  method FetchRecommended(store: HotelStore, response: Option<seq<JsValue>>)
    modifies store
    ensures !store.loading
    ensures response.Some? ==> store.recommendedHotels == response.value && store.error == old(store.error)
    ensures response.None? ==>
      store.recommendedHotels == old(store.recommendedHotels) && store.error == Some(RecommendedFailedMessage)
    ensures store.hotels == old(store.hotels) && store.bestOffers == old(store.bestOffers)
    ensures store.selectedHotel == old(store.selectedHotel) && store.bookings == old(store.bookings)
  {
    store.SetLoading(true);
    if response.Some? {
      store.SetRecommendedHotels(response.value);
      store.SetLoading(false);
    } else {
      store.SetError(Some(RecommendedFailedMessage));
      store.SetLoading(false);
    }
  }
}
