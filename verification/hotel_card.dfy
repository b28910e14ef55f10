/** The hotel card of the search results, and the rating rules the hotel
    details page repeats: the rating value and the maximum rating read from a
    number or a rating object, the row of filled and empty stars, the price
    line and the image. */
module HotelCard {
  import opened Optional
  import opened Js
  import opened StayPricing
  import opened Display

  const CardPlaceholder := "https://via.placeholder.com/120x80?text=No+Image"

  // ---- rating value and maximum -------------------------------------------

  /** `getRatingValue` as written. `typeof null` is 'object', so a `null`
      rating reaches `rating.score` and throws a TypeError. */
  function RatingValueAsWritten(rating: JsValue): (c: Completion)
    ensures c.Throw? <==> rating.Null?
  {
    if IsNumber(rating) then Normal(rating)
    else if rating.Null? then Throw(TypeError)
    else if IsObjectType(rating) && Truthy(OptGet(rating, "score")) then Normal(OptGet(rating, "score"))
    else if IsObjectType(rating) && Truthy(OptGet(rating, "value")) then Normal(OptGet(rating, "value"))
    else Normal(Num(0.0))
  }

  /** `getMaxRating` as written; it throws on a `null` rating too. */
  function MaxRatingAsWritten(rating: JsValue): (c: Completion)
    ensures c.Throw? <==> rating.Null?
  {
    if IsNumber(rating) then Normal(Num(5.0))
    else if rating.Null? then Throw(TypeError)
    else if IsObjectType(rating) && Truthy(OptGet(rating, "maxScore")) then Normal(OptGet(rating, "maxScore"))
    else if IsObjectType(rating) && Truthy(OptGet(rating, "max")) then Normal(OptGet(rating, "max"))
    else Normal(Num(5.0))
  }

  /** A hotel whose rating is `null` makes both helpers throw, so the card
      (and the details page) cannot be shown. */
  lemma NullRatingThrows()
    ensures RatingValueAsWritten(Null) == Throw(TypeError)
    ensures MaxRatingAsWritten(Null) == Throw(TypeError)
  {
  }

  /** The rating value with the evident intent kept for `null`: the default
      0. A number is itself; a rating object gives its truthy `score`, else
      its truthy `value`, else 0, so a score of 0 falls through to `value`. */
  function RatingValue(rating: JsValue): (v: JsValue)
    ensures IsNumber(rating) ==> v == rating
    ensures rating.Obj? && Truthy(Get(rating.fields, "score")) ==> v == Get(rating.fields, "score")
    ensures rating.Obj? && !Truthy(Get(rating.fields, "score")) && Truthy(Get(rating.fields, "value")) ==>
      v == Get(rating.fields, "value")
    ensures rating.Obj? && !Truthy(Get(rating.fields, "score")) && !Truthy(Get(rating.fields, "value")) ==>
      v == Num(0.0)
    ensures !IsNumber(rating) && !rating.Obj? ==> v == Num(0.0)
  {
    if IsNumber(rating) then rating
    else if Truthy(OptGet(rating, "score")) then OptGet(rating, "score")
    else if Truthy(OptGet(rating, "value")) then OptGet(rating, "value")
    else Num(0.0)
  }

  /** The maximum rating with `null` giving the default 5. A number rating
      has maximum 5; a rating object gives its truthy `maxScore`, else its
      truthy `max`, else 5. */
  function MaxRating(rating: JsValue): (m: JsValue)
    ensures IsNumber(rating) ==> m == Num(5.0)
    ensures rating.Obj? && Truthy(Get(rating.fields, "maxScore")) ==> m == Get(rating.fields, "maxScore")
    ensures rating.Obj? && !Truthy(Get(rating.fields, "maxScore")) && Truthy(Get(rating.fields, "max")) ==>
      m == Get(rating.fields, "max")
    ensures rating.Obj? && !Truthy(Get(rating.fields, "maxScore")) && !Truthy(Get(rating.fields, "max")) ==>
      m == Num(5.0)
    ensures !IsNumber(rating) && !rating.Obj? ==> m == Num(5.0)
  {
    if IsNumber(rating) then Num(5.0)
    else if Truthy(OptGet(rating, "maxScore")) then OptGet(rating, "maxScore")
    else if Truthy(OptGet(rating, "max")) then OptGet(rating, "max")
    else Num(5.0)
  }

  /** Wherever the written helpers return, the corrected ones return the
      same value; they differ only on `null`. */
  lemma RatingCorrectionAgrees(rating: JsValue)
    ensures !rating.Null? ==> RatingValueAsWritten(rating) == Normal(RatingValue(rating))
    ensures !rating.Null? ==> MaxRatingAsWritten(rating) == Normal(MaxRating(rating))
    ensures RatingValue(Null) == Num(0.0) && MaxRating(Null) == Num(5.0)
  {
  }

  // ---- stars ---------------------------------------------------------------

  /** `[...Array(n)]`: the number of star slots. A number must be a whole
      number below 2^32 (otherwise a RangeError, `None`); any other value
      makes a one-element array. */
  function StarSlots(n: JsValue): (slots: Option<nat>)
    ensures n.Num? && n.n == n.n.Floor as real && 0 <= n.n.Floor < 0x1_0000_0000 ==> slots == Some(n.n.Floor)
    ensures !IsNumber(n) ==> slots == Some(1)
    ensures n.NaN? ==> slots.None?
  {
    match n
    case Num(x) => if x == x.Floor as real && 0 <= x.Floor < 0x1_0000_0000 then Some(x.Floor) else None
    case NaN => None
    case _ => Some(1)
  }

  /** `Math.floor(Number(v))`, `None` for NaN. */
  function FloorOf(v: JsValue): Option<int> {
    match ToNumber(v)
    case Some(x) => Some(x.Floor)
    case None => None
  }

  /** The star row: star i is filled when `i < Math.floor(ratingValue)`
      (never, when that is NaN). */
  function StarRow(slots: nat, ratingValue: JsValue): (row: seq<bool>)
    ensures |row| == slots
    ensures forall i :: 0 <= i < slots ==> (row[i] <==> FloorOf(ratingValue).Some? && i < FloorOf(ratingValue).value)
  {
    seq(slots, i => FloorOf(ratingValue).Some? && i < FloorOf(ratingValue).value)
  }

  function CountFilled(row: seq<bool>): nat {
    if row == [] then 0 else CountFilled(row[..|row| - 1]) + (if row[|row| - 1] then 1 else 0)
  }

  function Clamp(x: int, lo: int, hi: int): int
    requires lo <= hi
  {
    if x < lo then lo else if x > hi then hi else x
  }

  /** The number of filled stars is the floored rating clamped to the
      slots: never negative, never more than the maximum. */
  lemma {:induction false} FilledStars(slots: nat, ratingValue: JsValue)
    ensures FloorOf(ratingValue).Some? ==>
      CountFilled(StarRow(slots, ratingValue)) == Clamp(FloorOf(ratingValue).value, 0, slots)
    ensures FloorOf(ratingValue).None? ==> CountFilled(StarRow(slots, ratingValue)) == 0
  {
    if slots > 0 {
      FilledStars(slots - 1, ratingValue);
      assert StarRow(slots, ratingValue)[..slots - 1] == StarRow(slots - 1, ratingValue);
    }
  }

  /** The stars the card shows for a rating, `None` where rendering throws:
      the written helpers throw on a `null` rating, and a maximum that is no
      valid array length makes `Array(n)` throw. Star i is filled when
      `i < Math.floor(ratingValue)`. */
  function Stars(rating: JsValue): (row: Option<seq<bool>>)
    ensures row.Some? <==> !rating.Null? && StarSlots(MaxRating(rating)).Some?
    ensures row.Some? ==> |row.value| == StarSlots(MaxRating(rating)).value
    ensures row.Some? && FloorOf(RatingValue(rating)).Some? ==>
      CountFilled(row.value) == Clamp(FloorOf(RatingValue(rating)).value, 0, |row.value|)
    ensures row.Some? && FloorOf(RatingValue(rating)).None? ==> CountFilled(row.value) == 0
  {
    RatingCorrectionAgrees(rating);
    match (RatingValueAsWritten(rating), MaxRatingAsWritten(rating))
    case (Normal(value), Normal(max)) =>
      (match StarSlots(max)
       case Some(slots) =>
         FilledStars(slots, value);
         Some(StarRow(slots, value))
       case None => None)
    case _ => None
  }

  /** The stars with the corrected helpers: the card's row wherever the
      written helpers return, and five empty stars for a `null` rating. */
  function StarsIntended(rating: JsValue): (row: Option<seq<bool>>)
    ensures !rating.Null? ==> row == Stars(rating)
    ensures rating.Null? ==> row == Some(seq(5, i => false))
  {
    RatingCorrectionAgrees(rating);
    assert StarSlots(Num(5.0)) == Some(5);
    assert StarRow(5, Num(0.0)) == seq(5, i => false);
    match StarSlots(MaxRating(rating))
    case Some(slots) => Some(StarRow(slots, RatingValue(rating)))
    case None => None
  }

  /** A plain number rating shows five stars, of which its floor, clamped to
      0..5, are filled. */
  lemma NumberRatingStars(r: real)
    ensures Stars(Num(r)).Some? && |Stars(Num(r)).value| == 5
    ensures CountFilled(Stars(Num(r)).value) == Clamp(r.Floor, 0, 5)
  {
    FilledStars(5, Num(r));
  }

  /** A score held in a one-element array converts to its number, so
      `{score: [n]}` fills n of the five stars. */
  lemma ArrayScoreStars(n: nat)
    requires n <= 5
    ensures Stars(Obj(map["score" := Arr([Num(n as real)])])).Some?
    ensures CountFilled(Stars(Obj(map["score" := Arr([Num(n as real)])])).value) == n
  {
    var rating := Obj(map["score" := Arr([Num(n as real)])]);
    ArrayToNumber(n);
    assert MaxRating(rating) == Num(5.0);
    assert StarSlots(Num(5.0)) == Some(5);
    assert FloorOf(RatingValue(rating)) == Some(n);
  }

  // ---- price and image -----------------------------------------------------

  /** The card's price line: a tier's amount, currency and unit, or the flat
      price. */
  datatype PriceLine = TierPrice(amount: JsValue, currency: JsValue, unit: JsValue) | FlatPrice(price: JsValue)

  function PriceDisplay(hotel: JsObject): (line: PriceLine)
    ensures line.TierPrice? <==> FirstTier(hotel).Some?
    ensures line.TierPrice? ==>
      line.currency == OptGet(FirstTier(hotel).value, "currency") &&
      line.unit == OptGet(FirstTier(hotel).value, "priceUnit")
  {
    match FirstTier(hotel)
    case Some(tier) =>
      TierPrice(Coalesce(OptGet(tier, "discountedPrice"), OptGet(tier, "originalPrice")),
                OptGet(tier, "currency"), OptGet(tier, "priceUnit"))
    case None => FlatPrice(Get(hotel, "price"))
  }

  /** The amount on the card is the nightly rate the booking page charges. */
  lemma CardPriceIsNightlyRate(hotel: JsObject)
    ensures PriceDisplay(hotel).TierPrice? ==> PriceDisplay(hotel).amount == NightlyRate(hotel)
    ensures PriceDisplay(hotel).FlatPrice? ==> PriceDisplay(hotel).price == NightlyRate(hotel)
  {
  }

  /** The card's image: the main image, else the single image, else the
      card placeholder. */
  function CardImage(hotel: JsObject): (src: JsValue)
    ensures Truthy(src)
    ensures Truthy(OptGet(Get(hotel, "images"), "main")) ==> src == OptGet(Get(hotel, "images"), "main")
    ensures !Truthy(OptGet(Get(hotel, "images"), "main")) && Truthy(Get(hotel, "image")) ==>
      src == Get(hotel, "image")
    ensures !Truthy(OptGet(Get(hotel, "images"), "main")) && !Truthy(Get(hotel, "image")) ==>
      src == Str(CardPlaceholder)
  {
    ImageSourceAlwaysShown(Obj(hotel), CardPlaceholder);
    ImageSource(Obj(hotel), CardPlaceholder)
  }
}
