/** The pricing rules shared by the booking page, the hotel card and the hotel
    details page: which price of a hotel is its nightly rate, and how many
    nights a pair of dates covers. */
module StayPricing {
  import opened Optional
  import opened Js

  /** Milliseconds in a day: 1000 * 60 * 60 * 24. */
  const DayMs: int := 86400000

  /** `Math.ceil(ms / DayMs)`: the least whole number of days covering `ms`
      milliseconds (for negative `ms`, the ceiling toward zero). */
  function CeilDays(ms: int): (days: int)
    ensures (days - 1) * DayMs < ms <= days * DayMs
  {
    -((-ms) / DayMs)
  }

  function Abs(x: int): nat {
    if x < 0 then -x else x
  }

  /** The booking page's night count: `Math.ceil(Math.abs(checkOut - checkIn) / DayMs)`. */
  function StayNights(checkIn: int, checkOut: int): (nights: nat)
    ensures nights == 0 <==> checkIn == checkOut
  {
    CeilDays(Abs(checkOut - checkIn))
  }

  /** Swapping the dates does not change the night count. */
  lemma StayNightsSymmetric(checkIn: int, checkOut: int)
    ensures StayNights(checkIn, checkOut) == StayNights(checkOut, checkIn)
  {
  }

  /** A stay of exactly n days, in either direction, is n nights. */
  lemma StayNightsOfWholeDays(checkIn: int, n: nat)
    ensures StayNights(checkIn, checkIn + n * DayMs) == n
    ensures StayNights(checkIn + n * DayMs, checkIn) == n
  {
    var r := StayNights(checkIn, checkIn + n * DayMs);
    assert (r - 1) * DayMs < n * DayMs <= r * DayMs;
    assert r - 1 < n <= r;
  }

  /** Any part of a day is charged as a whole night. */
  lemma PartialDayIsOneNight(checkIn: int, checkOut: int)
    requires 0 < Abs(checkOut - checkIn) <= DayMs
    ensures StayNights(checkIn, checkOut) == 1
  {
  }

  /** `Array.isArray(hotel.pricing) && hotel.pricing[0]`: the first pricing
      tier, when the hotel has a pricing list whose first entry is truthy. */
  function FirstTier(hotel: JsObject): (tier: Option<JsValue>)
    ensures tier.Some? ==> Truthy(tier.value)
  {
    var pricing := Get(hotel, "pricing");
    if pricing.Arr? && |pricing.items| > 0 && Truthy(pricing.items[0])
    then Some(pricing.items[0])
    else None
  }

  /** The price per night of a hotel: the first tier's discounted price when
      it is neither null nor undefined (so a discount of 0 counts), else that
      tier's original price; the flat `price` when there is no first tier. */
  function NightlyRate(hotel: JsObject): (rate: JsValue)
    ensures FirstTier(hotel).None? ==> rate == Get(hotel, "price")
    ensures FirstTier(hotel).Some? ==>
      var tier := FirstTier(hotel).value;
      rate == if Nullish(OptGet(tier, "discountedPrice"))
              then OptGet(tier, "originalPrice")
              else OptGet(tier, "discountedPrice")
  {
    match FirstTier(hotel)
    case Some(tier) => Coalesce(OptGet(tier, "discountedPrice"), OptGet(tier, "originalPrice"))
    case None => Get(hotel, "price")
  }

  /** A first tier discounted to 0 is charged 0 per night: `??` only skips
      null and undefined, unlike `||`. */
  lemma ZeroDiscountIsCharged(hotel: JsObject, tier: JsObject)
    requires Get(hotel, "pricing").Arr? && |Get(hotel, "pricing").items| > 0
    requires Get(hotel, "pricing").items[0] == Obj(tier)
    requires Get(tier, "discountedPrice") == Num(0.0)
    ensures NightlyRate(hotel) == Num(0.0)
  {
  }

  /** An empty pricing list, or one whose first entry is null, falls back to
      the flat price. */
  lemma NoUsableTierUsesFlatPrice(hotel: JsObject)
    requires Get(hotel, "pricing").Arr?
    requires |Get(hotel, "pricing").items| == 0 || Get(hotel, "pricing").items[0] == Null
    ensures NightlyRate(hotel) == Get(hotel, "price")
  {
  }
}
