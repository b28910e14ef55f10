/** The booking form embedded on a hotel's page: it prices the stay from the
    hotel's flat price, builds a confirmed booking and adds it to the booking
    store, reporting "Booking failed" when the hotel cannot be fetched or no
    user is signed in. */
module BookingForm {
  import opened Optional
  import opened Js
  import opened Forms
  import opened Seqs
  import opened StayPricing
  import opened SearchForm
  import opened BookingSlice

  const BookingFailedMessage := "Booking failed"

  /** The form's night count, `Math.ceil((checkOut - checkIn) / DayMs)`:
      unlike the booking page, no absolute value is taken. */
  function FormNights(checkIn: int, checkOut: int): (nights: int)
    ensures (nights - 1) * DayMs < checkOut - checkIn <= nights * DayMs
  {
    CeilDays(checkOut - checkIn)
  }

  /** Forward dates give the booking page's count; reversed or equal dates
      give no positive count at all. */
  lemma FormNightsAgainstStayNights(checkIn: int, checkOut: int)
    ensures checkOut >= checkIn ==> FormNights(checkIn, checkOut) == StayNights(checkIn, checkOut)
    ensures checkOut <= checkIn ==> FormNights(checkIn, checkOut) <= 0
  {
  }

  /** Dates the check-out rule accepts, with check-in picked, give at least
      one night. */
  lemma AcceptedDatesGiveFormNights(checkIn: DateInput, checkOut: DateInput)
    requires Filled(checkIn) && CheckOut(checkIn, checkOut).Accepted?
    ensures FormNights(checkIn.ms, checkOut.ms) >= 1
  {
    FormNightsAgainstStayNights(checkIn.ms, checkOut.ms);
    AcceptedDatesGiveANight(checkIn, checkOut);
  }

  /** `nights * hotel.price`: the flat price only, tiers are ignored. */
  function FormTotal(hotel: JsObject, nights: int): (total: JsValue)
    ensures Get(hotel, "price").Num? ==> total == Num(Get(hotel, "price").n * nights as real)
    ensures total.Num? <==> ToNumber(Get(hotel, "price")).Some?
  {
    Multiply(Get(hotel, "price"), nights)
  }

  /** `[]` converts to 0, so a hotel whose price is an empty array costs 0
      for any stay. */
  lemma EmptyArrayPriceIsFree(nights: int)
    ensures FormTotal(map["price" := Arr([])], nights) == Num(0.0)
  {
    ArrayToNumber(0);
  }

  /** A hotel priced only through tiers costs NaN on this form, while the
      booking page charges the tier's rate. */
  lemma TierOnlyHotelIsNaN(hotel: JsObject, nights: int, rate: real)
    requires "price" !in hotel
    requires NightlyRate(hotel) == Num(rate)
    ensures FormTotal(hotel, nights) == NaN
    ensures Multiply(NightlyRate(hotel), nights) == Num(rate * nights as real)
  {
  }

  /** The leading decimal digits of s. */
  function LeadingDigits(s: string): (d: string)
    ensures AllDigits(d) && d <= s
    ensures |d| < |s| ==> !IsDigit(s[|d|])
  {
    if s == [] || !IsDigit(s[0]) then "" else [s[0]] + LeadingDigits(s[1..])
  }

  /** `parseInt(s)`: the number its leading digits spell, NaN without any. */
  function ParseInt(s: string): (v: JsValue)
    ensures v.Num? <==> |s| > 0 && IsDigit(s[0])
    ensures v.Num? ==> v == Num(ParseNat(LeadingDigits(s)) as real)
    ensures AllDigits(s) && s != "" ==> v == Num(ParseNat(s) as real)
  {
    var digits := LeadingDigits(s);
    if digits == "" then NaN
    else
      assert AllDigits(s) ==> digits == s;
      Num(ParseNat(digits) as real)
  }

  /** The booking form's field values. */
  datatype BookingFormData = BookingFormData(
    checkIn: DateInput, checkOut: DateInput, guests: string, roomType: string, specialRequests: string)

  /** The form's rules, check-in (as written), check-out, guests and room
      type: both days picked, the check-in midnight not before now, the
      check-out later, an admissible guest count and a room type chosen. */
  predicate FormAccepted(data: BookingFormData, now: int): (ok: bool)
    ensures ok <==>
      Filled(data.checkIn) && data.checkIn.ms >= now &&
      Filled(data.checkOut) && data.checkOut.ms > data.checkIn.ms &&
      Guests(data.guests).Accepted? && data.roomType != ""
  {
    CheckInAsWritten(data.checkIn, now).Accepted? &&
    CheckOut(data.checkIn, data.checkOut).Accepted? &&
    Guests(data.guests).Accepted? &&
    Required(data.roomType, "Room type is required").Accepted?
  }

  /** The booking the form builds. */
  function NewBooking(hotelId: JsValue, hotel: JsObject, user: JsValue, data: BookingFormData,
                      id: string, createdAt: string): (r: JsObject)
    requires Filled(data.checkIn) && Filled(data.checkOut)
    ensures Get(r, "status") == Str("confirmed")
    ensures Get(r, "specialRequests") == Str(data.specialRequests)
    ensures Get(r, "userName") ==
      Str(ToJsString(OptGet(user, "firstName")) + " " + ToJsString(OptGet(user, "lastName")))
    ensures Get(r, "guests") == ParseInt(data.guests)
    ensures Get(r, "totalPrice") == FormTotal(hotel, FormNights(data.checkIn.ms, data.checkOut.ms))
  {
    var nights := FormNights(data.checkIn.ms, data.checkOut.ms);
    var details := map[
      "id" := Str(id),
      "hotelId" := hotelId,
      "hotel" := Obj(hotel),
      "userId" := OptGet(user, "id"),
      "checkIn" := Str(data.checkIn.text),
      "checkOut" := Str(data.checkOut.text),
      "roomType" := Str(data.roomType),
      "createdAt" := Str(createdAt)];
    details["userName" := Str(ToJsString(OptGet(user, "firstName")) + " " + ToJsString(OptGet(user, "lastName")))]
           ["guests" := ParseInt(data.guests)]
           ["specialRequests" := Or(Str(data.specialRequests), Str(""))]
           ["totalPrice" := FormTotal(hotel, nights)]
           ["status" := Str("confirmed")]
  }

  /** A booking from an accepted form at a flat price p costs p for each of
      at least one night. */
  lemma AcceptedFormTotal(hotelId: JsValue, hotel: JsObject, user: JsValue, data: BookingFormData,
                          now: int, id: string, createdAt: string, p: real)
    requires FormAccepted(data, now) && Get(hotel, "price") == Num(p)
    ensures var nights := FormNights(data.checkIn.ms, data.checkOut.ms);
      nights >= 1 &&
      Get(NewBooking(hotelId, hotel, user, data, id, createdAt), "totalPrice") == Num(p * nights as real)
  {
    AcceptedDatesGiveFormNights(data.checkIn, data.checkOut);
  }

  /** A signed-in user whose names are strings is shown as "first last". */
  lemma UserNameJoinsNames(user: JsObject, first: string, last: string)
    requires Get(user, "firstName") == Str(first) && Get(user, "lastName") == Str(last)
    ensures forall hotelId, hotel, data: BookingFormData, id, createdAt
      | Filled(data.checkIn) && Filled(data.checkOut) ::
      Get(NewBooking(hotelId, hotel, Obj(user), data, id, createdAt), "userName") == Str(first + " " + last)
  {
  }

  /** `onSubmit` over the booking store, called once the form's rules
      pass (so both dates are picked): loading on and the error cleared
      first; the booking added when the hotel was fetched (`hotel` is the
      response, `None` when the request failed) and a user is signed in, the
      error "Booking failed" otherwise; loading off in every case. The
      store's histories record that order of the `setLoading` and
      `setError` dispatches. The added booking is returned, as `onSuccess`
      receives it. */
  method Submit(store: BookingStore, hotelId: JsValue, hotel: Option<JsObject>, user: JsValue,
                data: BookingFormData, id: string, createdAt: string)
      returns (added: Option<JsObject>)
    requires Filled(data.checkIn) && Filled(data.checkOut)
    modifies store, store.storage`bookings
    ensures !store.loading
    ensures store.loadingHistory == old(store.loadingHistory) + [true, false]
    ensures store.currentBooking == old(store.currentBooking)
    ensures hotel.Some? && !Nullish(user) ==>
      added == Some(NewBooking(hotelId, hotel.value, user, data, id, createdAt)) &&
      store.bookings == old(store.bookings) + [added.value] &&
      store.storage.bookings == old(store.storage.bookings) + [added.value] &&
      store.error == None && store.errorHistory == old(store.errorHistory) + [None]
    ensures !(hotel.Some? && !Nullish(user)) ==>
      added == None &&
      store.bookings == old(store.bookings) &&
      store.storage.bookings == old(store.storage.bookings) &&
      store.error == Some(BookingFailedMessage) &&
      store.errorHistory == old(store.errorHistory) + [None, Some(BookingFailedMessage)]
  {
    store.SetLoading(true);
    store.SetError(None);
    if hotel.Some? && !Nullish(user) {
      var newBooking := NewBooking(hotelId, hotel.value, user, data, id, createdAt);
      store.AddBooking(newBooking);
      added := Some(newBooking);
    } else {
      store.SetError(Some(BookingFailedMessage));
      added := None;
    }
    store.SetLoading(false);
  }
}
