/** The booking page: it loads the hotel, keeps the night count and the total
    price in step with the picked dates, validates the guest and payment form,
    and on submit appends a confirmed booking to the stored list. */
module BookingDetails {
  import opened Optional
  import opened Js
  import opened Forms
  import opened Storage
  import opened StayPricing
  import opened Payment

  /** The values of the booking form's fields. */
  datatype GuestForm = GuestForm(
    firstName: string, lastName: string, email: string, phone: string, country: string,
    cardNumber: string, expiryDate: string, cvv: string, cardType: string,
    checkIn: string, checkOut: string)

  /** The guest's contact fields and their rules. */
  function ContactChecks(form: GuestForm): (checks: seq<(string, Validation)>)
    ensures AllAccepted(checks) <==>
      form.firstName != "" && form.lastName != "" && form.country != "" &&
      ValidateEmail(form.email).Accepted? && ValidatePhone(form.phone).Accepted?
  {
    var checks := [
      ("firstName", Required(form.firstName, "First name is required")),
      ("lastName", Required(form.lastName, "Last name is required")),
      ("email", ValidateEmail(form.email)),
      ("phone", ValidatePhone(form.phone)),
      ("country", Required(form.country, "Country is required"))];
    assert AllAccepted(checks) <== checks[0].1.Accepted? && checks[1].1.Accepted? &&
      checks[2].1.Accepted? && checks[3].1.Accepted? && checks[4].1.Accepted? by {
      if checks[0].1.Accepted? && checks[1].1.Accepted? && checks[2].1.Accepted? &&
         checks[3].1.Accepted? && checks[4].1.Accepted? {
        forall i | 0 <= i < |checks|
          ensures checks[i].1.Accepted?
        {
          assert i <= 4;
        }
      }
    }
    checks
  }

  /** The payment fields and their rules. */
  function PaymentChecks(form: GuestForm, now: Clock): (checks: seq<(string, Validation)>)
    ensures AllAccepted(checks) <==>
      form.cardNumber != "" && ValidateCardNumber(form.cardNumber).Accepted? &&
      form.expiryDate != "" && ValidateExpiryDate(form.expiryDate, now).Accepted? &&
      form.cvv != "" && ValidateCvv(form.cvv).Accepted? && form.cardType != ""
  {
    var checks := [
      ("cardNumber", RequiredThen(form.cardNumber, "Card number is required", ValidateCardNumber(form.cardNumber))),
      ("expiryDate", RequiredThen(form.expiryDate, "Expiry date is required", ValidateExpiryDate(form.expiryDate, now))),
      ("cvv", RequiredThen(form.cvv, "CVV is required", ValidateCvv(form.cvv))),
      ("cardType", Required(form.cardType, "Card type is required"))];
    assert AllAccepted(checks) <== checks[0].1.Accepted? && checks[1].1.Accepted? &&
      checks[2].1.Accepted? && checks[3].1.Accepted? by {
      if checks[0].1.Accepted? && checks[1].1.Accepted? && checks[2].1.Accepted? && checks[3].1.Accepted? {
        forall i | 0 <= i < |checks|
          ensures checks[i].1.Accepted?
        {
          assert i <= 3;
        }
      }
    }
    checks
  }

  /** The stay's date fields, which are only required here. */
  function DateChecks(form: GuestForm): (checks: seq<(string, Validation)>)
    ensures AllAccepted(checks) <==> form.checkIn != "" && form.checkOut != ""
  {
    var checks := [
      ("checkIn", Required(form.checkIn, "Check-in date is required")),
      ("checkOut", Required(form.checkOut, "Check-out date is required"))];
    assert AllAccepted(checks) <== checks[0].1.Accepted? && checks[1].1.Accepted? by {
      if checks[0].1.Accepted? && checks[1].1.Accepted? {
        forall i | 0 <= i < |checks|
          ensures checks[i].1.Accepted?
        {
          assert i <= 1;
        }
      }
    }
    checks
  }

  /** What an error-free form means, field by field, in terms of the
      patterns: every required field filled, an email of the pattern's shape,
      a phone of 10 to 12 digits, a card of 13 to 16 digits once spaces are
      removed, an expiry in MM/YY form and a CVV of 3 or 4 digits. */
  predicate FormAcceptable(form: GuestForm, now: Clock): (ok: bool)
    ensures ok ==>
      form.firstName != "" && form.lastName != "" && form.country != "" && form.cardType != "" &&
      form.checkIn != "" && form.checkOut != "" && form.email != "" && EmailPattern(form.email)
    ensures ok ==>
      AllDigits(form.phone) && 10 <= |form.phone| <= 12 &&
      AllDigits(StripWhitespace(form.cardNumber)) && 13 <= |StripWhitespace(form.cardNumber)| <= 16 &&
      ExpiryPattern(form.expiryDate) && AllDigits(form.cvv) && 3 <= |form.cvv| <= 4
  {
    form.firstName != "" && form.lastName != "" && form.country != "" &&
    form.cardType != "" && form.checkIn != "" && form.checkOut != "" &&
    ValidateEmail(form.email).Accepted? && ValidatePhone(form.phone).Accepted? &&
    form.cardNumber != "" && ValidateCardNumber(form.cardNumber).Accepted? &&
    form.expiryDate != "" && ValidateExpiryDate(form.expiryDate, now).Accepted? &&
    form.cvv != "" && ValidateCvv(form.cvv).Accepted?
  }

  /** The errors react-hook-form reports for the booking form, the fields
      checked in the order the form registers them: none exactly when every
      field passes its rule. */
  function FormErrors(form: GuestForm, now: Clock): (errors: map<string, string>)
    ensures errors == map[] <==> FormAcceptable(form, now)
  {
    var contact := ContactChecks(form);
    var payment := PaymentChecks(form, now);
    var dates := DateChecks(form);
    AllAcceptedAppend(contact + payment, dates);
    AllAcceptedAppend(contact, payment);
    Errors(contact + payment + dates)
  }

  /** The total shown for a loaded hotel: the rate times the nights, or, just
      after loading and before any dates are picked, the rate itself for the
      initial single night. */
  predicate PriceMatches(rate: JsValue, nights: int, totalPrice: JsValue) {
    totalPrice == Multiply(rate, nights) || (nights == 1 && totalPrice == rate)
  }

  /** For a numeric rate, the total is exactly nights times the rate. */
  lemma NumericTotal(rate: JsValue, nights: int, totalPrice: JsValue)
    requires rate.Num? && PriceMatches(rate, nights, totalPrice)
    ensures totalPrice == Num(nights as real * rate.n)
  {
  }

  /** `paymentInfo`: the card type and the redacted card number. */
  function PaymentInfo(form: GuestForm): (info: JsObject)
    ensures Get(info, "cardNumber") == Str(StoredCardNumber(form.cardNumber))
    ensures Get(info, "cardType") == Str(form.cardType)
  {
    map["cardType" := Str(form.cardType), "cardNumber" := Str(StoredCardNumber(form.cardNumber))]
  }

  /** The owner, the hotel, the stay, the payment and the status written
      over the descriptive fields of a booking. */
  function WithBookingFacts(details: JsObject, userId: JsValue, hotelId: JsValue, nights: int,
                            totalPrice: JsValue, paymentInfo: JsObject): (r: JsObject)
    ensures Get(r, "status") == Str("confirmed")
    ensures Get(r, "userId") == userId && Get(r, "hotelId") == hotelId
    ensures Get(r, "nights") == Num(nights as real) && Get(r, "totalPrice") == totalPrice
    ensures Get(r, "paymentInfo") == Obj(paymentInfo)
  {
    details["userId" := userId]
           ["hotelId" := hotelId]
           ["nights" := Num(nights as real)]
           ["totalPrice" := totalPrice]
           ["paymentInfo" := Obj(paymentInfo)]
           ["status" := Str("confirmed")]
  }

  /** The booking stored on submit. */
  function NewBooking(hotel: JsObject, user: JsValue, form: GuestForm, nights: int,
                      totalPrice: JsValue, id: string, bookingDate: string): (r: JsObject)
    ensures Get(r, "status") == Str("confirmed")
    ensures Get(r, "userId") == OptGet(user, "id") && Get(r, "hotelId") == Get(hotel, "id")
    ensures Get(r, "nights") == Num(nights as real) && Get(r, "totalPrice") == totalPrice
    ensures Get(r, "paymentInfo") == Obj(PaymentInfo(form))
  {
    var guestInfo := map[
      "firstName" := Str(form.firstName),
      "lastName" := Str(form.lastName),
      "email" := Str(form.email),
      "phone" := Str(form.phone),
      "country" := Str(form.country)];
    var details := map[
      "id" := Str(id),
      "hotelName" := Get(hotel, "name"),
      "checkIn" := Str(form.checkIn),
      "checkOut" := Str(form.checkOut),
      "guestInfo" := Obj(guestInfo),
      "bookingDate" := Str(bookingDate)];
    WithBookingFacts(details, OptGet(user, "id"), Get(hotel, "id"), nights, totalPrice, PaymentInfo(form))
  }

  /** A booking made from an accepted form keeps only the last four digits
      of the card, never the whole number. */
  lemma StoredCardIsLastFourDigits(hotel: JsObject, user: JsValue, form: GuestForm, now: Clock,
                                   nights: int, totalPrice: JsValue, id: string, bookingDate: string)
    requires FormErrors(form, now) == map[]
    ensures var stored := Get(Get(NewBooking(hotel, user, form, nights, totalPrice, id, bookingDate)
                                    , "paymentInfo").fields, "cardNumber");
      stored.Str? && |stored.s| == 4 && AllDigits(stored.s) &&
      StripWhitespace(form.cardNumber) == StripWhitespace(form.cardNumber)[..|StripWhitespace(form.cardNumber)| - 4] + stored.s
  {
    assert ValidateCardNumber(form.cardNumber).Accepted?;
  }

  class BookingDetailsPage {
    var hotel: Option<JsObject>
    var loading: bool
    var showSuccess: bool
    var totalPrice: JsValue
    var nights: int
    /** The local storage the submitted booking is written to. */
    const storage: LocalStorage

    /** At least one night; no price before the hotel is loaded; afterwards
        the total agrees with the nightly rate and the night count. */
    ghost predicate Valid()
      reads this
    {
      nights >= 1 &&
      (hotel.None? ==> nights == 1 && totalPrice == Num(0.0)) &&
      (hotel.Some? ==> PriceMatches(NightlyRate(hotel.value), nights, totalPrice))
    }

    /** The page's initial state: loading, one night, a total of 0. */
    constructor (storage: LocalStorage)
      ensures Valid()
      ensures hotel == None && loading && !showSuccess && totalPrice == Num(0.0) && nights == 1
      ensures this.storage == storage
    {
      hotel := None;
      loading := true;
      showSuccess := false;
      totalPrice := Num(0.0);
      nights := 1;
      this.storage := storage;
    }

    /** The hotel arrived: it is kept, the total becomes its nightly rate and
        loading ends. */
    method OnHotelFetched(data: JsObject)
      requires Valid() && hotel.None?
      modifies this`hotel, this`totalPrice, this`loading
      ensures Valid()
      ensures hotel == Some(data) && totalPrice == NightlyRate(data) && !loading
      ensures nights == old(nights) && showSuccess == old(showSuccess)
    {
      hotel := Some(data);
      var price := NightlyRate(data);
      totalPrice := price;
      loading := false;
    }

    /** The fetch failed: loading ends and no hotel is shown. */
    method OnHotelFetchFailed()
      modifies this`loading
      ensures !loading
      ensures hotel == old(hotel) && totalPrice == old(totalPrice) && nights == old(nights)
    {
      loading := false;
    }

    /** The dates effect: with a hotel and both dates picked, a stay of at
        least one night replaces the night count and the total; otherwise
        nothing changes. */
    method OnDatesChanged(checkIn: DateInput, checkOut: DateInput)
      requires Valid()
      modifies this`nights, this`totalPrice
      ensures Valid()
      ensures hotel.Some? && Filled(checkIn) && Filled(checkOut) && StayNights(checkIn.ms, checkOut.ms) > 0 ==>
        nights == StayNights(checkIn.ms, checkOut.ms) &&
        totalPrice == Multiply(NightlyRate(hotel.value), nights)
      ensures !(hotel.Some? && Filled(checkIn) && Filled(checkOut) && StayNights(checkIn.ms, checkOut.ms) > 0) ==>
        nights == old(nights) && totalPrice == old(totalPrice)
    {
      if hotel.Some? && Filled(checkIn) && Filled(checkOut) {
        var diffDays := StayNights(checkIn.ms, checkOut.ms);
        if diffDays > 0 {
          nights := diffDays;
          var price := NightlyRate(hotel.value);
          totalPrice := Multiply(price, diffDays);
        }
      }
    }

    /** Submitting the form: when every field passes and a user is signed in,
        the new booking is appended to the stored list and the success
        message is shown. Reading `user.id` of a missing user throws, which
        the handler catches, leaving everything unchanged. */
    method OnSubmit(form: GuestForm, user: JsValue, now: Clock, id: string, bookingDate: string)
      requires hotel.Some?
      modifies this`showSuccess, storage`bookings
      ensures FormErrors(form, now) == map[] && !Nullish(user) ==>
        storage.bookings == old(storage.bookings) + [NewBooking(hotel.value, user, form, nights, totalPrice, id, bookingDate)] &&
        showSuccess
      ensures !(FormErrors(form, now) == map[] && !Nullish(user)) ==>
        storage.bookings == old(storage.bookings) && showSuccess == old(showSuccess)
    {
      if FormErrors(form, now) == map[] && !Nullish(user) {
        var bookings := storage.bookings;
        var newBooking := NewBooking(hotel.value, user, form, nights, totalPrice, id, bookingDate);
        bookings := bookings + [newBooking];
        storage.bookings := bookings;
        showSuccess := true;
      }
    }
  }

  /** Picking the same day for both dates leaves the stay as it was. */
  method SameDayKeepsStay(page: BookingDetailsPage, day: DateInput)
    requires page.Valid()
    modifies page
    ensures page.nights == old(page.nights) && page.totalPrice == old(page.totalPrice)
  {
    page.OnDatesChanged(day, day);
  }
}
