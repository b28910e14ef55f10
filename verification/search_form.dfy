/** The search form on the home page and the date and guest rules it shares
    with the booking form: a destination is required, check-in may not lie in
    the past, check-out must follow check-in, and the guest count lies between
    1 and 10. A valid search is handed to the page's search handler. */
module SearchForm {
  import opened Optional
  import opened Js
  import opened Forms
  import opened StayPricing

  const CheckInMessage := "Check-in date must be today or later"
  const CheckOutMessage := "Check-out date must be after check-in date"
  const MinGuestsMessage := "At least 1 guest required"
  const MaxGuestsMessage := "Maximum 10 guests allowed"

  /** The midnight (UTC) that starts the day containing the instant `now`. */
  function DayStart(now: int): (start: int)
    ensures start <= now < start + DayMs
    ensures start % DayMs == 0
  {
    now - now % DayMs
  }

  /** The check-in rule as written: the picked day, read as its midnight,
      must not be before the current instant. */
  function CheckInAsWritten(value: DateInput, now: int): (v: Validation)
    ensures v.Accepted? <==> Filled(value) && value.ms >= now
    ensures v.Rejected? ==> v.message == (if Filled(value) then CheckInMessage else "Check-in date is required")
  {
    if !Filled(value) then Rejected("Check-in date is required")
    else if value.ms >= now then Accepted
    else Rejected(CheckInMessage)
  }

  /** As written, today is refused at every instant after midnight: its
      midnight is already in the past. */
  lemma TodayRejectedAsWritten(value: DateInput, now: int)
    requires Filled(value) && value.ms == DayStart(now) && now % DayMs != 0
    ensures CheckInAsWritten(value, now) == Rejected(CheckInMessage)
  {
  }

  /** Concretely: picking 2025-10-11 at noon UTC of that day is refused. */
  lemma TodayAtNoonRejectedAsWritten()
    ensures CheckInAsWritten(Picked("2025-10-11", 1760140800000), 1760184000000) == Rejected(CheckInMessage)
  {
    TodayRejectedAsWritten(Picked("2025-10-11", 1760140800000), 1760184000000);
  }

  /** The check-in rule the message describes, "today or later": the picked
      day may not start before the current day does. */
  function CheckIn(value: DateInput, now: int): (v: Validation)
    ensures v.Accepted? <==> Filled(value) && value.ms >= DayStart(now)
    ensures v.Rejected? ==> v.message == (if Filled(value) then CheckInMessage else "Check-in date is required")
  {
    if !Filled(value) then Rejected("Check-in date is required")
    else if value.ms >= DayStart(now) then Accepted
    else Rejected(CheckInMessage)
  }

  /** Today is accepted and yesterday is not. */
  lemma CheckInTodayNotYesterday(text: string, now: int)
    requires text != ""
    ensures CheckIn(Picked(text, DayStart(now)), now) == Accepted
    ensures CheckIn(Picked(text, DayStart(now) - DayMs), now) == Rejected(CheckInMessage)
  {
  }

  /** On picked days (which start at midnight), the corrected rule accepts
      exactly what the written rule accepts, plus today. */
  lemma CheckInDiffersOnlyOnToday(value: DateInput, now: int)
    requires Filled(value) && value.ms % DayMs == 0
    ensures CheckIn(value, now).Accepted? <==>
            CheckInAsWritten(value, now).Accepted? || value.ms == DayStart(now)
  {
  }

  /** The check-out rule: required, and, once check-in is picked, strictly
      after it. */
  function CheckOut(checkIn: DateInput, checkOut: DateInput): (v: Validation)
    ensures v.Accepted? <==> Filled(checkOut) && (!Filled(checkIn) || checkOut.ms > checkIn.ms)
    ensures Filled(checkOut) && v.Rejected? ==> v.message == CheckOutMessage
  {
    if !Filled(checkOut) then Rejected("Check-out date is required")
    else if !Filled(checkIn) then Accepted
    else if checkOut.ms > checkIn.ms then Accepted
    else Rejected(CheckOutMessage)
  }

  /** Accepted dates make a stay of at least one night. */
  lemma AcceptedDatesGiveANight(checkIn: DateInput, checkOut: DateInput)
    requires Filled(checkIn) && CheckOut(checkIn, checkOut).Accepted?
    ensures StayNights(checkIn.ms, checkOut.ms) >= 1
  {
  }

  /** The guest rule: required, then the number (`+value`) at least 1 and at
      most 10; a value that is not a number fails neither bound. */
  function Guests(value: string): (v: Validation)
    ensures v.Accepted? <==>
      value != "" && (ToNumber(Str(value)).Some? ==> 1.0 <= ToNumber(Str(value)).value <= 10.0)
  {
    if value == "" then Rejected("Number of guests is required")
    else match ToNumber(Str(value))
      case Some(n) =>
        if n > 10.0 then Rejected(MaxGuestsMessage)
        else if n < 1.0 then Rejected(MinGuestsMessage)
        else Accepted
      case None => Accepted
  }

  /** Every option of the guest select, "1" to "10", is accepted. */
  lemma GuestOptionsAccepted(n: nat)
    requires 1 <= n <= 10
    ensures Guests(NatToDecimal(n)) == Accepted
  {
    ParseNatToDecimal(n);
  }

  /** "0" is below the minimum and "11" above the maximum. */
  lemma GuestBoundsRejected()
    ensures Guests("0") == Rejected(MinGuestsMessage)
    ensures Guests("11") == Rejected(MaxGuestsMessage)
  {
    var eleven := "11";
    assert eleven[..1] == "1";
    assert ParseNat(eleven[..1]) == 1;
    assert ParseNat(eleven) == 11;
  }

  /** The values the search form submits. */
  datatype SearchData = SearchData(destination: string, checkIn: DateInput, checkOut: DateInput, guests: string)

  /** The search form's checks in the order the fields are registered,
      with the check-in rule as written. */
  function SearchChecks(data: SearchData, now: int): (checks: seq<(string, Validation)>)
    ensures AllAccepted(checks) <==> SearchAccepted(data, now)
  {
    var checks := [
      ("destination", Required(data.destination, "Destination is required")),
      ("checkIn", CheckInAsWritten(data.checkIn, now)),
      ("checkOut", CheckOut(data.checkIn, data.checkOut)),
      ("guests", Guests(data.guests))];
    assert AllAccepted(checks) <== SearchAccepted(data, now) by {
      if SearchAccepted(data, now) {
        forall i | 0 <= i < |checks|
          ensures checks[i].1.Accepted?
        {
          assert i <= 3;
        }
      }
    }
    assert AllAccepted(checks) ==> SearchAccepted(data, now) by {
      if AllAccepted(checks) {
        assert checks[0].1.Accepted? && checks[1].1.Accepted?;
        assert checks[2].1.Accepted? && checks[3].1.Accepted?;
      }
    }
    checks
  }

  /** What passing every rule of the search form means: a destination, a
      check-in day whose midnight is not before now, a later check-out day
      and an admissible guest count. */
  predicate SearchAccepted(data: SearchData, now: int): (ok: bool)
    ensures ok <==>
      data.destination != "" &&
      Filled(data.checkIn) && data.checkIn.ms >= now &&
      Filled(data.checkOut) && data.checkOut.ms > data.checkIn.ms &&
      Guests(data.guests).Accepted?
  {
    Required(data.destination, "Destination is required").Accepted? &&
    CheckInAsWritten(data.checkIn, now).Accepted? &&
    CheckOut(data.checkIn, data.checkOut).Accepted? &&
    Guests(data.guests).Accepted?
  }

  /** The errors `handleSubmit` finds: none exactly when the search is
      accepted. */
  function SearchErrors(data: SearchData, now: int): (errors: map<string, string>)
    ensures errors == map[] <==> SearchAccepted(data, now)
  {
    Errors(SearchChecks(data, now))
  }

  /** `handleSubmit(onSubmit)`: a search without errors is passed unchanged
      to the search handler when the page supplied one; otherwise nothing
      happens. The result is what the handler receives. */
  function Submit(data: SearchData, now: int, hasHandler: bool): (forwarded: Option<SearchData>)
    ensures forwarded.Some? <==> hasHandler && SearchAccepted(data, now)
    ensures forwarded.Some? ==> forwarded.value == data
  {
    if SearchErrors(data, now) == map[] && hasHandler then Some(data) else None
  }

  /** A forwarded search has a destination, a check-in whose midnight is not
      before the moment of submitting (so not earlier than today), a stay of
      at least one night and a guest count within bounds. */
  lemma ForwardedSearchIsSound(data: SearchData, now: int)
    requires Submit(data, now, true).Some?
    ensures data.destination != ""
    ensures data.checkIn.ms >= now && data.checkIn.ms >= DayStart(now)
    ensures StayNights(data.checkIn.ms, data.checkOut.ms) >= 1
    ensures ToNumber(Str(data.guests)).Some? ==> 1.0 <= ToNumber(Str(data.guests)).value <= 10.0
  {
    AcceptedDatesGiveANight(data.checkIn, data.checkOut);
  }

  /** As written, a search for today submitted after midnight is not
      forwarded; with the corrected check-in rule it would be. */
  lemma TodaySearchNotForwarded(data: SearchData, now: int)
    requires Filled(data.checkIn) && data.checkIn.ms == DayStart(now) && now % DayMs != 0
    ensures Submit(data, now, true).None?
    ensures CheckIn(data.checkIn, now).Accepted?
  {
  }

  /** The search the corrected rule would accept: the written rule's search
      plus those starting today. */
  predicate SearchAcceptedIntended(data: SearchData, now: int): (ok: bool)
    ensures SearchAccepted(data, now) ==> ok
    ensures ok ==> data.checkIn.Picked? && data.checkIn.ms >= DayStart(now)
  {
    Required(data.destination, "Destination is required").Accepted? &&
    CheckIn(data.checkIn, now).Accepted? &&
    CheckOut(data.checkIn, data.checkOut).Accepted? &&
    Guests(data.guests).Accepted?
  }
}
