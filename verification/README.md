# Hotel booking front end — a Dafny model of its rules and stores

This project models the logic of a React hotel-booking front end. The
rendering is not modelled. What is modelled:

- the three Redux slices: the `booking` store with its local-storage copy,
  the `user` session and the `hotel` store;
- the stay-pricing rules: the nightly rate, the night count and the total;
- the validators of the booking page's payment and contact form: card
  number, `MM/YY` expiry, CVV, email and phone;
- the date and guest rules shared by the search form and the booking form;
- the booking records both forms build and store;
- the display normalisers of the cards and pages: safe strings, rating
  value and maximum, star rows, price lines and image fallbacks;
- the "My Bookings" per-user filter and status colours;
- the navigation bar's country list and search;
- the search results page: its three-way dispatch, the request URL it
  builds and its page state.

JavaScript values are the datatype `Js.JsValue`. Its constructors are
`undefined`, `null`, booleans, numbers (as reals), NaN, strings, arrays and
objects (maps). Truthiness, `||`, `??`, `?.` and `===` are written out over
it. Dates are integer milliseconds since the epoch. The current instant (or
the current year and month) is a parameter. The browser's local storage is
an object (`Storage.LocalStorage`) holding the parsed `bookings` list and the
`authToken`. Each regular expression becomes a predicate on characters.
`encodeURIComponent` is `Uri.Encode`. A separately written decoder
(`Uri.Decode`) is proved to undo it. Through that decoder, the search URL is
proved to carry exactly the query it was built from.

Where the code and its description differ, the model follows the code:

- The card-number pattern accepts 13 to 16 digits only. A 19-digit Visa
  number is never accepted (`Payment.ValidateCardNumber`).
- `required` rejects only the empty string. A value of spaces passes
  (`Forms.Required`).
- The booking form prices a stay from the hotel's flat `price` only. A hotel
  priced only through tiers costs NaN there (`BookingForm.TierOnlyHotelIsNaN`).
- The booking page's night count takes an absolute value. The booking
  form's count does not (`BookingForm.FormNightsAgainstStayNights`).
- Both forms check check-in with the rule as written: the picked day's
  midnight may not lie before the current instant, so today is refused after
  midnight (`SearchForm.SearchAccepted`, `BookingForm.FormAccepted`). The
  "today or later" rule the message describes is `SearchForm.CheckIn`. It is
  kept apart and is used by no form.
- The card's and the details page's rating helpers throw on a `null` rating.
  They run while the component renders (HotelCard.jsx:19-20,
  HotelDetails.jsx:104-105), and the application has no error boundary, so
  the TypeError takes down the rendered page, not just the star row. `None`
  from `HotelCard.Stars` and `HotelDetails.DetailsRating` stands for that
  throw. The helpers with the defaults kept for
  `null` are `HotelCard.RatingValue`, `HotelCard.MaxRating` and
  `HotelCard.StarsIntended`.

## Model

| member | source | states |
|---|---|---|
| BookingSlice.ReplaceFirst | src/store/bookingSlice.js:23-26 | same length; every position keeps its booking, except that the first one carrying the payload's id becomes the payload; with no such booking the list is unchanged |
| BookingSlice.ReplaceFirstHit | src/store/bookingSlice.js:24-26 | when position i holds the first booking with the payload's id, the result is the list with exactly position i replaced |
| BookingSlice.RemoveById | src/store/bookingSlice.js:35-39 | after filtering out an id no booking has it, every other booking is still there, and filtering twice equals filtering once |
| Storage.LocalStorage.constructor | src/store/bookingSlice.js:19 | a missing `bookings` key reads as the empty list; no auth token |
| BookingSlice.BookingStore.constructor | src/store/bookingSlice.js:3-8 | empty list, null current booking, not loading, no error |
| BookingSlice.BookingStore.SetBookings | src/store/bookingSlice.js:14-16 | replaces the list; nothing else changes |
| BookingSlice.BookingStore.AddBooking | src/store/bookingSlice.js:17-22 | the payload is appended to the list on screen and to the stored list; the other fields are unchanged |
| BookingSlice.BookingStore.UpdateBooking | src/store/bookingSlice.js:23-34 | the list becomes ReplaceFirst of it; the stored list is rewritten only when the id is found in the list on screen, and then only at the stored list's first match |
| BookingSlice.BookingStore.RemoveBooking | src/store/bookingSlice.js:35-40 | both lists lose every booking with the id and keep the rest in order |
| BookingSlice.BookingStore.SetCurrentBooking | src/store/bookingSlice.js:41-43 | only the current booking changes |
| BookingSlice.BookingStore.SetLoading | src/store/bookingSlice.js:44-46 | only the loading flag changes; the payload is appended to the history of `setLoading` dispatches |
| BookingSlice.BookingStore.SetError | src/store/bookingSlice.js:47-49 | only the error changes; the payload is appended to the history of `setError` dispatches |
| BookingSlice.BookingStore.ClearBookings | src/store/bookingSlice.js:50-54 | empty list, null current booking and no error; loading untouched |
| BookingSlice.BookingStore.LoadBookingsFromStorage | src/store/bookingSlice.js:55-57 | replaces the list; nothing else changes |
| UserSlice.Session.constructor | src/store/userSlice.js:3-8 | nobody signed in, not loading, no error; the invariant "authenticated iff the user is truthy" holds |
| UserSlice.Session.SetUser | src/store/userSlice.js:14-17 | the user is the payload and the flag is true iff the payload is truthy; the invariant is kept |
| UserSlice.Session.SetLoading | src/store/userSlice.js:18-20 | only loading changes; the invariant is kept |
| UserSlice.Session.SetError | src/store/userSlice.js:21-23 | only the error changes; the invariant is kept |
| UserSlice.Session.Logout | src/store/userSlice.js:24-29 | null user, not authenticated, no error, the stored token removed; loading untouched |
| UserSlice.Session.SetAuthToken | src/store/userSlice.js:30-32 | the token is stored; the slice state is unchanged |
| UserSlice.AuthenticatedIffNotNull | src/store/userSlice.js:14-17 | for a user object or null, being truthy is being non-null, so the invariant reads `isAuthenticated <==> user !== null` |
| HotelSlice.HotelStore.constructor | src/store/hotelSlice.js:3-11 | empty lists, no selected hotel, not loading, no error |
| HotelSlice.HotelStore.SetHotels | src/store/hotelSlice.js:17-19 | replaces `hotels` and nothing else |
| HotelSlice.HotelStore.SetBestOffers | src/store/hotelSlice.js:20-22 | replaces `bestOffers` and nothing else |
| HotelSlice.HotelStore.SetRecommendedHotels | src/store/hotelSlice.js:23-25 | replaces `recommendedHotels` and nothing else |
| HotelSlice.HotelStore.SetSelectedHotel | src/store/hotelSlice.js:26-28 | replaces `selectedHotel` and nothing else |
| HotelSlice.HotelStore.SetBookings | src/store/hotelSlice.js:29-31 | replaces `bookings` and nothing else |
| HotelSlice.HotelStore.AddBooking | src/store/hotelSlice.js:32-34 | appends to `bookings`: the length grows by one and every earlier element stays; the other fields are unchanged |
| HotelSlice.HotelStore.SetLoading | src/store/hotelSlice.js:35-37 | replaces `loading` and nothing else |
| HotelSlice.HotelStore.SetError | src/store/hotelSlice.js:38-40 | replaces `error` and nothing else |
| HotelSlice.SetThenAddBooking | src/store/hotelSlice.js:29-34 | `setBookings(xs)` then `addBooking(b)` leaves exactly `xs + [b]` |
| StayPricing.CeilDays | src/pages/booking-details/BookingDetails.jsx:63 | the least whole number of days covering the milliseconds |
| StayPricing.StayNights | src/pages/booking-details/BookingDetails.jsx:62-63 | the night count is 0 exactly when the dates are equal |
| StayPricing.StayNightsSymmetric | src/pages/booking-details/BookingDetails.jsx:62 | swapping the dates gives the same count |
| StayPricing.StayNightsOfWholeDays | src/pages/booking-details/BookingDetails.jsx:62-63 | n whole days apart, in either order, is n nights |
| StayPricing.PartialDayIsOneNight | src/pages/booking-details/BookingDetails.jsx:63 | up to one day apart, but not equal, is one night |
| StayPricing.FirstTier | src/pages/booking-details/BookingDetails.jsx:67 | a first tier exists only when `pricing` is an array whose first entry is truthy |
| StayPricing.NightlyRate | src/pages/booking-details/BookingDetails.jsx:67-69 | the first tier's `discountedPrice` unless null or undefined, then its `originalPrice`; the flat `price` without a first tier |
| StayPricing.ZeroDiscountIsCharged | src/pages/booking-details/BookingDetails.jsx:34 | a discounted price of 0 is the rate (`??` does not skip 0) |
| StayPricing.NoUsableTierUsesFlatPrice | src/pages/booking-details/BookingDetails.jsx:33-35 | an empty tier list, or a null first tier, falls back to the flat price |
| Forms.Required | src/pages/booking-details/BookingDetails.jsx:183 | accepted iff the value is non-empty, else the field's message |
| Forms.RequiredThen | src/pages/booking-details/BookingDetails.jsx:247-250 | accepted iff the value is non-empty and the further rule accepts |
| Forms.AllAcceptedAppend | src/pages/booking-details/BookingDetails.jsx:175 | every check of two groups passes iff every check of each group passes |
| Forms.Errors | src/pages/booking-details/BookingDetails.jsx:104 | no errors iff every rule accepts; each rejected field, and only such a field, has an entry |
| Payment.StripWhitespace | src/pages/booking-details/BookingDetails.jsx:76 | no whitespace is left and no character is added |
| Payment.StripWhitespaceIdempotent | src/pages/booking-details/BookingDetails.jsx:76 | stripping twice is stripping once |
| Payment.StripDigits | src/pages/booking-details/BookingDetails.jsx:76 | a string of digits is left as it is |
| Payment.ValidateCardNumber | src/pages/booking-details/BookingDetails.jsx:75-79 | accepted iff the stripped value matches the pattern; anything accepted is 13 to 16 digits starting with 1 to 6 |
| Payment.CardNumberIgnoresWhitespace | src/pages/booking-details/BookingDetails.jsx:76-78 | whitespace in the value does not change the verdict |
| Payment.SixteenDigitVisaAccepted | src/pages/booking-details/BookingDetails.jsx:77 | every 16-digit number starting with 4 is accepted |
| Payment.LeadingOneRejected | src/pages/booking-details/BookingDetails.jsx:77 | a number starting with 1 is rejected unless it is 15 digits starting with 1800 |
| Payment.VisaTestNumberAccepted | src/pages/booking-details/BookingDetails.jsx:77-78 | "4111111111111111" is accepted |
| Payment.SequentialNumberRejected | src/pages/booking-details/BookingDetails.jsx:77-78 | "1234567890123456" is rejected with the card message |
| Payment.JsRemainder | src/pages/booking-details/BookingDetails.jsx:89 | JavaScript's `%`: the remainder has the dividend's sign and is smaller than the divisor |
| Payment.ExpiryMonth | src/pages/booking-details/BookingDetails.jsx:87 | a well-formed month is 1 to 12 |
| Payment.ExpiryYear | src/pages/booking-details/BookingDetails.jsx:87 | a well-formed year is below 100 |
| Payment.ValidateExpiryDate | src/pages/booking-details/BookingDetails.jsx:81-97 | the format message unless the value is `MM/YY` with a month 01-12; otherwise accepted or "Card has expired" |
| Payment.ExpiryByMonthCount | src/pages/booking-details/BookingDetails.jsx:88-96 | a well-formed date is accepted iff, counted in months, it is not before the current month of the current two-digit year |
| Payment.TwoDigits | src/pages/booking-details/BookingDetails.jsx:87 | two digits that read back as the number |
| Payment.CurrentMonthAccepted | src/pages/booking-details/BookingDetails.jsx:92-96 | a card expiring this month is accepted |
| Payment.ExpiryExamples | src/pages/booking-details/BookingDetails.jsx:82-94 | "13/99" is a format error; last month has expired |
| Payment.ValidateCvv | src/pages/booking-details/BookingDetails.jsx:99-102 | accepted iff the value is 3 or 4 decimal digits |
| Payment.EmailPatternSound | src/pages/booking-details/BookingDetails.jsx:204 | a value the split-based decision accepts matches the email pattern |
| Payment.EmailPatternComplete | src/pages/booking-details/BookingDetails.jsx:204 | every match of the email pattern is accepted by the split-based decision |
| Payment.EmailPatternMatches | src/pages/booking-details/BookingDetails.jsx:204 | the decision and the pattern agree, both directions |
| Payment.ValidateEmail | src/pages/booking-details/BookingDetails.jsx:201-206 | accepted iff non-empty and matching the pattern; otherwise the pattern's message for a non-empty value |
| Payment.ValidatePhone | src/pages/booking-details/BookingDetails.jsx:216-221 | accepted iff 10 to 12 decimal digits |
| Payment.LastFour | src/pages/booking-details/BookingDetails.jsx:124 | the last four characters (all of a shorter string), a suffix of the input |
| Payment.StoredCardNumber | src/pages/booking-details/BookingDetails.jsx:124 | at most four characters, no whitespace; for an accepted card, its last four digits |
| BookingDetails.ContactChecks | src/pages/booking-details/BookingDetails.jsx:183-231 | all five contact checks pass iff first name, last name and country are non-empty and the email and phone rules accept |
| BookingDetails.PaymentChecks | src/pages/booking-details/BookingDetails.jsx:247-284 | all four payment checks pass iff the card number, expiry and CVV are non-empty and accepted by their rules and a card type is chosen |
| BookingDetails.DateChecks | src/pages/booking-details/BookingDetails.jsx:326-336 | both date checks pass iff both dates are non-empty |
| BookingDetails.FormAcceptable | src/pages/booking-details/BookingDetails.jsx:183-336 | an acceptable form has every required field filled, an email of the pattern's shape, a 10 to 12 digit phone, a 13 to 16 digit card once spaces are removed, an MM/YY expiry and a 3 or 4 digit CVV |
| BookingDetails.FormErrors | src/pages/booking-details/BookingDetails.jsx:183-336 | no errors iff every field passes its rule (required fields, email, phone, card, expiry, CVV) |
| BookingDetails.NumericTotal | src/pages/booking-details/BookingDetails.jsx:36 | for a numeric rate the total is nights times the rate |
| BookingDetails.PaymentInfo | src/pages/booking-details/BookingDetails.jsx:123-126 | the stored card number is the last four characters of the whitespace-free value; the card type is kept |
| BookingDetails.WithBookingFacts | src/pages/booking-details/BookingDetails.jsx:107-128 | the record carries status "confirmed", the user's and hotel's ids, the nights, the total and the payment record |
| BookingDetails.NewBooking | src/pages/booking-details/BookingDetails.jsx:107-129 | status "confirmed", the user's and the hotel's ids, the nights and total, and the payment record of the form (redacted card, card type) |
| BookingDetails.StoredCardIsLastFourDigits | src/pages/booking-details/BookingDetails.jsx:124 | a booking from an accepted form stores exactly four digits, the suffix of the stripped card number |
| BookingDetails.BookingDetailsPage.constructor | src/pages/booking-details/BookingDetails.jsx:11-15 | loading, no hotel, one night, a total of 0 |
| BookingDetails.BookingDetailsPage.OnHotelFetched | src/pages/booking-details/BookingDetails.jsx:31-41 | the hotel is kept, the total becomes its nightly rate, loading ends; nights ≥ 1 and the total agrees with the rate |
| BookingDetails.BookingDetailsPage.OnHotelFetchFailed | src/pages/booking-details/BookingDetails.jsx:37-42 | loading ends; nothing else changes |
| BookingDetails.BookingDetailsPage.OnDatesChanged | src/pages/booking-details/BookingDetails.jsx:58-73 | with a hotel and both dates, a positive night count replaces nights and the total becomes rate times nights; otherwise nothing changes; the invariant is kept |
| BookingDetails.BookingDetailsPage.OnSubmit | src/pages/booking-details/BookingDetails.jsx:104-141 | with no form errors and a user, the new booking is appended to the stored list and success shown; otherwise nothing changes |
| BookingDetails.SameDayKeepsStay | src/pages/booking-details/BookingDetails.jsx:62-66 | the same day for both dates leaves nights and total unchanged |
| SearchForm.DayStart | src/components/search/SearchForm.jsx:45-51 | the midnight starting the day that holds the instant |
| SearchForm.CheckInAsWritten | src/components/search/SearchForm.jsx:45-51 | accepted iff a day is picked and its midnight is not before the current instant |
| SearchForm.TodayRejectedAsWritten | src/components/search/SearchForm.jsx:45-51 | today is rejected at any instant after midnight |
| SearchForm.TodayAtNoonRejectedAsWritten | src/components/search/SearchForm.jsx:45-51 | 2025-10-11 is rejected at noon of that day |
| SearchForm.CheckIn | src/components/search/SearchForm.jsx:45-51 | the corrected rule, used by no form: accepted iff a day is picked that starts no earlier than today |
| SearchForm.CheckInTodayNotYesterday | src/components/search/SearchForm.jsx:45-51 | today is accepted, yesterday rejected with the check-in message |
| SearchForm.CheckInDiffersOnlyOnToday | src/components/search/SearchForm.jsx:45-51 | on picked days the corrected rule accepts what the written rule accepts, plus today |
| SearchForm.CheckOut | src/components/search/SearchForm.jsx:64-73 | accepted iff a day is picked and check-in is empty or earlier |
| SearchForm.AcceptedDatesGiveANight | src/components/search/SearchForm.jsx:64-73 | accepted dates with check-in picked make at least one night |
| SearchForm.Guests | src/components/search/SearchForm.jsx:84-88 | accepted iff non-empty and, when it is a number, between 1 and 10 |
| SearchForm.GuestOptionsAccepted | src/components/search/SearchForm.jsx:84-94 | every option "1" to "10" is accepted |
| SearchForm.GuestBoundsRejected | src/components/search/SearchForm.jsx:84-88 | "0" gets the minimum message and "11" the maximum message |
| SearchForm.SearchChecks | src/components/search/SearchForm.jsx:31-88 | the four checks, in registration order, all pass iff the search is accepted |
| SearchForm.SearchAccepted | src/components/search/SearchForm.jsx:31-88 | accepted iff there is a destination, check-in is picked with its midnight not before now, check-out is picked and later, and the guest rule accepts |
| SearchForm.SearchErrors | src/components/search/SearchForm.jsx:24 | `handleSubmit` finds no errors iff the search is accepted |
| SearchForm.Submit | src/components/search/SearchForm.jsx:16-20 | the data is forwarded unchanged iff a handler exists and the search is accepted under the written rules |
| SearchForm.ForwardedSearchIsSound | src/components/search/SearchForm.jsx:16-20 | a forwarded search has a destination, a check-in midnight not before the moment of submitting, at least one night, and a guest count within 1 to 10 when it is a number |
| SearchForm.TodaySearchNotForwarded | src/components/search/SearchForm.jsx:45-51 | a search starting today, submitted after midnight, is not forwarded, though the corrected rule accepts its check-in |
| SearchForm.SearchAcceptedIntended | src/components/search/SearchForm.jsx:45-51 | with the corrected rule every search accepted as written is still accepted, and a check-in must start no earlier than today |
| BookingForm.FormNights | src/components/booking/BookingForm.jsx:28-30 | the ceiling of the signed difference in days |
| BookingForm.FormNightsAgainstStayNights | src/components/booking/BookingForm.jsx:30 | equal to the booking page's count for forward dates; not positive for reversed or equal ones |
| BookingForm.AcceptedDatesGiveFormNights | src/components/booking/BookingForm.jsx:104-112 | dates the check-out rule accepts, with check-in picked, give at least one night |
| BookingForm.FormTotal | src/components/booking/BookingForm.jsx:31 | nights times the flat price; a number iff the price converts to one |
| BookingForm.EmptyArrayPriceIsFree | src/components/booking/BookingForm.jsx:31 | `[]` converts to 0, so a price of `[]` gives a total of 0 for any stay |
| BookingForm.TierOnlyHotelIsNaN | src/components/booking/BookingForm.jsx:31 | a tier-only hotel costs NaN on the form, while the booking page charges the tier's rate |
| BookingForm.LeadingDigits | src/components/booking/BookingForm.jsx:41 | the longest run of decimal digits at the head of the text: all digits, a prefix, and followed by no digit |
| BookingForm.ParseInt | src/components/booking/BookingForm.jsx:41 | a number iff the text starts with a digit; the number is the value of the leading digits ("12abc" reads as 12); a digit string reads as its value |
| BookingForm.FormAccepted | src/components/booking/BookingForm.jsx:80-157 | accepted iff both days are picked, the check-in midnight is not before now, check-out is later, the guest rule accepts and a room type is chosen |
| BookingForm.NewBooking | src/components/booking/BookingForm.jsx:33-47 | status "confirmed", the special requests, "first last" as the user name, the parsed guests and the flat-price total |
| BookingForm.AcceptedFormTotal | src/components/booking/BookingForm.jsx:28-31 | from an accepted form at flat price p: at least one night, and the total is p times the nights |
| BookingForm.UserNameJoinsNames | src/components/booking/BookingForm.jsx:38 | a user with string names is shown as "first last" |
| BookingForm.Submit | src/components/booking/BookingForm.jsx:20-59 | the `setLoading` history gains true then false and the `setError` history gains null first (then "Booking failed" on failure); the booking added, on screen and in storage, when the hotel was fetched and a user is signed in; else "Booking failed"; loading off either way |
| Display.SafeString | src/pages/bookings/Bookings.jsx:50-54 | a string as it is, any number as its JavaScript text (a whole one as its decimal digits), NaN as "NaN", anything else the fallback |
| Display.SafeStringOfCount | src/pages/bookings/Bookings.jsx:50-54 | a whole non-negative number's text is digits that read back as the number |
| Display.ImageSource | src/components/cards/HotelCard.jsx:25 | main image if truthy, else the single image if truthy, else the placeholder |
| Display.ImageSourceAlwaysShown | src/components/cards/HotelCard.jsx:25 | with a non-empty placeholder some image is always shown |
| BookingsPage.UserBookings | src/pages/bookings/Bookings.jsx:15 | every kept booking carries the user's id; no more bookings than stored |
| BookingsPage.UserBookingsExactly | src/pages/bookings/Bookings.jsx:15 | a booking is shown iff it is stored and carries the user's id |
| BookingsPage.UserBookingsOfAppend | src/pages/bookings/Bookings.jsx:15 | the filter keeps stored order across an append |
| BookingsPage.FetchBookings | src/pages/bookings/Bookings.jsx:10-27 | only with a user: the store holds that user's stored bookings, loading was set on then off; without one nothing changes |
| BookingsPage.StatusColor | src/pages/bookings/Bookings.jsx:37-48 | confirmed green, pending yellow, cancelled red, anything else gray |
| BookingsPage.TotalPriceText | src/pages/bookings/Bookings.jsx:137 | "$N/A" unless the total is a number; any number, NaN included, as "$" and its JavaScript text ("$NaN" for NaN); a whole number shows its digits |
| BookingsPage.Card | src/pages/bookings/Bookings.jsx:98-137 | name, status and room type made safe with their fallbacks; the colour is the one for the raw status, and the total is the total's text |
| BookingsPage.ConfirmedBookingCard | src/pages/bookings/Bookings.jsx:98-123 | a booking-page booking shows green, "confirmed", and the default name and room type |
| HotelCard.RatingValueAsWritten | src/components/cards/HotelCard.jsx:5-10 | throws exactly on a null rating |
| HotelCard.MaxRatingAsWritten | src/components/cards/HotelCard.jsx:12-17 | throws exactly on a null rating |
| HotelCard.NullRatingThrows | src/components/cards/HotelCard.jsx:5-17 | both helpers throw a TypeError on a null rating |
| HotelCard.RatingValue | src/components/cards/HotelCard.jsx:5-10 | a number as is; an object's truthy `score`, else its truthy `value`, else 0; 0 for anything else |
| HotelCard.MaxRating | src/components/cards/HotelCard.jsx:12-17 | 5 for a number; an object's truthy `maxScore`, else its truthy `max`, else 5; 5 for anything else |
| HotelCard.RatingCorrectionAgrees | src/components/cards/HotelCard.jsx:5-17 | the corrected helpers return what the written ones return everywhere except null |
| HotelCard.StarSlots | src/components/cards/HotelCard.jsx:36 | a whole number below 2^32 gives that many slots, NaN throws, a non-number gives one slot |
| HotelCard.StarRow | src/components/cards/HotelCard.jsx:36-39 | star i is filled iff i is below the floored rating |
| HotelCard.FilledStars | src/components/cards/HotelCard.jsx:36-39 | the filled count is the floored rating clamped to 0 and the slot count; 0 for NaN |
| HotelCard.Stars | src/components/cards/HotelCard.jsx:19-39 | built on the written helpers: a row exists iff the rating is not null and the maximum gives valid slots; it has that many stars, with the floored value clamped to the row filled (none for NaN) |
| HotelCard.StarsIntended | src/components/cards/HotelCard.jsx:5-39 | with the corrected helpers: the card's row wherever the written helpers return, five empty stars for a null rating |
| Js.ArrayToNumber | src/components/cards/HotelCard.jsx:39 | `Number([])` is 0, `Number([n])` is n, and a two-element array converts to NaN |
| HotelCard.ArrayScoreStars | src/components/cards/HotelCard.jsx:39 | `Math.floor` converts a one-element array to its number, so a score of `[n]` fills n of five stars |
| HotelCard.NumberRatingStars | src/components/cards/HotelCard.jsx:36-39 | a number rating shows five stars, its floor clamped to 0..5 filled |
| HotelCard.PriceDisplay | src/components/cards/HotelCard.jsx:49-54 | a tier line with the tier's currency and unit iff there is a first tier, else the flat price |
| HotelCard.CardPriceIsNightlyRate | src/components/cards/HotelCard.jsx:49-54 | the amount shown is the rate the booking page charges |
| HotelCard.CardImage | src/components/cards/HotelCard.jsx:25 | the main image if truthy, else the single image if truthy, else the card placeholder; always truthy |
| HotelDetails.BookNow | src/pages/hotel-details/HotelDetails.jsx:48-54 | a signed-in user goes to the booking page; anyone else to the login page remembering it |
| HotelDetails.BookNowReachesBooking | src/pages/hotel-details/HotelDetails.jsx:48-54 | the booking page is reached now or after login, and directly iff signed in |
| HotelDetails.PriceText | src/pages/hotel-details/HotelDetails.jsx:179-181 | "$" followed by the nightly rate as text |
| HotelDetails.PriceTextExamples | src/pages/hotel-details/HotelDetails.jsx:179-181 | a whole rate shows its digits; no tier and no price shows "$undefined" |
| HotelDetails.PageRatingValue | src/pages/hotel-details/HotelDetails.jsx:56-61 | the page's copy of `getRatingValue`: throws exactly on null; a number is itself |
| HotelDetails.PageMaxRating | src/pages/hotel-details/HotelDetails.jsx:63-68 | the page's copy of `getMaxRating`: throws exactly on null; 5 for a number |
| HotelDetails.PageHelpersMatchCard | src/pages/hotel-details/HotelDetails.jsx:56-68 | for every rating the page's copies return, or throw, exactly as the card's helpers |
| HotelDetails.DetailsRating | src/pages/hotel-details/HotelDetails.jsx:104-105 | shown iff the rating is not null and the maximum gives valid slots; then the value is the rating value, the row is the card's row, and its filled stars are the floored value clamped to the row (HotelDetails.jsx:156-161) |
| HotelDetails.DetailsImage | src/pages/hotel-details/HotelDetails.jsx:113 | the main image if truthy, else the single image if truthy, else the large placeholder; always truthy |
| HotelDetails.FetchRecommended | src/pages/hotel-details/HotelDetails.jsx:32-42 | the response is stored, or the error set on failure; loading off; the other fields unchanged |
| RecommendedCard.Location | src/components/cards/RecommendedCard.jsx:14 | the truthy location made safe, else the city made safe, with "Location not available" |
| RecommendedCard.LocationFallbacks | src/components/cards/RecommendedCard.jsx:14 | a missing hotel or one without location and city shows the fallback; an empty location gives way to the city |
| RecommendedCard.Name | src/components/cards/RecommendedCard.jsx:8-15 | a string name as is, a number as its `toString()` text; "Hotel Name" unless a string or number |
| RecommendedCard.Price | src/components/cards/RecommendedCard.jsx:16 | the price when it is a number, else 0 |
| RecommendedCard.Image | src/components/cards/RecommendedCard.jsx:13 | the main image if truthy, else the single image if truthy, else the small placeholder; always truthy |
| Navbar.Insert | src/components/navbar/Navbar.jsx:29 | inserting into a sorted list keeps it sorted and adds exactly the element |
| Navbar.Sort | src/components/navbar/Navbar.jsx:29 | sorted by string form, and a permutation of the input |
| Navbar.Distinct | src/components/navbar/Navbar.jsx:26 | no duplicates, and the same members as the input |
| Navbar.AllCountries | src/components/navbar/Navbar.jsx:26-27 | exactly the `address?.country` values of the hotels |
| Navbar.SortedDistinctTruthy | src/components/navbar/Navbar.jsx:26-29 | sorted, no duplicates, exactly the truthy input values |
| Navbar.Countries | src/components/navbar/Navbar.jsx:22-35 | a list iff the response is a list with no null hotel; then sorted, no duplicates, exactly the truthy countries of the hotels |
| Navbar.SearchParams | src/components/navbar/Navbar.jsx:52-54 | `q` iff the name is non-empty, `address.country` iff the country is non-empty, their values, no other key |
| Navbar.NavbarState.constructor | src/components/navbar/Navbar.jsx:16-20 | empty fields, no error, no countries |
| Navbar.NavbarState.LoadCountries | src/components/navbar/Navbar.jsx:22-35 | the computed list on success; the old list when the request fails or the list cannot be built |
| Navbar.NavbarState.HandleClear | src/components/navbar/Navbar.jsx:41-46 | name, country, date and error are all empty |
| Navbar.NavbarState.HandleSearch | src/components/navbar/Navbar.jsx:48-60 | the parameters are SearchParams of the fields; success navigates with the results and the query, with no error; failure sets the fixed message |
| Uri.Encode | src/pages/search/HotelsSearch.jsx:28-29 | every character of the result is unreserved or '%' |
| Uri.EncodeUnreserved | src/pages/search/HotelsSearch.jsx:28-29 | unreserved text is its own encoding |
| Uri.DecodeEncode | src/pages/search/HotelsSearch.jsx:28-29 | decoding the encoding of any string gives it back |
| HotelsSearch.Given | src/pages/search/HotelsSearch.jsx:28-29 | a field is sent iff it is truthy |
| HotelsSearch.UrlFor | src/pages/search/HotelsSearch.jsx:26-30 | the URL is "/hotels" iff neither name nor country is given |
| HotelsSearch.UrlShape | src/pages/search/HotelsSearch.jsx:26-30 | otherwise "/hotels?" then the `q` piece, then "&" and the `address.country` piece, each only when given |
| HotelsSearch.HotelsUrl | src/pages/search/HotelsSearch.jsx:26-30 | "/hotels" iff the query has no truthy name or country |
| HotelsSearch.RequestedFor | src/pages/search/HotelsSearch.jsx:28-29 | `q` and `address.country` exactly for the given values |
| HotelsSearch.UrlForCarriesQuery | src/pages/search/HotelsSearch.jsx:26-30 | the URL's query parameters, read back and decoded, are exactly the name and country given |
| HotelsSearch.Requested | src/pages/search/HotelsSearch.jsx:28-29 | `q` iff the name is truthy, `address.country` iff the country is truthy |
| HotelsSearch.UrlCarriesQuery | src/pages/search/HotelsSearch.jsx:26-30 | the request URL carries exactly the query's truthy fields |
| HotelsSearch.OnOpen | src/pages/search/HotelsSearch.jsx:12-20 | results passed along are shown; else a query with a truthy name or country is fetched; else all hotels are fetched |
| HotelsSearch.NavbarResultsShown | src/pages/search/HotelsSearch.jsx:13-14 | results sent by the search bar as a list are shown without a request |
| HotelsSearch.SearchPage.constructor | src/pages/search/HotelsSearch.jsx:8-10 | no hotels, not loading, no error |
| HotelsSearch.SearchPage.FetchHotels | src/pages/search/HotelsSearch.jsx:22-39 | the URL is HotelsUrl of the query; success shows the data, failure no hotels and "Failed to fetch hotels"; loading off either way |
| HotelsSearch.SearchPage.Open | src/pages/search/HotelsSearch.jsx:12-20 | passed results are shown without a request; otherwise the query, or everything, is fetched |

## Left out

- HTTP and the axios client: every request's outcome is a parameter (`Option`, `None` for a failed request).
- The JSON round trip through local storage is not modelled: NaN stored as null, undefined keys dropped, parse errors. The stored list is kept as the list it parses to.
- Time zones, `new Date(text)` parsing and `toLocaleDateString`: a picked date is its text together with its midnight in milliseconds, and "now" is a parameter.
- `Date.now()` ids and ISO timestamps are parameters.
- React rendering, effect timing and re-renders are not modelled. Nor are the user-prefill effect of the booking page (BookingDetails.jsx:48-56), the two-second redirect after a booking, the redirect home after a failed hotel fetch, and the form's `reset()`.
- Numbers are exact reals, so floating-point rounding is not modelled. `String(x)` writes at most 20 fractional digits, and the model has no exponent notation.
- Js.ToNumber: a string, or an array through its string form, converts only when it is plain decimal digits (`[]` and `""` give 0, `[7]` gives 7). Anything else gives `None` (NaN) in the model, so signs, decimal points and surrounding whitespace are not parsed, and `[-3]` or `[1.5]` give NaN where JavaScript gives -3 and 1.5.
- BookingForm.ParseInt: leading whitespace and a sign are not skipped as `parseInt` does.
- BookingDetails.BookingDetailsPage.OnHotelFetched: models the first fetch only (it requires that no hotel is loaded yet), since a refetch only happens when the route id changes.
- BookingDetails.BookingDetailsPage.OnSubmit: requires a loaded hotel, since the form is shown only once one is.
- The auth-token restore at start-up (App.jsx) is not part of this model.
- Navbar.Sort: compares strings by code point, where `Array.prototype.sort` compares UTF-16 code units. The two differ only for characters outside the Basic Multilingual Plane.
- Js.StrictEquals: compares arrays and objects by value, where `===` compares object identity. Values carry no identity in this model. The booking ids the source creates are strings (src/components/booking/BookingForm.jsx:34), and for strings and numbers the two agree.
- BookingSlice.ReplaceFirst, BookingSlice.RemoveById, BookingSlice.BookingStore.UpdateBooking, BookingSlice.BookingStore.RemoveBooking and BookingsPage.UserBookings: match ids with Js.StrictEquals, so an object or array id would match an equal copy that `===` tells apart.
- BookingForm.Submit: the two dispatch histories record the order within `setLoading` and within `setError`, not their interleaving with each other or with `addBooking`.
- Navbar.Distinct: compares values structurally, where a `Set` keeps distinct object identities apart.
- Navbar.NavbarState.HandleSearch: returns the parameter map. The model does not show how axios writes it into the URL.
- Uri.Decode is written as a strict `decodeURIComponent`. The model does not describe how a server parses URLs that were not built by `Uri.Encode`.
- The presentational components are not modelled: the sidebar, the not-found page, the buttons, the service icons, the search inputs, the home page's slider and the store setup.

## Findings

| source | as written | input that shows it | evidently intended | confidence | as-written member | corrected member |
|---|---|---|---|---|---|---|
| src/components/search/SearchForm.jsx:45-51 | the picked day, read as its midnight, must not be before the current instant, so today is rejected after midnight (also src/components/booking/BookingForm.jsx:82-86) | `Picked("2025-10-11", 1760140800000)` at now = 1760184000000 (noon UTC of that day) | "today or later": the picked day may not start before today does | not executed | SearchForm.TodayAtNoonRejectedAsWritten | SearchForm.CheckInTodayNotYesterday |
| src/components/cards/HotelCard.jsx:5-17 | `typeof null === 'object'`, so a null rating reaches `rating.score` and throws a TypeError (the same helpers at src/pages/hotel-details/HotelDetails.jsx:56-68) | a hotel with `rating: null` | a null rating gets the defaults 0 and 5 | not executed | HotelCard.NullRatingThrows | HotelCard.RatingCorrectionAgrees |
