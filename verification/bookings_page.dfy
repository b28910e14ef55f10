/** The "My Bookings" page: it loads the signed-in user's bookings from
    local storage into the booking store and shows each booking's name,
    status, room type and price. */
module BookingsPage {
  import opened Optional
  import opened Js
  import opened Seqs
  import opened Display
  import opened BookingSlice

  /** `booking => booking.userId === userId` */
  function BelongsTo(userId: JsValue): JsObject -> bool {
    b => StrictEquals(Get(b, "userId"), userId)
  }

  /** The bookings of one user, in stored order. */
  function UserBookings(all: seq<JsObject>, userId: JsValue): (mine: seq<JsObject>)
    ensures forall b :: b in mine ==> StrictEquals(Get(b, "userId"), userId)
    ensures |mine| <= |all|
  {
    Filter(all, BelongsTo(userId))
  }

  /** Exactly the stored bookings carrying the user's id are shown. */
  lemma UserBookingsExactly(all: seq<JsObject>, userId: JsValue)
    ensures forall b :: b in UserBookings(all, userId) <==> b in all && StrictEquals(Get(b, "userId"), userId)
  {
    forall b
      ensures b in UserBookings(all, userId) <==> b in all && StrictEquals(Get(b, "userId"), userId)
    {
      FilterMembership(all, BelongsTo(userId), b);
    }
  }

  /** Bookings added later for a user follow the earlier ones. */
  lemma UserBookingsOfAppend(all: seq<JsObject>, more: seq<JsObject>, userId: JsValue)
    ensures UserBookings(all + more, userId) == UserBookings(all, userId) + UserBookings(more, userId)
  {
    FilterAppend(all, more, BelongsTo(userId));
  }

  /** The fetch effect: only with a signed-in (truthy) user, loading on, the
      user's bookings loaded from storage, loading off. Without a user nothing
      happens. */
  method FetchBookings(store: BookingStore, user: JsValue)
    modifies store`loading, store`loadingHistory, store`bookings
    ensures Truthy(user) ==>
      store.bookings == UserBookings(store.storage.bookings, OptGet(user, "id")) && !store.loading &&
      store.loadingHistory == old(store.loadingHistory) + [true, false]
    ensures !Truthy(user) ==>
      store.bookings == old(store.bookings) && store.loading == old(store.loading) &&
      store.loadingHistory == old(store.loadingHistory)
    ensures store.currentBooking == old(store.currentBooking) && store.error == old(store.error)
  {
    if Truthy(user) {
      store.SetLoading(true);
      var allBookings := store.storage.bookings;
      var userBookings := UserBookings(allBookings, OptGet(user, "id"));
      store.LoadBookingsFromStorage(userBookings);
      store.SetLoading(false);
    }
  }

  /** `getStatusColor`: the badge classes for a booking status. */
  function StatusColor(status: JsValue): (classes: string)
    ensures status == Str("confirmed") ==> classes == "bg-green-100 text-green-800"
    ensures status == Str("pending") ==> classes == "bg-yellow-100 text-yellow-800"
    ensures status == Str("cancelled") ==> classes == "bg-red-100 text-red-800"
    ensures status !in {Str("confirmed"), Str("pending"), Str("cancelled")} ==> classes == "bg-gray-100 text-gray-800"
  {
    if StrictEquals(status, Str("confirmed")) then "bg-green-100 text-green-800"
    else if StrictEquals(status, Str("pending")) then "bg-yellow-100 text-yellow-800"
    else if StrictEquals(status, Str("cancelled")) then "bg-red-100 text-red-800"
    else "bg-gray-100 text-gray-800"
  }

  /** The total shown for a booking: "$" and the number's JavaScript text
      when the stored total is a number (NaN included), "$N/A" otherwise. */
  function TotalPriceText(totalPrice: JsValue): (text: string)
    ensures !IsNumber(totalPrice) ==> text == "$N/A"
    ensures IsNumber(totalPrice) ==> text == "$" + ToJsString(totalPrice)
    ensures totalPrice.NaN? ==> text == "$NaN"
    ensures totalPrice.Num? && totalPrice.n == totalPrice.n.Floor as real ==>
      text == "$" + IntToDecimal(totalPrice.n.Floor)
  {
    "$" + (if IsNumber(totalPrice) then ToJsString(totalPrice) else "N/A")
  }

  /** What a booking card shows. */
  datatype BookingCard = BookingCard(hotelName: string, status: string, statusColor: string,
                                     roomType: string, total: string)

  function Card(booking: JsObject): (card: BookingCard)
    ensures card.hotelName == SafeString(OptGet(Get(booking, "hotel"), "name"), "Hotel Name")
    ensures card.status == SafeString(Get(booking, "status"), "unknown")
    ensures card.roomType == SafeString(Get(booking, "roomType"), "standard")
    ensures card.statusColor == StatusColor(Get(booking, "status"))
    ensures card.total == TotalPriceText(Get(booking, "totalPrice"))
  {
    BookingCard(
      SafeString(OptGet(Get(booking, "hotel"), "name"), "Hotel Name"),
      SafeString(Get(booking, "status"), "unknown"),
      StatusColor(Get(booking, "status")),
      SafeString(Get(booking, "roomType"), "standard"),
      TotalPriceText(Get(booking, "totalPrice")))
  }

  /** A booking made on the booking page (status "confirmed", no embedded
      hotel, no room type) shows green, the default name and room type. */
  lemma ConfirmedBookingCard(booking: JsObject)
    requires Get(booking, "status") == Str("confirmed")
    requires "hotel" !in booking && "roomType" !in booking
    ensures Card(booking).statusColor == "bg-green-100 text-green-800"
    ensures Card(booking).status == "confirmed"
    ensures Card(booking).hotelName == "Hotel Name" && Card(booking).roomType == "standard"
  {
  }
}
