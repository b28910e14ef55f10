/** The `booking` slice of the Redux store: the bookings on screen, the booking
    being viewed, and the loading and error flags. `addBooking`,
    `updateBooking` and `removeBooking` also rewrite the `bookings` list kept in
    local storage, so the two lists are updated side by side. */
module BookingSlice {
  import opened Optional
  import opened Js
  import opened Seqs
  import opened Storage

  /** `booking.id` */
  function IdOf(booking: JsObject): JsValue {
    Get(booking, "id")
  }

  /** `booking => booking.id === id` */
  function HasId(id: JsValue): JsObject -> bool {
    b => StrictEquals(IdOf(b), id)
  }

  /** `booking => booking.id !== id` */
  function LacksId(id: JsValue): JsObject -> bool {
    b => !StrictEquals(IdOf(b), id)
  }

  /** The list `updateBooking` leaves: the first booking carrying the
      payload's id is replaced by the payload; every other position keeps its
      booking; with no such booking the list is unchanged. */
  function ReplaceFirst(xs: seq<JsObject>, payload: JsObject): (r: seq<JsObject>)
    ensures |r| == |xs|
    ensures (forall j :: 0 <= j < |xs| ==> !HasId(IdOf(payload))(xs[j])) ==> r == xs
    ensures forall j :: 0 <= j < |xs| ==>
      r[j] == xs[j] ||
      (r[j] == payload && HasId(IdOf(payload))(xs[j]) &&
       forall k :: 0 <= k < j ==> !HasId(IdOf(payload))(xs[k]))
  {
    match FindIndex(xs, HasId(IdOf(payload)))
    case None => xs
    case Some(i) => xs[i := payload]
  }

  /** When some booking carries the payload's id, the first such one is
      replaced by the payload and the list is otherwise unchanged. */
  lemma ReplaceFirstHit(xs: seq<JsObject>, payload: JsObject, i: nat)
    requires i < |xs| && HasId(IdOf(payload))(xs[i])
    requires forall k :: 0 <= k < i ==> !HasId(IdOf(payload))(xs[k])
    ensures ReplaceFirst(xs, payload) == xs[i := payload]
  {
    var found := FindIndex(xs, HasId(IdOf(payload)));
    assert found.Some? && found.value <= i;
  }

  /** After `removeBooking(id)` nothing in the list has that id, everything
      else is still there, and removing again changes nothing. */
  lemma RemoveById(xs: seq<JsObject>, id: JsValue)
    ensures forall b :: b in Filter(xs, LacksId(id)) ==> !StrictEquals(IdOf(b), id)
    ensures forall b :: b in xs && !StrictEquals(IdOf(b), id) ==> b in Filter(xs, LacksId(id))
    ensures Filter(Filter(xs, LacksId(id)), LacksId(id)) == Filter(xs, LacksId(id))
  {
    forall b | b in xs && !StrictEquals(IdOf(b), id)
      ensures b in Filter(xs, LacksId(id))
    {
      FilterMembership(xs, LacksId(id), b);
    }
    forall b | b in Filter(xs, LacksId(id))
      ensures !StrictEquals(IdOf(b), id)
    {
      FilterMembership(xs, LacksId(id), b);
    }
    FilterIdempotent(xs, LacksId(id));
  }

  class BookingStore {
    var bookings: seq<JsObject>
    var currentBooking: JsValue
    var loading: bool
    var error: Option<string>
    /** The payloads of the `setLoading` and `setError` actions dispatched
        so far, oldest first. */
    ghost var loadingHistory: seq<bool>
    ghost var errorHistory: seq<Option<string>>
    /** The local storage the reducers write through to. */
    const storage: LocalStorage

    /** `initialState` */
    constructor (storage: LocalStorage)
      ensures bookings == [] && currentBooking == Null && !loading && error == None
      ensures this.storage == storage
      ensures loadingHistory == [] && errorHistory == []
    {
      loadingHistory := [];
      errorHistory := [];
      bookings := [];
      currentBooking := Null;
      loading := false;
      error := None;
      this.storage := storage;
    }

    method SetBookings(payload: seq<JsObject>)
      modifies this`bookings
      ensures bookings == payload
      ensures currentBooking == old(currentBooking) && loading == old(loading) && error == old(error)
    {
      bookings := payload;
    }

    /** Appends to the list on screen and to the stored list. */
    method AddBooking(payload: JsObject)
      modifies this`bookings, storage`bookings
      ensures bookings == old(bookings) + [payload]
      ensures storage.bookings == old(storage.bookings) + [payload]
      ensures currentBooking == old(currentBooking) && loading == old(loading) && error == old(error)
    {
      bookings := bookings + [payload];
      var allBookings := storage.bookings;
      allBookings := allBookings + [payload];
      storage.bookings := allBookings;
    }

    /** Replaces the first booking with the payload's id; the stored list is
        rewritten only when the id is found in the list on screen and in the
        stored list. */
    method UpdateBooking(payload: JsObject)
      modifies this`bookings, storage`bookings
      ensures bookings == ReplaceFirst(old(bookings), payload)
      ensures storage.bookings ==
        if FindIndex(old(bookings), HasId(IdOf(payload))).Some?
        then ReplaceFirst(old(storage.bookings), payload)
        else old(storage.bookings)
      ensures currentBooking == old(currentBooking) && loading == old(loading) && error == old(error)
    {
      var index := FindIndex(bookings, HasId(IdOf(payload)));
      if index.Some? {
        bookings := bookings[index.value := payload];
        var allBookings := storage.bookings;
        var bookingIndex := FindIndex(allBookings, HasId(IdOf(payload)));
        if bookingIndex.Some? {
          allBookings := allBookings[bookingIndex.value := payload];
          storage.bookings := allBookings;
        }
      }
    }

    /** Drops every booking with the given id, on screen and in storage. */
    method RemoveBooking(id: JsValue)
      modifies this`bookings, storage`bookings
      ensures bookings == Filter(old(bookings), LacksId(id))
      ensures storage.bookings == Filter(old(storage.bookings), LacksId(id))
      ensures currentBooking == old(currentBooking) && loading == old(loading) && error == old(error)
    {
      bookings := Filter(bookings, LacksId(id));
      var allBookings := storage.bookings;
      var filteredBookings := Filter(allBookings, LacksId(id));
      storage.bookings := filteredBookings;
    }

    method SetCurrentBooking(payload: JsValue)
      modifies this`currentBooking
      ensures currentBooking == payload
      ensures bookings == old(bookings) && loading == old(loading) && error == old(error)
    {
      currentBooking := payload;
    }

    method SetLoading(payload: bool)
      modifies this`loading, this`loadingHistory
      ensures loading == payload
      ensures loadingHistory == old(loadingHistory) + [payload]
      ensures bookings == old(bookings) && currentBooking == old(currentBooking) && error == old(error)
    {
      loading := payload;
      loadingHistory := loadingHistory + [payload];
    }

    method SetError(payload: Option<string>)
      modifies this`error, this`errorHistory
      ensures error == payload
      ensures errorHistory == old(errorHistory) + [payload]
      ensures bookings == old(bookings) && currentBooking == old(currentBooking) && loading == old(loading)
    {
      error := payload;
      errorHistory := errorHistory + [payload];
    }

    /** Empties the list on screen and clears the current booking and the
        error; `loading` and the stored list are left alone. */
    method ClearBookings()
      modifies this`bookings, this`currentBooking, this`error
      ensures bookings == [] && currentBooking == Null && error == None
      ensures loading == old(loading)
    {
      bookings := [];
      currentBooking := Null;
      error := None;
    }

    method LoadBookingsFromStorage(payload: seq<JsObject>)
      modifies this`bookings
      ensures bookings == payload
      ensures currentBooking == old(currentBooking) && loading == old(loading) && error == old(error)
    {
      bookings := payload;
    }
  }
}
