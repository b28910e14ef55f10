/** The `hotel` slice of the Redux store: the hotel lists fetched for the home,
    search and details pages, the selected hotel, a bookings list, and the
    loading and error flags. Every reducer replaces one field, except
    `addBooking`, which appends to `bookings`. */
module HotelSlice {
  import opened Optional
  import opened Js

  class HotelStore {
    var hotels: seq<JsValue>
    var bestOffers: seq<JsValue>
    var recommendedHotels: seq<JsValue>
    var selectedHotel: JsValue
    var bookings: seq<JsValue>
    var loading: bool
    var error: Option<string>

    /** `initialState`: empty lists, nothing selected, not loading, no error. */
    constructor ()
      ensures hotels == [] && bestOffers == [] && recommendedHotels == [] && bookings == []
      ensures selectedHotel == Null && !loading && error == None
    {
      hotels := [];
      bestOffers := [];
      recommendedHotels := [];
      selectedHotel := Null;
      bookings := [];
      loading := false;
      error := None;
    }

    method SetHotels(payload: seq<JsValue>)
      modifies this`hotels
      ensures hotels == payload
      ensures bestOffers == old(bestOffers) && recommendedHotels == old(recommendedHotels)
      ensures selectedHotel == old(selectedHotel) && bookings == old(bookings)
      ensures loading == old(loading) && error == old(error)
    {
      hotels := payload;
    }

    method SetBestOffers(payload: seq<JsValue>)
      modifies this`bestOffers
      ensures bestOffers == payload
      ensures hotels == old(hotels) && recommendedHotels == old(recommendedHotels)
      ensures selectedHotel == old(selectedHotel) && bookings == old(bookings)
      ensures loading == old(loading) && error == old(error)
    {
      bestOffers := payload;
    }

    method SetRecommendedHotels(payload: seq<JsValue>)
      modifies this`recommendedHotels
      ensures recommendedHotels == payload
      ensures hotels == old(hotels) && bestOffers == old(bestOffers)
      ensures selectedHotel == old(selectedHotel) && bookings == old(bookings)
      ensures loading == old(loading) && error == old(error)
    {
      recommendedHotels := payload;
    }

    method SetSelectedHotel(payload: JsValue)
      modifies this`selectedHotel
      ensures selectedHotel == payload
      ensures hotels == old(hotels) && bestOffers == old(bestOffers)
      ensures recommendedHotels == old(recommendedHotels) && bookings == old(bookings)
      ensures loading == old(loading) && error == old(error)
    {
      selectedHotel := payload;
    }

    method SetBookings(payload: seq<JsValue>)
      modifies this`bookings
      ensures bookings == payload
      ensures hotels == old(hotels) && bestOffers == old(bestOffers)
      ensures recommendedHotels == old(recommendedHotels) && selectedHotel == old(selectedHotel)
      ensures loading == old(loading) && error == old(error)
    {
      bookings := payload;
    }

    /** Appends the payload to `bookings`; nothing else changes. */
    method AddBooking(payload: JsValue)
      modifies this`bookings
      ensures bookings == old(bookings) + [payload]
      ensures |bookings| == |old(bookings)| + 1
      ensures forall i :: 0 <= i < |old(bookings)| ==> bookings[i] == old(bookings)[i]
      ensures hotels == old(hotels) && bestOffers == old(bestOffers)
      ensures recommendedHotels == old(recommendedHotels) && selectedHotel == old(selectedHotel)
      ensures loading == old(loading) && error == old(error)
    {
      bookings := bookings + [payload];
    }

    method SetLoading(payload: bool)
      modifies this`loading
      ensures loading == payload
      ensures hotels == old(hotels) && bestOffers == old(bestOffers)
      ensures recommendedHotels == old(recommendedHotels) && selectedHotel == old(selectedHotel)
      ensures bookings == old(bookings) && error == old(error)
    {
      loading := payload;
    }

    method SetError(payload: Option<string>)
      modifies this`error
      ensures error == payload
      ensures hotels == old(hotels) && bestOffers == old(bestOffers)
      ensures recommendedHotels == old(recommendedHotels) && selectedHotel == old(selectedHotel)
      ensures bookings == old(bookings) && loading == old(loading)
    {
      error := payload;
    }
  }

  /** `setBookings(xs)` followed by `addBooking(b)` leaves exactly `xs + [b]`. */
  method SetThenAddBooking(store: HotelStore, xs: seq<JsValue>, b: JsValue)
    modifies store
    ensures store.bookings == xs + [b]
    ensures store.hotels == old(store.hotels) && store.selectedHotel == old(store.selectedHotel)
  {
    store.SetBookings(xs);
    store.AddBooking(b);
  }
}
