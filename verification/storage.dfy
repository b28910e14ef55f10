/** The browser's local storage as the application uses it: the `bookings` key,
    held as the list it parses to (a missing key reads as the empty list), and
    the `authToken` key. */
module Storage {
  import opened Optional
  import opened Js

  class LocalStorage {
    var bookings: seq<JsObject>
    var authToken: Option<string>

    constructor ()
      ensures bookings == [] && authToken == None
    {
      bookings := [];
      authToken := None;
    }
  }
}
