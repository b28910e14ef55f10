/** The recommended-hotel card: every field it shows falls back to a default
    when the hotel data lacks it or has the wrong type. */
module RecommendedCard {
  import opened Js
  import opened Display

  const RecommendedPlaceholder := "https://via.placeholder.com/120x80?text=No+Image"

  /** The location: `hotel?.location || hotel?.address?.city` as text, with
      "Location not available" when that is neither a string nor a number. */
  function Location(hotel: JsValue): (text: string)
    ensures Truthy(OptGet(hotel, "location")) ==>
      text == SafeString(OptGet(hotel, "location"), "Location not available")
    ensures !Truthy(OptGet(hotel, "location")) ==>
      text == SafeString(OptGet(OptGet(hotel, "address"), "city"), "Location not available")
  {
    SafeString(Or(OptGet(hotel, "location"), OptGet(OptGet(hotel, "address"), "city")), "Location not available")
  }

  /** A missing hotel, or one with neither a location nor a city, shows the
      fallback; an empty location gives way to the city. */
  lemma LocationFallbacks(city: string)
    ensures Location(Null) == "Location not available"
    ensures Location(Obj(map[])) == "Location not available"
    ensures Location(Obj(map["location" := Str(""), "address" := Obj(map["city" := Str(city)])])) == city
  {
  }

  /** The name, with "Hotel Name" unless it is a string or a number. */
  function Name(hotel: JsValue): (text: string)
    ensures OptGet(hotel, "name").Str? ==> text == OptGet(hotel, "name").s
    ensures IsNumber(OptGet(hotel, "name")) ==> text == ToJsString(OptGet(hotel, "name"))
    ensures !IsNumber(OptGet(hotel, "name")) && !OptGet(hotel, "name").Str? ==> text == "Hotel Name"
  {
    SafeString(OptGet(hotel, "name"), "Hotel Name")
  }

  /** The price: `hotel.price` when it is a number, else 0. */
  function Price(hotel: JsValue): (p: JsValue)
    ensures IsNumber(p)
    ensures IsNumber(OptGet(hotel, "price")) ==> p == OptGet(hotel, "price")
    ensures !IsNumber(OptGet(hotel, "price")) ==> p == Num(0.0)
  {
    if IsNumber(OptGet(hotel, "price")) then OptGet(hotel, "price") else Num(0.0)
  }

  /** The image, with the small placeholder as the last resort. */
  function Image(hotel: JsValue): (src: JsValue)
    ensures Truthy(src)
    ensures Truthy(OptGet(OptGet(hotel, "images"), "main")) ==> src == OptGet(OptGet(hotel, "images"), "main")
    ensures !Truthy(OptGet(OptGet(hotel, "images"), "main")) && Truthy(OptGet(hotel, "image")) ==>
      src == OptGet(hotel, "image")
    ensures !Truthy(OptGet(OptGet(hotel, "images"), "main")) && !Truthy(OptGet(hotel, "image")) ==>
      src == Str(RecommendedPlaceholder)
  {
    ImageSourceAlwaysShown(hotel, RecommendedPlaceholder);
    ImageSource(hotel, RecommendedPlaceholder)
  }
}
