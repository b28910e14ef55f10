/** Normalisers the cards and pages share for showing loosely shaped hotel
    and booking data: a value as text with a fallback, and the image to show
    for a hotel. */
module Display {
  import opened Js

  /** `getSafeString(value, fallback)`: a string as it is, a number as its
      decimal text, anything else the fallback. */
  function SafeString(value: JsValue, fallback: string): (s: string)
    ensures value.Str? ==> s == value.s
    ensures IsNumber(value) ==> s == ToJsString(value)
    ensures value.NaN? ==> s == "NaN"
    ensures value.Num? && value.n == value.n.Floor as real ==> s == IntToDecimal(value.n.Floor)
    ensures !IsNumber(value) && !value.Str? ==> s == fallback
  {
    if value.Str? then value.s
    else if IsNumber(value) then ToJsString(value)
    else fallback
  }

  /** The text of a whole, non-negative number reads back as that number. */
  lemma SafeStringOfCount(n: nat, fallback: string)
    ensures AllDigits(SafeString(Num(n as real), fallback))
    ensures ParseNat(SafeString(Num(n as real), fallback)) == n
  {
    ParseNatToDecimal(n);
  }

  /** `hotel?.images?.main || hotel?.image || placeholder`: the main image if
      truthy, else the single image if truthy, else the placeholder. */
  function ImageSource(hotel: JsValue, placeholder: string): (src: JsValue)
    ensures Truthy(OptGet(OptGet(hotel, "images"), "main")) ==> src == OptGet(OptGet(hotel, "images"), "main")
    ensures !Truthy(OptGet(OptGet(hotel, "images"), "main")) && Truthy(OptGet(hotel, "image")) ==>
      src == OptGet(hotel, "image")
    ensures !Truthy(OptGet(OptGet(hotel, "images"), "main")) && !Truthy(OptGet(hotel, "image")) ==>
      src == Str(placeholder)
  {
    Or(Or(OptGet(OptGet(hotel, "images"), "main"), OptGet(hotel, "image")), Str(placeholder))
  }

  /** With a non-empty placeholder, some image is always shown. */
  lemma ImageSourceAlwaysShown(hotel: JsValue, placeholder: string)
    requires placeholder != ""
    ensures Truthy(ImageSource(hotel, placeholder))
  {
  }
}
