/** The search results page: what it does with the navigation state it is
    opened with, the request URL it builds from a query, and its hotels,
    loading flag and error message. */
module HotelsSearch {
  import opened Optional
  import opened Js
  import Uri
  import Navbar

  const FetchFailedMessage := "Failed to fetch hotels"

  // ---- the request URL -----------------------------------------------------

  /** A field's value as the text sent, when it is truthy. */
  function Given(v: JsValue): (text: Option<string>)
    ensures text.Some? <==> Truthy(v)
  {
    if Truthy(v) then Some(ToJsString(v)) else None
  }

  /** The `name=encoded` piece for a given value, none otherwise. */
  function Piece(name: string, value: Option<string>): (pieces: seq<string>)
    ensures |pieces| <= 1
  {
    if value.Some? then [name + "=" + Uri.Encode(value.value)] else []
  }

  /** The URL for a hotel name and a country: "/hotels", with "?" and the
      `q` and `address.country` pieces, in that order, joined by "&" when
      there are any. */
  function UrlFor(name: Option<string>, country: Option<string>): (url: string)
    ensures url == "/hotels" <==> name.None? && country.None?
  {
    var parts := Piece("q", name) + Piece("address.country", country);
    if |parts| > 0 then
      assert |"/hotels?" + Join(parts, "&")| > |"/hotels"|;
      "/hotels?" + Join(parts, "&")
    else "/hotels"
  }

  /** The query pieces come in a fixed order, `q` first. */
  lemma UrlShape(name: Option<string>, country: Option<string>)
    ensures name.Some? && country.Some? ==>
      UrlFor(name, country) ==
      "/hotels?" + ("q" + "=" + Uri.Encode(name.value)) + "&" + ("address.country" + "=" + Uri.Encode(country.value))
    ensures name.Some? && country.None? ==> UrlFor(name, country) == "/hotels?" + ("q" + "=" + Uri.Encode(name.value))
    ensures name.None? && country.Some? ==>
      UrlFor(name, country) == "/hotels?" + ("address.country" + "=" + Uri.Encode(country.value))
  {
    if name.Some? && country.Some? {
      var first := "q" + "=" + Uri.Encode(name.value);
      var second := "address.country" + "=" + Uri.Encode(country.value);
      assert Piece("q", name) + Piece("address.country", country) == [first, second];
      assert Join([first, second], "&") == first + "&" + second;
    } else if name.Some? {
      assert Piece("q", name) + Piece("address.country", country) == ["q" + "=" + Uri.Encode(name.value)];
    } else if country.Some? {
      assert Piece("q", name) + Piece("address.country", country) ==
        ["address.country" + "=" + Uri.Encode(country.value)];
    }
  }

  /** `fetchHotels`' URL, from the query's `hotelName` and `country`. */
  function HotelsUrl(params: JsValue): (url: string)
    ensures url == "/hotels" <==> !Truthy(OptGet(params, "hotelName")) && !Truthy(OptGet(params, "country"))
  {
    UrlFor(Given(OptGet(params, "hotelName")), Given(OptGet(params, "country")))
  }

  // ---- reading a URL back --------------------------------------------------

  /** The first position of c in s. */
  function IndexOf(s: string, c: char): (i: Option<nat>)
    ensures i.Some? ==> i.value < |s| && s[i.value] == c && c !in s[..i.value]
    ensures i.None? ==> c !in s
  {
    if s == [] then None
    else if s[0] == c then Some(0)
    else
      match IndexOf(s[1..], c)
      case Some(j) =>
        assert s[..j + 1] == [s[0]] + s[1..][..j];
        Some(j + 1)
      case None => None
  }

  /** s cut at every occurrence of sep. */
  function SplitOn(s: string, sep: char): (parts: seq<string>)
    ensures |parts| >= 1
    decreases |s|
  {
    match IndexOf(s, sep)
    case None => [s]
    case Some(i) => [s[..i]] + SplitOn(s[i + 1..], sep)
  }

  /** A query parameter: its name and its decoded value (`None` when the
      value is not a valid encoding). A piece without '=' has the empty
      value. */
  function ReadParam(piece: string): (param: (string, Option<string>)) {
    match IndexOf(piece, '=')
    case None => (piece, Some(""))
    case Some(i) => (piece[..i], Uri.Decode(piece[i + 1..]))
  }

  /** The parameters of a list of pieces, a later name overriding an
      earlier one; `None` if any value does not decode. */
  function ReadParams(pieces: seq<string>): (params: Option<map<string, string>>) {
    if pieces == [] then Some(map[])
    else
      match ReadParams(pieces[..|pieces| - 1])
      case None => None
      case Some(earlier) =>
        var (name, value) := ReadParam(pieces[|pieces| - 1]);
        if value.None? then None else Some(earlier[name := value.value])
  }

  /** The query parameters of a URL, as a server reads them: everything
      after the first '?', cut at '&', each piece cut at its first '='. */
  function QueryOf(url: string): (params: Option<map<string, string>>) {
    match IndexOf(url, '?')
    case None => Some(map[])
    case Some(i) => ReadParams(SplitOn(url[i + 1..], '&'))
  }

  /** What a hotel name and a country ask the server for: `q` and
      `address.country` exactly for the given ones. */
  function RequestedFor(name: Option<string>, country: Option<string>): (m: map<string, string>)
    ensures "q" in m <==> name.Some?
    ensures "address.country" in m <==> country.Some?
    ensures name.Some? ==> m["q"] == name.value
    ensures country.Some? ==> m["address.country"] == country.value
    ensures forall k :: k in m ==> k == "q" || k == "address.country"
  {
    var withName: map<string, string> := if name.Some? then map["q" := name.value] else map[];
    if country.Some? then withName["address.country" := country.value] else withName
  }

  lemma {:induction false} SplitOnJoin(parts: seq<string>)
    requires |parts| >= 1
    requires forall k :: 0 <= k < |parts| ==> '&' !in parts[k]
    ensures SplitOn(Join(parts, "&"), '&') == parts
  {
    if |parts| > 1 {
      var joined := Join(parts, "&");
      assert joined == parts[0] + "&" + Join(parts[1..], "&");
      assert IndexOf(joined, '&') == Some(|parts[0]|) by {
        assert joined[..|parts[0]|] == parts[0];
        IndexOfFirst(joined, '&', |parts[0]|);
      }
      assert joined[..|parts[0]|] == parts[0];
      assert joined[|parts[0]| + 1..] == Join(parts[1..], "&");
      SplitOnJoin(parts[1..]);
    }
  }

  lemma {:induction false} IndexOfFirst(s: string, c: char, i: nat)
    requires i < |s| && s[i] == c && c !in s[..i]
    ensures IndexOf(s, c) == Some(i)
  {
    if i > 0 {
      assert s[0] in s[..i];
      assert s[1..][..i - 1] == s[..i][1..];
      IndexOfFirst(s[1..], c, i - 1);
    }
  }

  /** A piece `name=encoded` reads back as the name and the value. */
  lemma ReadEncodedParam(name: string, value: string)
    requires '=' !in name
    ensures ReadParam(name + "=" + Uri.Encode(value)) == (name, Some(value))
  {
    var piece := name + "=" + Uri.Encode(value);
    IndexOfFirst(piece, '=', |name|);
    assert piece[..|name|] == name;
    assert piece[|name| + 1..] == Uri.Encode(value);
    Uri.DecodeEncode(value);
  }

  lemma NoSeparatorInPiece(name: string, value: string)
    requires '&' !in name
    ensures '&' !in name + "=" + Uri.Encode(value)
  {
    var encoded := Uri.Encode(value);
    assert '&' !in encoded by {
      forall k | 0 <= k < |encoded|
        ensures encoded[k] != '&'
      {
        assert Uri.IsUnreserved(encoded[k]) || encoded[k] == '%';
      }
    }
    assert '&' !in name + "=";
  }

  /** The path "/hotels?" ends in its only '?'. */
  lemma HotelsPathEndsQuery()
    ensures |"/hotels?"| == 8 && "/hotels?"[7] == '?' && '?' !in "/hotels?"[..7]
  {
  }

  /** After a prefix whose only '?' is its last character, the query is
      read from the rest. */
  lemma QueryAfter(prefix: string, rest: string)
    requires |prefix| >= 1 && prefix[|prefix| - 1] == '?' && '?' !in prefix[..|prefix| - 1]
    ensures QueryOf(prefix + rest) == ReadParams(SplitOn(rest, '&'))
  {
    var url := prefix + rest;
    assert url[..|prefix| - 1] == prefix[..|prefix| - 1];
    IndexOfFirst(url, '?', |prefix| - 1);
    assert url[|prefix|..] == rest;
  }

  /** The query of "/hotels?" and pieces without '&' is read piece by
      piece. */
  lemma QueryOfPieces(pieces: seq<string>)
    requires |pieces| >= 1
    requires forall k :: 0 <= k < |pieces| ==> '&' !in pieces[k]
    ensures QueryOf("/hotels?" + Join(pieces, "&")) == ReadParams(pieces)
  {
    HotelsPathEndsQuery();
    QueryAfter("/hotels?", Join(pieces, "&"));
    SplitOnJoin(pieces);
  }

  /** The piece for a given value reads back as its name and value. */
  lemma PieceReadsBack(name: string, value: string)
    requires name == "q" || name == "address.country"
    ensures '&' !in name + "=" + Uri.Encode(value)
    ensures ReadParam(name + "=" + Uri.Encode(value)) == (name, Some(value))
  {
    NoSeparatorInPiece(name, value);
    ReadEncodedParam(name, value);
  }

  lemma ReadOne(piece: string, name: string, value: string)
    requires ReadParam(piece) == (name, Some(value))
    ensures ReadParams([piece]) == Some(map[name := value])
  {
    assert [piece][..0] == [];
  }

  lemma ReadTwo(first: string, second: string, name1: string, value1: string, name2: string, value2: string)
    requires ReadParam(first) == (name1, Some(value1))
    requires ReadParam(second) == (name2, Some(value2))
    ensures ReadParams([first, second]) == Some(map[name1 := value1][name2 := value2])
  {
    assert [first, second][..1] == [first];
    ReadOne(first, name1, value1);
  }

  lemma OnePieceQuery(name: string, value: string)
    requires name == "q" || name == "address.country"
    ensures QueryOf("/hotels?" + Join([name + "=" + Uri.Encode(value)], "&")) == Some(map[name := value])
  {
    var piece := name + "=" + Uri.Encode(value);
    PieceReadsBack(name, value);
    QueryOfPieces([piece]);
    ReadOne(piece, name, value);
  }

  lemma TwoPieceQuery(name1: string, value1: string, name2: string, value2: string)
    requires name1 == "q" || name1 == "address.country"
    requires name2 == "q" || name2 == "address.country"
    ensures QueryOf("/hotels?" + Join([name1 + "=" + Uri.Encode(value1), name2 + "=" + Uri.Encode(value2)], "&")) ==
      Some(map[name1 := value1][name2 := value2])
  {
    var first := name1 + "=" + Uri.Encode(value1);
    var second := name2 + "=" + Uri.Encode(value2);
    PieceReadsBack(name1, value1);
    PieceReadsBack(name2, value2);
    QueryOfPieces([first, second]);
    ReadTwo(first, second, name1, value1, name2, value2);
  }

  /** The server reads from the URL exactly what was asked for: the hotel
      name as `q` and the country as `address.country`, each only when
      given, with the values decoded back to the text sent. */
  lemma UrlForCarriesQuery(name: Option<string>, country: Option<string>)
    ensures QueryOf(UrlFor(name, country)) == Some(RequestedFor(name, country))
  {
    if name.Some? && country.Some? {
      TwoPieceQuery("q", name.value, "address.country", country.value);
      assert Piece("q", name) + Piece("address.country", country) ==
        ["q" + "=" + Uri.Encode(name.value), "address.country" + "=" + Uri.Encode(country.value)];
    } else if name.Some? {
      OnePieceQuery("q", name.value);
      assert Piece("q", name) + Piece("address.country", country) == ["q" + "=" + Uri.Encode(name.value)];
    } else if country.Some? {
      OnePieceQuery("address.country", country.value);
      assert Piece("q", name) == [];
      assert Piece("q", name) + Piece("address.country", country) == ["address.country" + "=" + Uri.Encode(country.value)];
    } else {
      assert '?' !in UrlFor(name, country);
    }
  }

  /** What a query object asks for: its truthy `hotelName` as `q` and its
      truthy `country` as `address.country`, as text. */
  function Requested(params: JsValue): (m: map<string, string>)
    ensures "q" in m <==> Truthy(OptGet(params, "hotelName"))
    ensures "address.country" in m <==> Truthy(OptGet(params, "country"))
  {
    RequestedFor(Given(OptGet(params, "hotelName")), Given(OptGet(params, "country")))
  }

  /** `fetchHotels`' URL carries exactly the query's truthy fields. */
  lemma UrlCarriesQuery(params: JsValue)
    ensures QueryOf(HotelsUrl(params)) == Some(Requested(params))
  {
    UrlForCarriesQuery(Given(OptGet(params, "hotelName")), Given(OptGet(params, "country")));
  }

  // ---- what the page does when opened --------------------------------------

  /** The three ways the page fills itself. */
  datatype Dispatch = ShowResults(results: JsValue) | FetchQuery(query: JsValue) | FetchAll

  /** The effect on `location.state`: results passed along are shown; else a
      query with a truthy hotel name or country is fetched; else all hotels
      are fetched. */
  function OnOpen(state: JsValue): (d: Dispatch)
    ensures d.ShowResults? <==> Truthy(OptGet(state, "results"))
    ensures d.ShowResults? ==> d.results == OptGet(state, "results")
    ensures d.FetchQuery? ==> d.query == OptGet(state, "query") && Truthy(d.query)
    ensures d.FetchAll? ==> !Truthy(OptGet(OptGet(state, "query"), "hotelName")) &&
                            !Truthy(OptGet(OptGet(state, "query"), "country"))
  {
    var query := OptGet(state, "query");
    if Truthy(OptGet(state, "results")) then ShowResults(OptGet(state, "results"))
    else if Truthy(OptGet(query, "hotelName")) || Truthy(OptGet(query, "country")) then
      FetchQuery(query)
    else FetchAll
  }

  /** The navigation state the search bar sends. */
  function NavbarLocation(s: Navbar.SearchState): JsValue {
    Obj(map["results" := s.results,
            "query" := Obj(map["hotelName" := Str(s.hotelName), "country" := Str(s.country), "date" := Str(s.date)])])
  }

  /** Results the search bar passes along as a list, even an empty one, are
      shown as they are and not fetched again. */
  lemma NavbarResultsShown(s: Navbar.SearchState)
    requires s.results.Arr?
    ensures OnOpen(NavbarLocation(s)) == ShowResults(s.results)
  {
  }

  // ---- page state ----------------------------------------------------------

  class SearchPage {
    var hotels: JsValue
    var loading: bool
    var error: string

    /** No hotels, not loading, no error. */
    constructor ()
      ensures hotels == Arr([]) && !loading && error == ""
    {
      hotels := Arr([]);
      loading := false;
      error := "";
    }

    /** `fetchHotels(params)`: the request goes to `HotelsUrl(params)`
        (returned as `url`); its outcome (`None` for a failed request) is
        shown, or the error with no hotels; loading ends either way. */
    method FetchHotels(params: JsValue, outcome: Option<JsValue>) returns (url: string)
      modifies this
      ensures url == HotelsUrl(params)
      ensures !loading
      ensures outcome.Some? ==> hotels == outcome.value && error == ""
      ensures outcome.None? ==> hotels == Arr([]) && error == FetchFailedMessage
    {
      loading := true;
      error := "";
      url := "/hotels";
      var searchParams: seq<string> := [];
      if Truthy(OptGet(params, "hotelName")) {
        searchParams := searchParams + ["q" + "=" + Uri.Encode(ToJsString(OptGet(params, "hotelName")))];
      }
      if Truthy(OptGet(params, "country")) {
        searchParams := searchParams + ["address.country" + "=" + Uri.Encode(ToJsString(OptGet(params, "country")))];
      }
      assert searchParams == Piece("q", Given(OptGet(params, "hotelName"))) +
                             Piece("address.country", Given(OptGet(params, "country")));
      if |searchParams| > 0 {
        assert url + "?" == "/hotels?";
        url := url + "?" + Join(searchParams, "&");
      }
      if outcome.Some? {
        hotels := outcome.value;
      } else {
        error := FetchFailedMessage;
        hotels := Arr([]);
      }
      loading := false;
    }

    /** The page opened with a navigation state: passed results are shown
        without a request (`url` is `None`); otherwise the query, or nothing,
        is fetched. */
    method Open(state: JsValue, outcome: Option<JsValue>) returns (url: Option<string>)
      modifies this
      ensures OnOpen(state).ShowResults? ==>
        url.None? && hotels == OptGet(state, "results") &&
        loading == old(loading) && error == old(error)
      ensures OnOpen(state).FetchQuery? ==> url == Some(HotelsUrl(OptGet(state, "query")))
      ensures OnOpen(state).FetchAll? ==> url == Some("/hotels")
      ensures !OnOpen(state).ShowResults? ==>
        !loading &&
        (outcome.Some? ==> hotels == outcome.value && error == "") &&
        (outcome.None? ==> hotels == Arr([]) && error == FetchFailedMessage)
    {
      match OnOpen(state)
      case ShowResults(results) =>
        hotels := results;
        url := None;
      case FetchQuery(query) =>
        var u := FetchHotels(query, outcome);
        url := Some(u);
      case FetchAll =>
        var u := FetchHotels(Obj(map[]), outcome);
        url := Some(u);
    }
  }
}
