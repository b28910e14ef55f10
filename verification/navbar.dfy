/** The navigation bar's search: the list of countries offered (distinct,
    sorted), clearing the search fields, and running a search, which builds
    the request parameters and either passes the results on to the results
    page or shows an error. */
module Navbar {
  import opened Optional
  import opened Js
  import opened Seqs

  const SearchFailedMessage := "No results found or error fetching data."

  // ---- string order --------------------------------------------------------

  /** Lexicographic order on strings, character by character. */
  predicate StrLe(a: string, b: string)
    decreases |a|
  {
    |a| == 0 || (|b| > 0 && (a[0] < b[0] || (a[0] == b[0] && StrLe(a[1..], b[1..]))))
  }

  lemma {:induction false} StrLeTotal(a: string, b: string)
    ensures StrLe(a, b) || StrLe(b, a)
    decreases |a|
  {
    if |a| > 0 && |b| > 0 && a[0] == b[0] {
      StrLeTotal(a[1..], b[1..]);
    }
  }

  lemma {:induction false} StrLeTransitive(a: string, b: string, c: string)
    requires StrLe(a, b) && StrLe(b, c)
    ensures StrLe(a, c)
    decreases |a|
  {
    if |a| > 0 && a[0] == b[0] && b[0] == c[0] {
      StrLeTransitive(a[1..], b[1..], c[1..]);
    }
  }

  /** The key `Array.prototype.sort` compares by default: the string form. */
  function Key(v: JsValue): string {
    ToJsString(v)
  }

  predicate Sorted(xs: seq<JsValue>) {
    forall i, j :: 0 <= i < j < |xs| ==> StrLe(Key(xs[i]), Key(xs[j]))
  }

  /** A head whose key is not greater than any key of a sorted list keeps
      the list sorted. */
  lemma ConsSorted(h: JsValue, xs: seq<JsValue>)
    requires Sorted(xs)
    requires forall j :: 0 <= j < |xs| ==> StrLe(Key(h), Key(xs[j]))
    ensures Sorted([h] + xs)
  {
    var r := [h] + xs;
    forall j | 0 < j < |r|
      ensures StrLe(Key(r[0]), Key(r[j]))
    {
      assert r[j] == xs[j - 1];
    }
    forall i, j | 0 < i < j < |r|
      ensures StrLe(Key(r[i]), Key(r[j]))
    {
      assert r[i] == xs[i - 1] && r[j] == xs[j - 1];
    }
  }

  /** x goes in front of a sorted list whose head has a greater key. */
  lemma InsertBeforeHead(x: JsValue, xs: seq<JsValue>)
    requires Sorted(xs) && xs != [] && !StrLe(Key(xs[0]), Key(x))
    ensures Sorted([x] + xs)
  {
    StrLeTotal(Key(xs[0]), Key(x));
    forall j | 0 <= j < |xs|
      ensures StrLe(Key(x), Key(xs[j]))
    {
      if j > 0 {
        StrLeTransitive(Key(x), Key(xs[0]), Key(xs[j]));
      }
    }
    ConsSorted(x, xs);
  }

  /** Every element of a permutation of the tail plus x has a key not less
      than the head's, when x's is not less either. */
  lemma HeadBelowAll(x: JsValue, xs: seq<JsValue>, rest: seq<JsValue>)
    requires Sorted(xs) && xs != [] && StrLe(Key(xs[0]), Key(x))
    requires multiset(rest) == multiset(xs[1..]) + multiset{x}
    ensures forall j :: 0 <= j < |rest| ==> StrLe(Key(xs[0]), Key(rest[j]))
  {
    forall j | 0 <= j < |rest|
      ensures StrLe(Key(xs[0]), Key(rest[j]))
    {
      var v := rest[j];
      assert v in multiset(rest);
      if v != x {
        assert v in multiset(xs[1..]);
        var k :| 0 <= k < |xs[1..]| && xs[1..][k] == v;
        assert xs[k + 1] == v;
      }
    }
  }

  /** Inserts x after every element whose key is not greater than its own. */
  function Insert(x: JsValue, xs: seq<JsValue>): (r: seq<JsValue>)
    requires Sorted(xs)
    ensures Sorted(r)
    ensures multiset(r) == multiset(xs) + multiset{x}
  {
    if xs == [] then [x]
    else if !StrLe(Key(xs[0]), Key(x)) then
      InsertBeforeHead(x, xs);
      assert multiset([x] + xs) == multiset{x} + multiset(xs);
      [x] + xs
    else
      assert xs == [xs[0]] + xs[1..];
      var rest := Insert(x, xs[1..]);
      HeadBelowAll(x, xs, rest);
      ConsSorted(xs[0], rest);
      assert multiset([xs[0]] + rest) == multiset{xs[0]} + multiset(rest);
      [xs[0]] + rest
  }

  /** `xs.sort()`: insertion sort by the string form. */
  function Sort(xs: seq<JsValue>): (r: seq<JsValue>)
    ensures Sorted(r)
    ensures multiset(r) == multiset(xs)
  {
    if xs == [] then []
    else
      assert xs == xs[..|xs| - 1] + [xs[|xs| - 1]];
      Insert(xs[|xs| - 1], Sort(xs[..|xs| - 1]))
  }

  // ---- distinct values -----------------------------------------------------

  predicate NoDuplicates(xs: seq<JsValue>) {
    forall i, j :: 0 <= i < j < |xs| ==> xs[i] != xs[j]
  }

  /** `[...new Set(xs)]`: each value once, at its first occurrence. */
  function Distinct(xs: seq<JsValue>): (r: seq<JsValue>)
    ensures NoDuplicates(r)
    ensures forall v :: v in r <==> v in xs
  {
    if xs == [] then []
    else
      var d := Distinct(xs[..|xs| - 1]);
      assert forall v :: v in xs <==> v in xs[..|xs| - 1] || v == xs[|xs| - 1];
      if xs[|xs| - 1] in d then d else d + [xs[|xs| - 1]]
  }

  /** A list without duplicates keeps that property through a permutation. */
  lemma {:induction false} PermutationKeepsNoDuplicates(xs: seq<JsValue>, ys: seq<JsValue>)
    requires NoDuplicates(xs) && multiset(xs) == multiset(ys)
    ensures NoDuplicates(ys)
  {
    forall i, j | 0 <= i < j < |ys|
      ensures ys[i] != ys[j]
    {
      if ys[i] == ys[j] {
        assert multiset(ys)[ys[i]] >= 2 by {
          var without := ys[..i] + ys[i + 1..];
          assert ys == ys[..i] + [ys[i]] + ys[i + 1..];
          assert ys[j] in without by {
            assert without[j - 1] == ys[j];
          }
          assert multiset(ys) == multiset(without) + multiset{ys[i]};
        }
        NoDuplicatesCountsOne(xs, ys[i]);
      }
    }
  }

  lemma {:induction false} NoDuplicatesCountsOne(xs: seq<JsValue>, v: JsValue)
    requires NoDuplicates(xs)
    ensures multiset(xs)[v] <= 1
  {
    if xs != [] {
      var init := xs[..|xs| - 1];
      assert xs == init + [xs[|xs| - 1]];
      NoDuplicatesCountsOne(init, v);
      if v == xs[|xs| - 1] {
        assert v !in init;
      }
    }
  }

  // ---- the country list ----------------------------------------------------

  /** `hotel.address?.country` */
  function CountryOf(hotel: JsValue): JsValue {
    OptGet(OptGet(hotel, "address"), "country")
  }

  /** The countries of the hotels, in hotel order. */
  function AllCountries(hotels: seq<JsValue>): (all: seq<JsValue>)
    ensures forall c :: c in all <==> exists i :: 0 <= i < |hotels| && c == CountryOf(hotels[i])
  {
    var all := seq(|hotels|, i requires 0 <= i < |hotels| => CountryOf(hotels[i]));
    assert forall i :: 0 <= i < |hotels| ==> all[i] == CountryOf(hotels[i]);
    all
  }

  /** The pipeline `filter(Boolean)`, `new Set`, `sort()`. */
  function SortedDistinctTruthy(all: seq<JsValue>): (r: seq<JsValue>)
    ensures Sorted(r) && NoDuplicates(r)
    ensures forall c :: c in r <==> c in all && Truthy(c)
  {
    var distinct := Distinct(Filter(all, Truthy));
    var sorted := Sort(distinct);
    PermutationKeepsNoDuplicates(distinct, sorted);
    forall c
      ensures c in sorted <==> c in all && Truthy(c)
    {
      assert c in sorted <==> c in multiset(distinct);
      FilterMembership(all, Truthy, c);
    }
    sorted
  }

  /** The countries offered: the truthy countries of the fetched hotels,
      each once, sorted. `None` when the response is not a list or holds a
      `null` or `undefined` hotel (reading `.address` throws), in which case
      the list is left as it was. */
  function Countries(response: JsValue): (countries: Option<seq<JsValue>>)
    ensures countries.Some? <==> response.Arr? && forall i :: 0 <= i < |response.items| ==> !Nullish(response.items[i])
    ensures countries.Some? ==> Sorted(countries.value) && NoDuplicates(countries.value)
    ensures countries.Some? ==> forall c :: c in countries.value <==>
      Truthy(c) && exists i :: 0 <= i < |response.items| && c == CountryOf(response.items[i])
  {
    if !response.Arr? || exists i :: 0 <= i < |response.items| && Nullish(response.items[i]) then None
    else Some(SortedDistinctTruthy(AllCountries(response.items)))
  }

  // ---- search state --------------------------------------------------------

  /** The request parameters: `q` for a non-empty hotel name and
      `address.country` for a non-empty country, nothing else. */
  function SearchParams(hotelName: string, country: string): (params: map<string, string>)
    ensures "q" in params <==> hotelName != ""
    ensures "q" in params ==> params["q"] == hotelName
    ensures "address.country" in params <==> country != ""
    ensures "address.country" in params ==> params["address.country"] == country
    ensures forall k :: k in params ==> k == "q" || k == "address.country"
  {
    var withName: map<string, string> := if hotelName != "" then map["q" := hotelName] else map[];
    if country != "" then withName["address.country" := country] else withName
  }

  /** What the results page receives: the results and the query typed. */
  datatype SearchState = SearchState(results: JsValue, hotelName: string, country: string, date: string)

  class NavbarState {
    var hotelName: string
    var country: string
    var date: string
    var searchError: string
    var availableCountries: seq<JsValue>

    /** Empty fields, no error, no countries yet. */
    constructor ()
      ensures hotelName == "" && country == "" && date == "" && searchError == ""
      ensures availableCountries == []
    {
      hotelName := "";
      country := "";
      date := "";
      searchError := "";
      availableCountries := [];
    }

    /** The countries effect: the list computed from the response, kept as
        it was when the request fails (`None`) or the list cannot be built. */
    method LoadCountries(response: Option<JsValue>)
      modifies this`availableCountries
      ensures response.Some? && Countries(response.value).Some? ==>
        availableCountries == Countries(response.value).value
      ensures !(response.Some? && Countries(response.value).Some?) ==>
        availableCountries == old(availableCountries)
    {
      if response.Some? {
        var countries := Countries(response.value);
        if countries.Some? {
          availableCountries := countries.value;
        }
      }
    }

    /** `handleClear`: the three fields and the error are emptied. */
    method HandleClear()
      modifies this`hotelName, this`country, this`date, this`searchError
      ensures hotelName == "" && country == "" && date == "" && searchError == ""
    {
      hotelName := "";
      country := "";
      date := "";
      searchError := "";
    }

    /** `handleSearch`: the error is cleared, the request is made with the
        parameters (returned as `params`), and its outcome (`None` for a
        failed request) either goes to the results page with the query, or
        shows the error message. */
    method HandleSearch(outcome: Option<JsValue>) returns (params: map<string, string>, navigateTo: Option<SearchState>)
      modifies this`searchError
      ensures params == SearchParams(hotelName, country)
      ensures outcome.Some? ==>
        navigateTo == Some(SearchState(outcome.value, hotelName, country, date)) && searchError == ""
      ensures outcome.None? ==> navigateTo == None && searchError == SearchFailedMessage
    {
      searchError := "";
      params := map[];
      if hotelName != "" {
        params := params["q" := hotelName];
      }
      if country != "" {
        params := params["address.country" := country];
      }
      if outcome.Some? {
        navigateTo := Some(SearchState(outcome.value, hotelName, country, date));
      } else {
        searchError := SearchFailedMessage;
        navigateTo := None;
      }
    }
  }
}
