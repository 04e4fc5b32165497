/** The ship records and the read-only queries over them: the count, the name
    and country listings, the unique countries, the name search, and the
    record selections behind the two exporters. Each query returns what the
    command would print, as a value. */
module Ships {
  import opened Text

  /** One ship: field name to value. No field is guaranteed to be present. */
  type Record = map<string, string>

  /** What the loader hands over. `totalCount` is carried along and never
      compared with `data`. */
  datatype Dataset = Dataset(data: seq<Record>, totalCount: int)

  datatype Option<+T> = None | Some(value: T)

  /** The Python exceptions the modelled code can raise. */
  datatype Exception =
    | KeyError(key: string)   // `ship[key]` on a record without `key`
    | IndexError              // `parts[0]` when the line split into nothing
    | EOFError                // `input()` at the end of the input
    | TypeError(given: nat)   // the search command called with `given` arguments instead of one

  /** A value, or the exception raised while computing it. */
  datatype Result<+T> = Ok(value: T) | Raised(error: Exception)

  /** `r.get(key, default)` */
  function Get(r: Record, key: string, default: string): string {
    if key in r then r[key] else default
  }

  /** `r.get(key)`, with Python's `None` as `None`. */
  function Find(r: Record, key: string): Option<string> {
    if key in r then Some(r[key]) else None
  }

  /** The number of ships reported by the count command: every record counts,
      whatever fields it has, and `totalCount` plays no part. */
  function ShipCount(d: Dataset): (n: nat)
    ensures n == |d.data|
  {
    |d.data|
  }

  /** The count does not depend on the `totalCount` the loader reports. */
  lemma ShipCountIgnoresTotal(ships: seq<Record>, t1: int, t2: int)
    ensures ShipCount(Dataset(ships, t1)) == ShipCount(Dataset(ships, t2))
  {
  }

  /** What a listing command prints: the values under its header, or the notice
      that the field is missing. */
  datatype Listing = Listed(values: seq<string>) | Missing(key: string)

  /** `[ship[key] for ship in ships]`: one value per record, in record order,
      or a `KeyError` as soon as a record lacks `key`. */
  function Column(ships: seq<Record>, key: string): (r: Result<seq<string>>)
    ensures r.Ok? <==> forall i :: 0 <= i < |ships| ==> key in ships[i]
    ensures r.Ok? ==> |r.value| == |ships|
                      && forall i :: 0 <= i < |ships| ==> r.value[i] == ships[i][key]
    ensures r.Raised? ==> r.error == KeyError(key)
  {
    if ships == [] then Ok([])
    else if key !in ships[0] then Raised(KeyError(key))
    else
      match Column(ships[1..], key)
      case Ok(rest) => Ok([ships[0][key]] + rest)
      case Raised(e) => Raised(e)
  }

  /** The shared shape of the name and country listings: the field is looked
      for on the first record only; if it is there, every record must have it. */
  function ListField(ships: seq<Record>, key: string): (r: Result<Listing>)
    ensures r == Ok(Missing(key)) <==> ships == [] || key !in ships[0]
    ensures r.Ok? ==> r == Ok(Missing(key)) || r.value.Listed?
    ensures r.Raised? <==> ships != [] && key in ships[0]
                           && exists i :: 0 <= i < |ships| && key !in ships[i]
    ensures r.Raised? ==> r.error == KeyError(key)
    ensures r.Ok? && r.value.Listed? ==>
      |r.value.values| == |ships| && forall i :: 0 <= i < |ships| ==> r.value.values[i] == ships[i][key]
  {
    if ships == [] || key !in ships[0] then Ok(Missing(key))
    else
      match Column(ships, key)
      case Ok(values) => Ok(Listed(values))
      case Raised(e) => Raised(e)
  }

  /** The name listing: one name per record in record order when the first
      record has a name; the notice when there are no records or the first
      has no name; a `KeyError` when a later record has no name. */
  function ShipNames(ships: seq<Record>): (r: Result<Listing>)
    ensures r == Ok(Missing("SHIPNAME")) <==> ships == [] || "SHIPNAME" !in ships[0]
    ensures r.Ok? ==> r == Ok(Missing("SHIPNAME")) || r.value.Listed?
    ensures r.Raised? <==> ships != [] && "SHIPNAME" in ships[0]
                           && exists i :: 0 <= i < |ships| && "SHIPNAME" !in ships[i]
    ensures r.Raised? ==> r.error == KeyError("SHIPNAME")
    ensures r.Ok? && r.value.Listed? ==>
      |r.value.values| == |ships|
      && forall i :: 0 <= i < |ships| ==> r.value.values[i] == ships[i]["SHIPNAME"]
  {
    ListField(ships, "SHIPNAME")
  }

  /** The country listing: as the name listing, keyed on the country. */
  function ShipCountries(ships: seq<Record>): (r: Result<Listing>)
    ensures r == Ok(Missing("COUNTRY")) <==> ships == [] || "COUNTRY" !in ships[0]
    ensures r.Ok? ==> r == Ok(Missing("COUNTRY")) || r.value.Listed?
    ensures r.Raised? <==> ships != [] && "COUNTRY" in ships[0]
                           && exists i :: 0 <= i < |ships| && "COUNTRY" !in ships[i]
    ensures r.Raised? ==> r.error == KeyError("COUNTRY")
    ensures r.Ok? && r.value.Listed? ==>
      |r.value.values| == |ships|
      && forall i :: 0 <= i < |ships| ==> r.value.values[i] == ships[i]["COUNTRY"]
  {
    ListField(ships, "COUNTRY")
  }

  /** Ascending in Python's string order, hence without duplicates. */
  predicate StrictlySorted(s: seq<string>) {
    forall i, j :: 0 <= i < j < |s| ==> Less(s[i], s[j])
  }

  lemma SortedCons(x: string, s: seq<string>)
    requires StrictlySorted(s) && s != [] && Less(x, s[0])
    ensures StrictlySorted([x] + s)
  {
    forall j | 1 <= j < |s| ensures Less(x, s[j]) {
      LessTransitive(x, s[0], s[j]);
    }
  }

  /** Puts `x` into its place in a sorted, duplicate-free list. */
  function Insert(x: string, s: seq<string>): (r: seq<string>)
    requires StrictlySorted(s)
    ensures StrictlySorted(r)
    ensures forall y :: y in r <==> y == x || y in s
  {
    if s == [] then [x]
    else if x == s[0] then s
    else if Less(x, s[0]) then
      SortedCons(x, s);
      [x] + s
    else
      LessTotal(x, s[0]);
      var rest := Insert(x, s[1..]);
      assert forall y :: y in s[1..] ==> Less(s[0], y);
      SortedCons(s[0], rest);
      [s[0]] + rest
  }

  /** `sorted(set(xs))`: the distinct values of `xs`, ascending. */
  function SortedUnique(xs: seq<string>): (r: seq<string>)
    ensures StrictlySorted(r)
    ensures forall y :: y in r <==> y in xs
  {
    if xs == [] then [] else Insert(xs[0], SortedUnique(xs[1..]))
  }

  /** The head of a sorted list comes before every other element of it. */
  lemma HeadIsLeast(a: seq<string>, y: string)
    requires StrictlySorted(a) && y in a
    ensures y == a[0] || Less(a[0], y)
  {
  }

  /** A sorted, duplicate-free list is determined by its elements: whichever
      way the distinct values are gathered, sorting them gives one answer. */
  lemma {:induction false} SortedUnique_Determined(a: seq<string>, b: seq<string>)
    requires StrictlySorted(a) && StrictlySorted(b)
    requires forall y :: y in a <==> y in b
    ensures a == b
  {
    if a != [] && b != [] {
      assert a[0] in a && b[0] in b;
      HeadIsLeast(b, a[0]);
      HeadIsLeast(a, b[0]);
      LessAsymmetric(a[0], b[0]);
      forall y ensures y in a[1..] <==> y in b[1..] {
        InTail(a, b, y);
        InTail(b, a, y);
      }
      SortedUnique_Determined(a[1..], b[1..]);
      assert a == [a[0]] + a[1..] && b == [b[0]] + b[1..];
    } else if b == [] {
      NothingIn(a);
    } else {
      NothingIn(b);
    }
  }

  lemma NothingIn(a: seq<string>)
    requires forall y :: y !in a
    ensures a == []
  {
    if a != [] {
      HeadIn(a);
    }
  }

  lemma HeadIn(a: seq<string>)
    requires a != []
    ensures a[0] in a
  {
  }

  /** Past equal heads, two sorted lists with the same elements have the same
      elements in their tails. */
  lemma InTail(a: seq<string>, b: seq<string>, y: string)
    requires StrictlySorted(a) && StrictlySorted(b)
    requires forall z :: z in a <==> z in b
    requires a != [] && b != [] && a[0] == b[0]
    ensures y in a[1..] ==> y in b[1..]
  {
    if y in a[1..] {
      var i :| 1 <= i < |a| && a[i] == y;
      LessIrreflexive(y);
      assert y in b;
      var j :| 0 <= j < |b| && b[j] == y;
      assert j != 0;
      assert b[1..][j - 1] == y;
    }
  }

  /** Listing the unique countries again from their own output changes nothing. */
  lemma SortedUniqueIdempotent(xs: seq<string>)
    ensures SortedUnique(SortedUnique(xs)) == SortedUnique(xs)
  {
    SortedUnique_Determined(SortedUnique(SortedUnique(xs)), SortedUnique(xs));
  }

  /** The unique-country listing: the same presence check as the country
      listing; when it lists, it lists exactly the set of country values of the
      records, ascending and without duplicates. */
  function UniqueCountries(ships: seq<Record>): (r: Result<Listing>)
    ensures r == Ok(Missing("COUNTRY")) <==> ships == [] || "COUNTRY" !in ships[0]
    ensures r.Ok? ==> r == Ok(Missing("COUNTRY")) || r.value.Listed?
    ensures r.Raised? <==> ShipCountries(ships).Raised?
    ensures r.Raised? ==> r.error == KeyError("COUNTRY")
    ensures r.Ok? && r.value.Listed? ==>
      StrictlySorted(r.value.values)
      && (forall i :: 0 <= i < |ships| ==> ships[i]["COUNTRY"] in r.value.values)
      && (forall c :: c in r.value.values ==> exists i :: 0 <= i < |ships| && ships[i]["COUNTRY"] == c)
  {
    match ShipCountries(ships)
    case Ok(Listed(countries)) =>
      var u := SortedUnique(countries);
      assert forall c :: c in u ==> exists i :: 0 <= i < |countries| && countries[i] == c;
      Ok(Listed(u))
    case other => other
  }

  /** `b` keeps `a`'s elements, in `a`'s order, possibly with others between. */
  predicate IsSubsequence<T(==)>(a: seq<T>, b: seq<T>) {
    if a == [] then true
    else if b == [] then false
    else if a[0] == b[0] then IsSubsequence(a[1..], b[1..])
    else IsSubsequence(a, b[1..])
  }

  /** What the search compares: `ship.get("SHIPNAME", "").lower()`. */
  function SearchKey(r: Record): string {
    Lower(Get(r, "SHIPNAME", ""))
  }

  /** `q in ship.get("SHIPNAME", "").lower()`, for an already lowered `q`. */
  predicate IsMatch(r: Record, q: string) {
    Contains(SearchKey(r), q)
  }

  /** The list comprehension of the search: the matching records, in order. */
  function Filter(ships: seq<Record>, q: string): (r: seq<Record>)
    ensures |r| <= |ships|
    ensures IsSubsequence(r, ships)
    ensures forall x :: x in r ==> x in ships
    ensures forall x :: x in r ==> IsMatch(x, q)
    ensures forall i :: 0 <= i < |ships| && IsMatch(ships[i], q) ==> ships[i] in r
  {
    if ships == [] then []
    else if IsMatch(ships[0], q) then [ships[0]] + Filter(ships[1..], q)
    else Filter(ships[1..], q)
  }

  /** Every matching record is kept as many times as it occurs, and no other
      record is kept: with the order kept, this fixes the result. */
  lemma {:induction false} FilterOccurrences(ships: seq<Record>, q: string)
    ensures forall x :: multiset(Filter(ships, q))[x] == if IsMatch(x, q) then multiset(ships)[x] else 0
  {
    if ships != [] {
      FilterOccurrences(ships[1..], q);
      assert ships == [ships[0]] + ships[1..];
    }
  }

  /** The comprehension works record by record, so it keeps the order of any
      split of the records. */
  lemma {:induction false} FilterAppend(a: seq<Record>, b: seq<Record>, q: string)
    ensures Filter(a + b, q) == Filter(a, q) + Filter(b, q)
  {
    if a != [] {
      assert (a + b)[0] == a[0];
      assert (a + b)[1..] == a[1..] + b;
      FilterAppend(a[1..], b, q);
      if IsMatch(a[0], q) {
        assert Filter(a + b, q) == [a[0]] + (Filter(a[1..], q) + Filter(b, q));
        assert [a[0]] + (Filter(a[1..], q) + Filter(b, q)) == ([a[0]] + Filter(a[1..], q)) + Filter(b, q);
      } else {
        assert Filter(a + b, q) == Filter(a[1..], q) + Filter(b, q);
      }
    } else {
      assert a + b == b;
    }
  }

  /** What the search command shows: the lowered query in its header line, and
      the matching records. */
  datatype SearchResult = SearchResult(query: string, matches: seq<Record>)

  /** `search_ship`: lowercase the query and keep, in record order, the records
      whose lowercased name (or `""` when there is none) contains it. */
  function Search(ships: seq<Record>, query: string): (r: SearchResult)
    ensures r.query == Lower(query)
    ensures IsSubsequence(r.matches, ships)
    ensures forall x :: x in r.matches ==> IsMatch(x, Lower(query))
    ensures forall i :: 0 <= i < |ships| && IsMatch(ships[i], Lower(query)) ==> ships[i] in r.matches
    ensures r.matches == [] <==> forall i :: 0 <= i < |ships| ==> !IsMatch(ships[i], Lower(query))
    ensures forall x :: multiset(r.matches)[x] == if IsMatch(x, Lower(query)) then multiset(ships)[x] else 0
  {
    var matches := Filter(ships, Lower(query));
    FilterOccurrences(ships, Lower(query));
    assert matches != [] ==> matches[0] in matches;
    SearchResult(Lower(query), matches)
  }

  /** The names printed under the search header: `ship.get("SHIPNAME")`, which is
      `None` for a nameless record (matched only by the empty query). */
  function MatchNames(r: SearchResult): (names: seq<Option<string>>)
    ensures |names| == |r.matches|
    ensures forall i :: 0 <= i < |names| ==> names[i] == Find(r.matches[i], "SHIPNAME")
  {
    seq(|r.matches|, i requires 0 <= i < |r.matches| => Find(r.matches[i], "SHIPNAME"))
  }

  /** The search ignores the case of the query. */
  lemma SearchIgnoresCase(ships: seq<Record>, query: string)
    ensures Search(ships, query) == Search(ships, Lower(query))
  {
    LowerIdempotent(query);
  }

  /** The empty query matches every record, named or not. */
  lemma {:induction false} SearchEmptyMatchesAll(ships: seq<Record>)
    ensures Search(ships, "").matches == ships
  {
    if ships != [] {
      EmptyContained(SearchKey(ships[0]));
      SearchEmptyMatchesAll(ships[1..]);
    }
  }

  /** A query that occurs in the lowercased name, whatever its case, finds the ship. */
  lemma SearchFindsSubstring(ships: seq<Record>, query: string, i: int, at: int)
    requires 0 <= i < |ships|
    requires OccursAt(SearchKey(ships[i]), Lower(query), at)
    ensures ships[i] in Search(ships, query).matches
  {
    ContainsIff(SearchKey(ships[i]), Lower(query));
  }

  /** The speed exporter's selection: `[ship.get("SPEED") for ship in ships if "SPEED" in ship]`. */
  function Speeds(ships: seq<Record>): (r: seq<string>)
    ensures |r| <= |ships|
    ensures |r| == |ships| <==> forall i :: 0 <= i < |ships| ==> "SPEED" in ships[i]
    ensures r == [] <==> forall i :: 0 <= i < |ships| ==> "SPEED" !in ships[i]
    ensures forall v :: v in r ==> exists i :: 0 <= i < |ships| && "SPEED" in ships[i] && ships[i]["SPEED"] == v
  {
    if ships == [] then []
    else
      var rest := Speeds(ships[1..]);
      assert forall i :: 1 <= i < |ships| ==> ships[i] == ships[1..][i - 1];
      if "SPEED" in ships[0] then [ships[0]["SPEED"]] + rest else rest
  }

  /** The selection works record by record, so it keeps the order of any
      split of the records. */
  lemma {:induction false} SpeedsAppend(a: seq<Record>, b: seq<Record>)
    ensures Speeds(a + b) == Speeds(a) + Speeds(b)
  {
    if a == [] {
      assert a + b == b;
    } else {
      assert (a + b)[0] == a[0];
      assert (a + b)[1..] == a[1..] + b;
      SpeedsAppend(a[1..], b);
    }
  }

  /** One record gives its speed if it has one, and nothing otherwise. */
  lemma SpeedsOne(r: Record)
    ensures Speeds([r]) == if "SPEED" in r then [r["SPEED"]] else []
  {
    assert [r][1..] == [];
  }

  /** A map marker: its popup text and its coordinates. */
  datatype Marker = Marker(popup: string, lat: string, lon: string)

  predicate HasPosition(r: Record) {
    "LAT" in r && "LON" in r
  }

  /** `folium.Marker(location=[lat, lon], popup=name)` for one record. */
  function PlaceMarker(r: Record): Marker
    requires HasPosition(r)
  {
    Marker(Get(r, "SHIPNAME", "Unknown"), r["LAT"], r["LON"])
  }

  /** The map exporter's markers: one per record with both coordinates, in
      record order, labelled with the name or `"Unknown"`. */
  function Markers(ships: seq<Record>): (r: seq<Marker>)
    ensures |r| <= |ships|
    ensures |r| == |ships| <==> forall i :: 0 <= i < |ships| ==> HasPosition(ships[i])
    ensures r == [] <==> forall i :: 0 <= i < |ships| ==> !HasPosition(ships[i])
    ensures forall m :: m in r ==>
      exists i :: 0 <= i < |ships| && HasPosition(ships[i]) && m == PlaceMarker(ships[i])
  {
    if ships == [] then []
    else
      var rest := Markers(ships[1..]);
      assert forall i :: 1 <= i < |ships| ==> ships[i] == ships[1..][i - 1];
      var s := ships[0];
      if HasPosition(s) then [PlaceMarker(s)] + rest
      else rest
  }

  /** The markers are placed record by record, so they keep the order of any
      split of the records. */
  lemma {:induction false} MarkersAppend(a: seq<Record>, b: seq<Record>)
    ensures Markers(a + b) == Markers(a) + Markers(b)
  {
    if a == [] {
      assert a + b == b;
    } else {
      assert (a + b)[0] == a[0];
      assert (a + b)[1..] == a[1..] + b;
      MarkersAppend(a[1..], b);
    }
  }

  /** One record gives one marker if it has both coordinates, and none otherwise. */
  lemma MarkersOne(r: Record)
    ensures Markers([r]) == if HasPosition(r) then [PlaceMarker(r)] else []
  {
    assert [r][1..] == [];
  }
}
