/**
 * The restaurant listing (Pages/Restaurant.js): `filterRestaurants` narrows
 * the loaded restaurants by a free-text query and a cuisine, then sorts them
 * in place on one of three keys. Fees are integer cents and ratings integer
 * hundredths of a star.
 */
module Restaurants {
  import opened Wrappers
  import opened Text
  import opened Seqs
  import opened StableSort

  datatype Restaurant = Restaurant(
    id: string,
    name: string,
    description: Option<string>,
    cuisine_type: Option<string>,
    rating: Option<int>,
    delivery_time: Option<string>,
    delivery_fee: Option<int>,
    is_featured: bool)

  /**
   * The text test of line 60-64: the lower-cased query occurs in the
   * lower-cased name, cuisine_type or description. A missing optional field
   * (`?.` yields `undefined`) never matches. The query is not trimmed.
   */
  predicate MatchesQuery(r: Restaurant, query: string): (b: bool)
    ensures query == [] ==> b
  {
    var q := ToLower(query);
    || Contains(ToLower(r.name), q)
    || (r.cuisine_type.Some? && Contains(ToLower(r.cuisine_type.value), q))
    || (r.description.Some? && Contains(ToLower(r.description.value), q))
  }

  /** The search ignores the case of the query: lowering it first changes nothing. */
  lemma QueryCaseIgnored(r: Restaurant, query: string)
    ensures MatchesQuery(r, ToLower(query)) == MatchesQuery(r, query)
  {
    ToLowerIdempotent(query);
  }

  function QueryMatches(query: string): Restaurant -> bool {
    (r: Restaurant) => MatchesQuery(r, query)
  }

  /** `restaurant.cuisine_type === selectedCuisine`: a missing cuisine never equals a string. */
  function CuisineIs(cuisine: string): Restaurant -> bool {
    (r: Restaurant) => r.cuisine_type == Some(cuisine)
  }

  /** The query stage: a blank query (`!searchQuery.trim()`) keeps everything. */
  function ByQuery(rs: seq<Restaurant>, query: string): (out: seq<Restaurant>)
    ensures Trim(query) == [] ==> out == rs
    ensures forall r :: r in out <==> r in rs && (Trim(query) == [] || MatchesQuery(r, query))
  {
    if Trim(query) == [] then rs else Filter(rs, QueryMatches(query))
  }

  /** The cuisine stage: "all" keeps everything. */
  function ByCuisine(rs: seq<Restaurant>, cuisine: string): (out: seq<Restaurant>)
    ensures cuisine == "all" ==> out == rs
    ensures forall r :: r in out <==> r in rs && (cuisine == "all" || r.cuisine_type == Some(cuisine))
  {
    if cuisine == "all" then rs else Filter(rs, CuisineIs(cuisine))
  }

  /** Both filter stages, in source order. */
  function Filtered(rs: seq<Restaurant>, query: string, cuisine: string): (out: seq<Restaurant>)
    ensures Trim(query) == [] && cuisine == "all" ==> out == rs
    ensures forall r :: r in out <==> r in rs && Passes(r, query, cuisine)
  {
    ByCuisine(ByQuery(rs, query), cuisine)
  }

  /** A restaurant passes both filters. */
  predicate Passes(r: Restaurant, query: string, cuisine: string) {
    && (Trim(query) == [] || MatchesQuery(r, query))
    && (cuisine == "all" || r.cuisine_type == Some(cuisine))
  }

  function PassesFilters(query: string, cuisine: string): Restaurant -> bool {
    (r: Restaurant) => Passes(r, query, cuisine)
  }

  /** The two stages together are one filter by `Passes`, keeping input order. */
  lemma FilteredIsFilter(rs: seq<Restaurant>, query: string, cuisine: string)
    ensures Filtered(rs, query, cuisine) == Filter(rs, PassesFilters(query, cuisine))
  {
    var p := PassesFilters(query, cuisine);
    if Trim(query) == [] {
      if cuisine == "all" {
        FilterAllPass(rs, p);
      } else {
        FilterEquivalent(rs, CuisineIs(cuisine), p);
      }
    } else {
      if cuisine == "all" {
        FilterEquivalent(rs, QueryMatches(query), p);
      } else {
        FilterFilter(rs, QueryMatches(query), CuisineIs(cuisine), p);
      }
    }
  }

  // ---- sort keys: the comparators are `key(a) - key(b)` ----

  /** `rating || 0`. */
  function RatingOrZero(r: Restaurant): int {
    r.rating.GetOr(0)
  }

  /** `(b.rating || 0) - (a.rating || 0)` sorts ascending by the negated rating: highest first. */
  function RatingKey(r: Restaurant): int {
    -RatingOrZero(r)
  }

  /** `delivery_fee || 0`. */
  function FeeKey(r: Restaurant): int {
    r.delivery_fee.GetOr(0)
  }

  predicate IsDigit(c: char) {
    '0' <= c <= '9'
  }

  /** A digit in base `radix` (10 or 16 here): 0-9, and for 16 also a-f and A-F. */
  predicate IsDigitIn(c: char, radix: nat) {
    IsDigit(c) || (radix == 16 && ('a' <= c <= 'f' || 'A' <= c <= 'F'))
  }

  /** The value of one hexadecimal (or decimal) digit. */
  function DigitValue(c: char): (v: nat)
    requires IsDigitIn(c, 16)
    ensures v < 16
    ensures IsDigit(c) ==> v < 10
  {
    if IsDigit(c) then c as int - '0' as int
    else if 'a' <= c <= 'f' then c as int - 'a' as int + 10
    else c as int - 'A' as int + 10
  }

  /** The maximal run of base-`radix` digits at the start of `s`. */
  function LeadingDigits(s: string, radix: nat): (ds: string)
    ensures ds <= s
    ensures forall i :: 0 <= i < |ds| ==> IsDigitIn(ds[i], radix)
    ensures |ds| < |s| ==> !IsDigitIn(s[|ds|], radix)
  {
    if s != [] && IsDigitIn(s[0], radix) then [s[0]] + LeadingDigits(s[1..], radix) else []
  }

  /** A run of digits followed by something that is not a digit is exactly the leading run. */
  lemma {:induction false} LeadingDigitsOf(ds: string, rest: string, radix: nat)
    requires forall i :: 0 <= i < |ds| ==> IsDigitIn(ds[i], radix)
    requires rest == [] || !IsDigitIn(rest[0], radix)
    ensures LeadingDigits(ds + rest, radix) == ds
  {
    if ds == [] {
      assert ds + rest == rest;
    } else {
      var s := ds + rest;
      assert s[0] == ds[0] && s[1..] == ds[1..] + rest;
      LeadingDigitsOf(ds[1..], rest, radix);
      assert ds == [ds[0]] + ds[1..];
    }
  }

  /** The value of a digit string in base `radix`, most significant digit first. */
  function DigitsValue(ds: string, radix: nat): nat
    requires forall i :: 0 <= i < |ds| ==> IsDigitIn(ds[i], 16)
  {
    if ds == [] then 0
    else
      assert IsDigitIn(ds[|ds| - 1], 16);
      DigitsValue(ds[..|ds| - 1], radix) * radix + DigitValue(ds[|ds| - 1])
  }

  /** The sign `parseInt` reads after the leading whitespace: -1 after a `-`, 1 otherwise. */
  function SignOf(t: string): int {
    if t != [] && t[0] == '-' then -1 else 1
  }

  /** The text after one optional `+` or `-`. */
  function Unsigned(t: string): string {
    if t != [] && (t[0] == '+' || t[0] == '-') then t[1..] else t
  }

  /** The text starts with `0x` or `0X`, which switches `parseInt` without a radix to base 16. */
  predicate HexPrefixed(u: string) {
    |u| >= 2 && u[0] == '0' && (u[1] == 'x' || u[1] == 'X')
  }

  function Radix(u: string): nat {
    if HexPrefixed(u) then 16 else 10
  }

  /** The text after the `0x`/`0X` prefix, when there is one. */
  function Body(u: string): string {
    if HexPrefixed(u) then u[2..] else u
  }

  /**
   * `parseInt(s)` with no radix: leading whitespace is skipped, then one `+`
   * or `-`, then a `0x`/`0X` prefix selects base 16 (base 10 otherwise), and
   * the leading digits of that base are read. `None` is JavaScript's NaN:
   * no digit follows. The delivery-time text reaches it already cut at its
   * first `-`, so the sign never applies there (`DeliveryMinutes`).
   */
  function ParseInt(s: string): (r: Option<int>)
    ensures var u := Unsigned(TrimStart(s));
      && (r.None? <==> LeadingDigits(Body(u), Radix(u)) == [])
      && (r.Some? ==> r.value == SignOf(TrimStart(s)) * DigitsValue(LeadingDigits(Body(u), Radix(u)), Radix(u)))
  {
    var t := TrimStart(s);
    var u := Unsigned(t);
    var ds := LeadingDigits(Body(u), Radix(u));
    if ds == [] then None
    else
      assert forall i :: 0 <= i < |ds| ==> IsDigitIn(ds[i], 16);
      Some(SignOf(t) * DigitsValue(ds, Radix(u)))
  }

  /** A text that starts with a character other than whitespace is its own `trimStart`. */
  lemma TrimStartNoop(s: string)
    requires s != [] && !IsWhitespace(s[0])
    ensures TrimStart(s) == s
  {
  }

  /** A decimal number followed by anything that is not a digit reads as that number. */
  lemma ParseDecimal(ds: string, rest: string)
    requires ds != [] && forall i :: 0 <= i < |ds| ==> IsDigit(ds[i])
    requires rest == [] || !IsDigit(rest[0])
    requires !HexPrefixed(ds + rest)
    ensures ParseInt(ds + rest) == Some(DigitsValue(ds, 10))
  {
    var s := ds + rest;
    assert IsDigit(s[0]) by {
      assert s[0] == ds[0];
    }
    LeadingDigitsOf(ds, rest, 10);
    ReadsDecimal(s, ds);
  }

  /** Text that starts with a decimal digit, not `0x`, reads as the value of its leading digits. */
  lemma ReadsDecimal(s: string, ds: string)
    requires s != [] && IsDigit(s[0]) && !HexPrefixed(s)
    requires LeadingDigits(s, 10) == ds && ds != []
    ensures ParseInt(s) == Some(DigitsValue(ds, 10))
  {
    TrimStartNoop(s);
    assert Unsigned(s) == s && SignOf(s) == 1;
  }

  /** `0x` or `0X`, hexadecimal digits, then anything else: the hexadecimal value. */
  lemma ParseHex(prefix: string, ds: string, rest: string)
    requires |prefix| == 2 && HexPrefixed(prefix)
    requires ds != [] && forall i :: 0 <= i < |ds| ==> IsDigitIn(ds[i], 16)
    requires rest == [] || !IsDigitIn(rest[0], 16)
    ensures ParseInt(prefix + ds + rest) == Some(DigitsValue(ds, 16))
  {
    var body := ds + rest;
    var s := prefix + body;
    assert prefix + ds + rest == s;
    HexStart(prefix, body);
    LeadingDigitsOf(ds, rest, 16);
    ReadsHex(s, ds);
  }

  /** Text whose `0x` prefix is followed by hexadecimal digits reads as their value. */
  lemma ReadsHex(s: string, ds: string)
    requires TrimStart(s) == s && Unsigned(s) == s && SignOf(s) == 1 && Radix(s) == 16
    requires LeadingDigits(Body(s), 16) == ds && ds != []
    ensures ParseInt(s) == Some(DigitsValue(ds, 16))
  {
  }

  /** `0x` or `0X` with no hexadecimal digit after it is NaN. */
  lemma HexWithoutDigits(prefix: string, rest: string)
    requires |prefix| == 2 && HexPrefixed(prefix)
    requires rest == [] || !IsDigitIn(rest[0], 16)
    ensures ParseInt(prefix + rest) == None
  {
    HexStart(prefix, rest);
    LeadingDigitsOf([], rest, 16);
    assert [] + rest == rest;
  }

  /** After a `0x`/`0X` prefix, `parseInt` reads the digits of `body` in base 16. */
  lemma HexStart(prefix: string, body: string)
    requires |prefix| == 2 && HexPrefixed(prefix)
    ensures var s := prefix + body;
      TrimStart(s) == s && Unsigned(s) == s && SignOf(s) == 1 && Radix(s) == 16 && Body(s) == body
  {
    var s := prefix + body;
    assert s[0] == '0' && s[1] == prefix[1] && s[2..] == body;
    TrimStartNoop(s);
  }

  /**
   * `delivery_time?.split("-")[0] || "30"` then `parseInt`: the text is cut at
   * its first dash, and a missing text or an empty start reads as 30. The
   * start has no dash, so the minutes are never negative.
   */
  function DeliveryMinutes(deliveryTime: Option<string>): (r: Option<int>)
    ensures deliveryTime.None? ==> r == Some(30)
    ensures deliveryTime.Some? && FirstIndexOf(deliveryTime.value, '-') == 0 ==> r == Some(30)
    ensures deliveryTime.Some? && FirstIndexOf(deliveryTime.value, '-') > 0 ==>
      r == ParseInt(deliveryTime.value[..FirstIndexOf(deliveryTime.value, '-')])
    ensures r.Some? ==> r.value >= 0
  {
    match deliveryTime
    case None => Some(30)
    case Some(t) =>
      var prefix := t[..FirstIndexOf(t, '-')];
      if prefix == [] then Some(30)
      else
        SignWithoutDash(prefix);
        ParseInt(prefix)
  }

  /** When the first dash of `t` is at `k` (or `t` has none and `k` is its length), the minutes are those of `t[..k]`. */
  lemma MinutesBeforeDash(t: string, k: nat)
    requires 0 < k <= |t| && (k < |t| ==> t[k] == '-')
    requires forall i :: 0 <= i < k ==> t[i] != '-'
    ensures DeliveryMinutes(Some(t)) == ParseInt(t[..k])
  {
    assert FirstIndexOf(t, '-') == k;
  }

  /** A text without a dash keeps the sign `+1` after its leading whitespace. */
  lemma SignWithoutDash(prefix: string)
    requires forall i :: 0 <= i < |prefix| ==> prefix[i] != '-'
    ensures SignOf(TrimStart(prefix)) == 1
  {
    var r := TrimStart(prefix);
    if r != [] {
      assert r[0] == prefix[|prefix| - |r|];
    }
  }

  /** The delivery time of `r` yields a number (not NaN). */
  predicate TimeParses(r: Restaurant) {
    DeliveryMinutes(r.delivery_time).Some?
  }

  /** The delivery-time sort key; the 0 for NaN is never used (see `TimeParses`). */
  function TimeKey(r: Restaurant): int {
    DeliveryMinutes(r.delivery_time).GetOr(0)
  }

  datatype SortField = ByRating | ByDeliveryTime | ByDeliveryFee

  /** The `switch (sortBy)`; any other value sorts nothing. */
  function SortFieldOf(sortBy: string): (f: Option<SortField>)
    ensures f == Some(ByRating) <==> sortBy == "rating"
    ensures f == Some(ByDeliveryTime) <==> sortBy == "delivery_time"
    ensures f == Some(ByDeliveryFee) <==> sortBy == "delivery_fee"
  {
    if sortBy == "rating" then Some(ByRating)
    else if sortBy == "delivery_time" then Some(ByDeliveryTime)
    else if sortBy == "delivery_fee" then Some(ByDeliveryFee)
    else None
  }

  function KeyOf(f: SortField): Restaurant -> int {
    match f
    case ByRating => RatingKey
    case ByDeliveryTime => TimeKey
    case ByDeliveryFee => FeeKey
  }

  /**
   * The list reaching the sort has delivery times that parse when sorting on
   * them; a NaN comparator result makes the comparator inconsistent, and the
   * order is then implementation-defined.
   */
  predicate Sortable(rs: seq<Restaurant>, sortBy: string) {
    sortBy == "delivery_time" ==> forall i | 0 <= i < |rs| :: TimeParses(rs[i])
  }

  /** Reordering a list keeps it sortable. */
  lemma SortableReordered(a: seq<Restaurant>, b: seq<Restaurant>, sortBy: string)
    requires multiset(a) == multiset(b) && Sortable(b, sortBy)
    ensures Sortable(a, sortBy)
  {
    if sortBy == "delivery_time" {
      forall i | 0 <= i < |a| ensures TimeParses(a[i]) {
        assert a[i] in multiset(b);
        var j :| 0 <= j < |b| && b[j] == a[i];
      }
    }
  }

  /** The list `filterRestaurants` stores in `filteredRestaurants`. */
  function Apply(rs: seq<Restaurant>, query: string, cuisine: string, sortBy: string): (out: seq<Restaurant>)
    requires Sortable(Filtered(rs, query, cuisine), sortBy)
    ensures multiset(out) == multiset(Filtered(rs, query, cuisine))
    ensures SortFieldOf(sortBy).None? ==> out == Filtered(rs, query, cuisine)
    ensures SortFieldOf(sortBy).Some? ==> SortedBy(out, KeyOf(SortFieldOf(sortBy).value))
  {
    var f := Filtered(rs, query, cuisine);
    match SortFieldOf(sortBy)
    case None => f
    case Some(field) => Sort(f, KeyOf(field))
  }

  /** The output is a permutation of the input restricted to the restaurants that pass both filters. */
  lemma ApplyPermutation(rs: seq<Restaurant>, query: string, cuisine: string, sortBy: string)
    requires Sortable(Filtered(rs, query, cuisine), sortBy)
    ensures multiset(Apply(rs, query, cuisine, sortBy)) == multiset(Filter(rs, PassesFilters(query, cuisine)))
    ensures forall r :: r in Apply(rs, query, cuisine, sortBy) <==> r in rs && Passes(r, query, cuisine)
  {
    FilteredIsFilter(rs, query, cuisine);
    var out := Apply(rs, query, cuisine, sortBy);
    assert multiset(out) == multiset(Filtered(rs, query, cuisine));
    forall r ensures r in out <==> r in rs && Passes(r, query, cuisine) {
      assert r in out <==> r in multiset(out);
      assert r in Filtered(rs, query, cuisine) <==> r in multiset(Filtered(rs, query, cuisine));
    }
  }

  /** A blank query is the same as no query at all. */
  lemma BlankQueryIgnored(rs: seq<Restaurant>, query: string, cuisine: string, sortBy: string)
    requires Sortable(Filtered(rs, query, cuisine), sortBy)
    requires forall i :: 0 <= i < |query| ==> IsWhitespace(query[i])
    ensures Filtered(rs, query, cuisine) == Filtered(rs, "", cuisine)
    ensures Apply(rs, query, cuisine, sortBy) == Apply(rs, "", cuisine, sortBy)
  {
    TrimEmptyIff(query);
    TrimEmptyIff("");
  }

  /** Sorting on "rating": non-increasing rating, a missing rating counting as 0. */
  lemma RatingOrder(rs: seq<Restaurant>, query: string, cuisine: string)
    ensures var out := Apply(rs, query, cuisine, "rating");
      forall i, j :: 0 <= i < j < |out| ==> RatingOrZero(out[i]) >= RatingOrZero(out[j])
  {
    var out := Apply(rs, query, cuisine, "rating");
    SortedByPairs(out, RatingKey);
    forall i, j | 0 <= i < j < |out| ensures RatingOrZero(out[i]) >= RatingOrZero(out[j]) {
      assert RatingKey(out[i]) <= RatingKey(out[j]);
    }
  }

  /** Every restaurant in the output comes from the input. */
  lemma ApplyFromInput(rs: seq<Restaurant>, query: string, cuisine: string, sortBy: string)
    requires Sortable(Filtered(rs, query, cuisine), sortBy)
    ensures forall r :: r in Apply(rs, query, cuisine, sortBy) ==> r in rs
  {
    ApplyPermutation(rs, query, cuisine, sortBy);
  }

  /**
   * Sorting on "delivery_time": every output time parses, so the key is the
   * real number of minutes, and it is non-decreasing.
   */
  lemma DeliveryTimeOrder(rs: seq<Restaurant>, query: string, cuisine: string)
    requires Sortable(Filtered(rs, query, cuisine), "delivery_time")
    ensures var out := Apply(rs, query, cuisine, "delivery_time");
      && (forall i :: 0 <= i < |out| ==> DeliveryMinutes(out[i].delivery_time) == Some(TimeKey(out[i])))
      && (forall i, j :: 0 <= i < j < |out| ==> TimeKey(out[i]) <= TimeKey(out[j]))
  {
    var out := Apply(rs, query, cuisine, "delivery_time");
    SortableReordered(out, Filtered(rs, query, cuisine), "delivery_time");
    SortedByPairs(out, TimeKey);
  }

  /** Sorting on "delivery_fee": non-decreasing fee, a missing fee counting as 0. */
  lemma DeliveryFeeOrder(rs: seq<Restaurant>, query: string, cuisine: string)
    ensures var out := Apply(rs, query, cuisine, "delivery_fee");
      forall i, j :: 0 <= i < j < |out| ==> FeeKey(out[i]) <= FeeKey(out[j])
  {
    SortedByPairs(Apply(rs, query, cuisine, "delivery_fee"), FeeKey);
  }

  /** Any other `sortBy` leaves the filtered order alone. */
  lemma UnknownSortKeepsOrder(rs: seq<Restaurant>, query: string, cuisine: string, sortBy: string)
    requires SortFieldOf(sortBy).None?
    ensures Apply(rs, query, cuisine, sortBy) == Filter(rs, PassesFilters(query, cuisine))
  {
    FilteredIsFilter(rs, query, cuisine);
  }

  /** Ties keep their relative input order: each tie class of the output is that of the filtered input. */
  lemma TiesKeepOrder(rs: seq<Restaurant>, query: string, cuisine: string, sortBy: string, k: int)
    requires Sortable(Filtered(rs, query, cuisine), sortBy) && SortFieldOf(sortBy).Some?
    ensures var key := KeyOf(SortFieldOf(sortBy).value);
      WithKey(Apply(rs, query, cuisine, sortBy), key, k) == WithKey(Filter(rs, PassesFilters(query, cuisine)), key, k)
  {
    FilteredIsFilter(rs, query, cuisine);
    SortStable(Filtered(rs, query, cuisine), KeyOf(SortFieldOf(sortBy).value), k);
  }

  /** Filtering the output again with the same settings returns the output unchanged. */
  lemma ApplyIdempotent(rs: seq<Restaurant>, query: string, cuisine: string, sortBy: string)
    requires Sortable(Filtered(rs, query, cuisine), sortBy)
    ensures Sortable(Apply(rs, query, cuisine, sortBy), sortBy)
    ensures Filtered(Apply(rs, query, cuisine, sortBy), query, cuisine) == Apply(rs, query, cuisine, sortBy)
    ensures Apply(Apply(rs, query, cuisine, sortBy), query, cuisine, sortBy) == Apply(rs, query, cuisine, sortBy)
  {
    var out := Apply(rs, query, cuisine, sortBy);
    var f := Filtered(rs, query, cuisine);
    ApplyPermutation(rs, query, cuisine, sortBy);
    SortableReordered(out, f, sortBy);
    forall i | 0 <= i < |out| ensures PassesFilters(query, cuisine)(out[i]) {
      assert out[i] in out;
    }
    FilterAllPass(out, PassesFilters(query, cuisine));
    FilteredIsFilter(out, query, cuisine);
    match SortFieldOf(sortBy)
    case None =>
    case Some(field) => SortOfSorted(out, KeyOf(field));
  }

  /** "25-30 min" sorts as 25: the text before the first dash. */
  lemma DashedRangeMinutes()
    ensures DeliveryMinutes(Some("25-30 min")) == Some(25)
  {
    var ds, tail := "25", "-30 min";
    assert ds + tail == "25-30 min";
    DecimalRangeMinutes(ds, tail);
    assert DigitsValue(ds, 10) == 25 by {
      assert ds[..1] == "2" && "2"[..0] == "";
    }
  }

  /** A range written `<decimal digits>-...` sorts as the value of its start. */
  lemma DecimalRangeMinutes(ds: string, tail: string)
    requires ds != [] && forall i :: 0 <= i < |ds| ==> IsDigit(ds[i])
    requires !HexPrefixed(ds)
    requires tail != [] && tail[0] == '-'
    ensures DeliveryMinutes(Some(ds + tail)) == Some(DigitsValue(ds, 10))
  {
    assert NoDash(ds);
    DashAfter(ds, tail);
    assert ds + "" == ds;
    ParseDecimal(ds, "");
  }

  /** A text without a dash sorts as its leading number: "45 min" is 45. */
  lemma UndashedMinutes()
    ensures DeliveryMinutes(Some("45 min")) == Some(45)
  {
    var ds, rest := "45", " min";
    assert ds + rest == "45 min";
    DecimalMinutes(ds, rest);
    assert DigitsValue(ds, 10) == 45 by {
      assert ds[..1] == "4" && "4"[..0] == "";
    }
  }

  /** A decimal number followed by a dashless text that does not go on with a digit: its value in minutes. */
  lemma DecimalMinutes(ds: string, rest: string)
    requires ds != [] && forall i :: 0 <= i < |ds| ==> IsDigit(ds[i])
    requires rest == [] || !IsDigit(rest[0])
    requires !HexPrefixed(ds + rest)
    requires forall i :: 0 <= i < |rest| ==> rest[i] != '-'
    ensures DeliveryMinutes(Some(ds + rest)) == Some(DigitsValue(ds, 10))
  {
    var t := ds + rest;
    forall i | 0 <= i < |t| ensures t[i] != '-' {
      if i < |ds| {
        assert t[i] == ds[i];
      } else {
        assert t[i] == rest[i - |ds|];
      }
    }
    MinutesBeforeDash(t, |t|);
    assert t[..|t|] == t;
    ParseDecimal(ds, rest);
  }

  /** Without a radix a `0x` prefix reads hexadecimal: "0x10-20" sorts as 16. */
  lemma HexMinutes()
    ensures DeliveryMinutes(Some("0x10-20")) == Some(16)
  {
    var ds, tail := "10", "-20";
    calc {
      DeliveryMinutes(Some("0x10-20"));
      { assert "0x" + ds + tail == "0x10-20"; }
      DeliveryMinutes(Some("0x" + ds + tail));
      { HexRangeMinutes(ds, tail); }
      Some(DigitsValue(ds, 16));
      { assert ds[..1] == "1" && "1"[..0] == ""; }
      Some(16);
    }
  }

  /** A range written `0x<hex digits>-...` sorts as the hexadecimal value of its start. */
  lemma HexRangeMinutes(ds: string, tail: string)
    requires ds != [] && forall i :: 0 <= i < |ds| ==> IsDigitIn(ds[i], 16)
    requires tail != [] && tail[0] == '-'
    ensures DeliveryMinutes(Some("0x" + ds + tail)) == Some(DigitsValue(ds, 16))
  {
    HexHasNoDash(ds);
    DashAfter("0x" + ds, tail);
    assert "0x" + ds + "" == "0x" + ds;
    ParseHex("0x", ds, "");
  }

  lemma HexHasNoDash(ds: string)
    requires forall i :: 0 <= i < |ds| ==> IsDigitIn(ds[i], 16)
    ensures NoDash("0x" + ds)
  {
    var start := "0x" + ds;
    forall i | 0 <= i < |start| ensures start[i] != '-' {
      if i >= 2 {
        assert start[i] == ds[i - 2];
      }
    }
  }

  predicate NoDash(s: string) {
    forall i :: 0 <= i < |s| ==> s[i] != '-'
  }

  /** A non-empty start without a dash, then a text opening with one: the minutes are those of the start. */
  lemma DashAfter(start: string, tail: string)
    requires start != [] && NoDash(start)
    requires tail != [] && tail[0] == '-'
    ensures DeliveryMinutes(Some(start + tail)) == ParseInt(start)
  {
    var t := start + tail;
    forall i | 0 <= i < |start| ensures t[i] != '-' {
      assert t[i] == start[i];
    }
    assert t[|start|] == tail[0];
    MinutesBeforeDash(t, |start|);
    assert t[..|start|] == start;
  }

  /** A `0x` prefix with no hexadecimal digit after it is NaN: "0xg-5" does not parse. */
  lemma HexWithoutDigitsIsNaN()
    ensures DeliveryMinutes(Some("0xg-5")) == None
  {
    var t := "0xg-5";
    assert FirstIndexOf(t, '-') == 3 by {
      assert t[0] != '-' && t[1] != '-' && t[2] != '-' && t[3] == '-';
    }
    assert t[..3] == "0x" + "g";
    HexWithoutDigits("0x", "g");
  }

  /** A missing text, an empty text and one starting with a dash all sort as 30. */
  lemma DefaultMinutes()
    ensures DeliveryMinutes(None) == Some(30)
    ensures DeliveryMinutes(Some("")) == Some(30)
    ensures DeliveryMinutes(Some("-5")) == Some(30)
  {
    assert FirstIndexOf("-5", '-') == 0;
  }

  /** A text with no number before the dash does not parse: "soon" is NaN. */
  lemma WordyTimeIsNaN()
    ensures DeliveryMinutes(Some("soon")) == None
  {
    assert FirstIndexOf("soon", '-') == 4;
    assert "soon"[..4] == "soon";
    TrimStartNoop("soon");
    assert Unsigned("soon") == "soon" && !HexPrefixed("soon");
  }

  /** The query is lower-cased but not trimmed: " pizza" misses a restaurant named "Pizza", "PIZ" finds it. */
  lemma QueryNotTrimmed()
    ensures var r := Restaurant("1", "Pizza", None, None, None, None, None, false);
      !MatchesQuery(r, " pizza") && MatchesQuery(r, "PIZ")
  {
    var r := Restaurant("1", "Pizza", None, None, None, None, None, false);
    assert ToLower("Pizza") == "pizza";
    assert ToLower("PIZ") == "piz";
    assert OccursAt("pizza", "piz", 0);
  }

  /** Two restaurants, no query, every cuisine, sorted on rating: the 4.9 one comes before the 4.2 one. */
  lemma RatingScenario()
    ensures var marios := Restaurant("m", "Mario's", None, Some("italian"), Some(490), None, Some(199), false);
      var tacos := Restaurant("t", "Taco Hub", None, Some("mexican"), Some(420), None, Some(350), false);
      Apply([tacos, marios], "", "all", "rating") == [marios, tacos]
  {
    var marios := Restaurant("m", "Mario's", None, Some("italian"), Some(490), None, Some(199), false);
    var tacos := Restaurant("t", "Taco Hub", None, Some("mexican"), Some(420), None, Some(350), false);
    assert Trim("") == [];
    var input := [tacos, marios];
    assert input[..1] == [tacos] && Sort([tacos], RatingKey) == [tacos];
    assert Sort(input, RatingKey) == Insert(marios, [tacos], RatingKey);
    assert RatingKey(marios) < RatingKey(tacos);
  }

  /**
   * A delivery time that does not parse is harmless once the filters drop its
   * restaurant: "soon" never reaches the comparator when searching "pizza".
   */
  lemma FilteredOutTimeIgnored()
    ensures var sushi := Restaurant("s", "Sushi", None, None, None, Some("soon"), None, false);
      var pizza := Restaurant("p", "Pizza", None, None, None, Some("20-30"), None, false);
      && !Sortable([sushi, pizza], "delivery_time")
      && Filtered([sushi, pizza], "pizza", "all") == [pizza]
      && Sortable([pizza], "delivery_time")
      && Apply([sushi, pizza], "pizza", "all", "delivery_time") == [pizza]
  {
    var sushi := Restaurant("s", "Sushi", None, None, None, Some("soon"), None, false);
    var pizza := Restaurant("p", "Pizza", None, None, None, Some("20-30"), None, false);
    WordyTimeIsNaN();
    assert !TimeParses([sushi, pizza][0]);
    PizzaOnly(sushi, pizza);
    RangeStartMinutes();
    SortsSurvivor(sushi, pizza, "pizza");
  }

  /** When the filters leave one restaurant whose time parses, sorting on delivery time shows just it. */
  lemma SortsSurvivor(a: Restaurant, b: Restaurant, query: string)
    requires Filtered([a, b], query, "all") == [b] && TimeParses(b)
    ensures Sortable(Filtered([a, b], query, "all"), "delivery_time")
    ensures Apply([a, b], query, "all", "delivery_time") == [b]
  {
    assert TimeParses([b][0]);
    assert Sort([b], TimeKey) == [b];
  }

  /** Searching "pizza" keeps a restaurant named "Pizza" and drops one named "Sushi". */
  lemma PizzaOnly(sushi: Restaurant, pizza: Restaurant)
    requires sushi.name == "Sushi" && sushi.cuisine_type.None? && sushi.description.None?
    requires pizza.name == "Pizza"
    ensures Filtered([sushi, pizza], "pizza", "all") == [pizza]
  {
    NonBlank("pizza");
    NameMatch();
    KeepsSecond(sushi, pizza, "pizza");
  }

  /** A non-blank query that only the second of two restaurants matches keeps just that one. */
  lemma KeepsSecond(a: Restaurant, b: Restaurant, query: string)
    requires Trim(query) != [] && !MatchesQuery(a, query) && MatchesQuery(b, query)
    ensures Filtered([a, b], query, "all") == [b]
  {
    var rs := [a, b];
    var p := QueryMatches(query);
    assert !p(rs[0]) && p([b][0]);
    calc {
      Filter(rs, p);
      { assert rs[1..] == [b]; }
      Filter([b], p);
      { assert [b][1..] == []; }
      [b];
    }
  }

  /** A text that starts with a non-whitespace character is not blank. */
  lemma NonBlank(s: string)
    requires s != [] && !IsWhitespace(s[0])
    ensures Trim(s) != []
  {
    TrimEmptyIff(s);
  }

  /** "pizza" is found in "Pizza" and not in "Sushi". */
  lemma NameMatch()
    ensures Contains(ToLower("Pizza"), ToLower("pizza"))
    ensures !Contains(ToLower("Sushi"), ToLower("pizza"))
  {
    assert ToLower("Sushi") == "sushi" && ToLower("Pizza") == "pizza" && ToLower("pizza") == "pizza";
    assert !OccursAt("sushi", "pizza", 0);
    assert OccursAt("pizza", "pizza", 0);
  }

  /** "20-30" sorts as 20. */
  lemma RangeStartMinutes()
    ensures DeliveryMinutes(Some("20-30")) == Some(20)
  {
    var ds, tail := "20", "-30";
    assert ds + tail == "20-30";
    DecimalRangeMinutes(ds, tail);
    assert DigitsValue(ds, 10) == 20 by {
      assert ds[..1] == "2" && "2"[..0] == "";
    }
  }

  /**
   * The page state. `filterRestaurants` starts from the `restaurants` array
   * itself; each `filter` makes a new array, but `sort` works in place, so
   * when neither filter applies the sort reorders `restaurants` too.
   */
  class RestaurantsPage {
    var restaurants: seq<Restaurant>
    var filteredRestaurants: seq<Restaurant>
    var searchQuery: string
    var selectedCuisine: string
    var sortBy: string

    constructor ()
      ensures restaurants == [] && filteredRestaurants == []
      ensures searchQuery == "" && selectedCuisine == "all" && sortBy == "rating"
    {
      restaurants, filteredRestaurants := [], [];
      searchQuery, selectedCuisine, sortBy := "", "all", "rating";
    }

    /** `loadRestaurants` once `Restaurant.list("-rating")` has produced `all`. */
    method LoadRestaurants(all: seq<Restaurant>)
      modifies this
      ensures restaurants == all
      ensures filteredRestaurants == old(filteredRestaurants)
      ensures searchQuery == old(searchQuery) && selectedCuisine == old(selectedCuisine) && sortBy == old(sortBy)
    {
      restaurants := all;
    }

    /** `filterRestaurants()`. */
    method FilterRestaurants()
      requires Sortable(Filtered(restaurants, searchQuery, selectedCuisine), sortBy)
      modifies this
      ensures searchQuery == old(searchQuery) && selectedCuisine == old(selectedCuisine) && sortBy == old(sortBy)
      ensures filteredRestaurants == Apply(old(restaurants), searchQuery, selectedCuisine, sortBy)
      ensures restaurants == if Trim(searchQuery) == [] && selectedCuisine == "all" && SortFieldOf(sortBy).Some?
        then filteredRestaurants else old(restaurants)
      ensures multiset(restaurants) == multiset(old(restaurants))
    {
      var filtered := restaurants;
      var shared := true;  // `filtered` is still the state array itself
      if Trim(searchQuery) != [] {
        filtered := Filter(filtered, QueryMatches(searchQuery));
        shared := false;
      }
      if selectedCuisine != "all" {
        filtered := Filter(filtered, CuisineIs(selectedCuisine));
        shared := false;
      }
      match SortFieldOf(sortBy) {
        case Some(field) =>
          filtered := Sort(filtered, KeyOf(field));
          if shared {
            restaurants := filtered;
          }
        case None =>
      }
      filteredRestaurants := filtered;
    }
  }
}
