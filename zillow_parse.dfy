/** Listing extraction on Zillow: the street/city/state/ZIP parser
    (`_parse_address_components`), the details scan (`_parse_details`), the
    property card (`_parse_zillow_card`) and the listings of the page's
    embedded search data (`_parse_script_listings`). The helpers that fill a
    listing in Python mutate it in place; here they return the updated
    record. */
module ZillowParse {
  import opened Common
  import opened Text
  import opened UnitScan
  import opened LennarNormalize

  /** `ZillowLennarListing` without `latitude`/`longitude` (floats) and
      `scraped_at` (a clock reading). */
  datatype ZillowListing = ZillowListing(
    address: string,
    city: string,
    state: string,
    zipCode: string,
    price: string,
    priceNumeric: Option<int>,
    houseType: string,
    bedrooms: string,
    bathrooms: string,
    sqft: string,
    communityName: string,
    builder: string,
    status: string,
    listingUrl: string,
    imageUrl: string)

  /** A fresh `ZillowLennarListing()`: every text empty, the builder "Lennar". */
  const Blank: ZillowListing := ZillowListing("", "", "", "", "", None, "", "", "", "", "", "Lennar", "", "", "")

  // ---------------------------------------------------------------------------
  // `(.+?),\s*([^,]+),\s*([A-Z]{2})\s*(\d{5})?` with `re.match`

  /** The groups of a match; the ZIP group is optional. */
  datatype AddressMatch = AddressMatch(street: string, city: string, state: string, zip: Option<string>)

  predicate NotComma(c: char) { c != ',' }

  /** Five digits at position t. */
  predicate ZipAt5(s: string, t: nat) {
    t + 5 <= |s| && AllDigits(s[t..t + 5])
  }

  /** The match whose lazy first group ends at the comma at j. Worked out by
      hand: `[^,]+` can only end at the next comma c; when that comma comes
      right after the blanks, `\s*` gives back one blank for the group; the
      capitals must follow the blanks after c; the ZIP group is taken when
      five digits follow the blanks after the capitals. */
  function AddressAt(s: string, j: nat): (r: Option<AddressMatch>)
    ensures r.Some? ==> 1 <= j < |s| && s[j] == ',' && r.value.street == s[..j]
    ensures r.Some? ==> |r.value.city| >= 1 && ',' !in r.value.city
    ensures r.Some? ==> |r.value.state| == 2 && IsUpper(r.value.state[0]) && IsUpper(r.value.state[1])
    ensures r.Some? && r.value.zip.Some? ==> |r.value.zip.value| == 5 && AllDigits(r.value.zip.value)
  {
    if 1 <= j < |s| && s[j] == ',' then
      var k := SkipSpaces(s, j + 1);
      var c := RunEnd(s, k, NotComma);
      if c < |s| && (c > k || k >= j + 2) then
        var cityStart := if c > k then k else k - 1;
        var q := SkipSpaces(s, c + 1);
        if q + 2 <= |s| && IsUpper(s[q]) && IsUpper(s[q + 1]) then
          var t := SkipSpaces(s, q + 2);
          CommaFree(s, cityStart, c);
          Some(AddressMatch(s[..j], s[cityStart..c], s[q..q + 2], if ZipAt5(s, t) then Some(s[t..t + 5]) else None))
        else None
      else None
    else None
  }

  lemma CommaFree(s: string, a: nat, b: nat)
    requires a <= b <= |s|
    requires forall m :: a <= m < b ==> s[m] != ','
    ensures ',' !in s[a..b]
  {
    assert forall m :: 0 <= m < b - a ==> s[a..b][m] == s[a + m];
  }

  /** `.` does not match a newline, so the first group cannot cross one. */
  predicate NoNewlineBefore(s: string, j: nat) {
    j <= |s| && forall k :: 0 <= k < j ==> s[k] != '\n'
  }

  function AddressAtIfNoNewline(s: string, j: nat): Option<AddressMatch> {
    if NoNewlineBefore(s, j) then AddressAt(s, j) else None
  }

  /** The attempt with the lazy first group ending at j. */
  function AddressAttempt(s: string): nat -> Option<AddressMatch> {
    (j: nat) => AddressAtIfNoNewline(s, j)
  }

  /** The anchored match: the lazy first group is tried with ends 0, 1, ...,
      |s|; the first end at which the rest of the pattern matches wins. */
  function MatchAddress(s: string): (r: Option<AddressMatch>)
    ensures r.Some? ==> |r.value.state| == 2 && IsUpper(r.value.state[0]) && IsUpper(r.value.state[1])
    ensures r.Some? && r.value.zip.Some? ==> |r.value.zip.value| == 5 && AllDigits(r.value.zip.value)
  {
    match Leftmost(0, |s|, AddressAttempt(s))
    case None => None
    case Some((j, m)) =>
      assert AddressAtIfNoNewline(s, j) == Some(m);
      Some(m)
  }

  /** The match is the one at the leftmost comma where the rest matches, and
      there is none exactly when no comma works. */
  lemma MatchAddressLeftmost(s: string)
    ensures MatchAddress(s).None? <==> forall j :: 0 <= j <= |s| ==> AddressAtIfNoNewline(s, j).None?
    ensures MatchAddress(s).Some? ==>
      exists j :: 0 <= j <= |s| && AddressAtIfNoNewline(s, j) == MatchAddress(s) && NoNewlineBefore(s, j)
        && forall i :: 0 <= i < j ==> AddressAtIfNoNewline(s, i).None?
  {
    var at := AddressAttempt(s);
    assert forall j :: at(j) == AddressAtIfNoNewline(s, j);
    match Leftmost(0, |s|, at)
    case None =>
    case Some((j, m)) =>
      assert NoNewlineBefore(s, j);
  }

  /** The listing with the four address fields taken from another. */
  function WithAddressOf(l: ZillowListing, from: ZillowListing): ZillowListing {
    l.(address := from.address, city := from.city, state := from.state, zipCode := from.zipCode)
  }

  /** `_parse_address_components`: on a match, the trimmed street and city,
      the two capitals, and the ZIP when present (stripping those two changes
      nothing, see `ParseAddressComponents`); otherwise the comma-split
      fallback fills the street (two or more parts) and the city (three or
      more). Only the four address fields change. */
  function ApplyAddress(l: ZillowListing, full: string): (r: ZillowListing)
    ensures WithAddressOf(r, l) == l
    ensures MatchAddress(full).Some? ==>
      var m := MatchAddress(full).value;
      r.address == Strip(m.street) && r.city == Strip(m.city) && r.state == m.state
      && |r.state| == 2 && IsUpper(r.state[0]) && IsUpper(r.state[1])
      && r.zipCode == (if m.zip.Some? then m.zip.value else l.zipCode)
    ensures MatchAddress(full).None? ==>
      var parts := Split(full, ',');
      r.address == (if |parts| >= 2 then Strip(parts[0]) else l.address)
      && r.city == (if |parts| >= 3 then Strip(parts[1]) else l.city)
      && r.state == l.state && r.zipCode == l.zipCode
  {
    match MatchAddress(full)
    case Some(m) =>
      l.(address := Strip(m.street), city := Strip(m.city), state := m.state,
         zipCode := if m.zip.Some? then m.zip.value else l.zipCode)
    case None =>
      var parts := Split(full, ',');
      if |parts| >= 2 then
        l.(address := Strip(parts[0]), city := if |parts| >= 3 then Strip(parts[1]) else l.city)
      else l
  }

  /** Without a comma nothing matches and nothing changes. */
  lemma ApplyAddressNoComma(l: ZillowListing, full: string)
    requires ',' !in full
    ensures ApplyAddress(l, full) == l
  {
    MatchAddressLeftmost(full);
    SplitWithout(full, ',');
  }

  /** The imperative body of `_parse_address_components`. */
  method ParseAddressComponents(l: ZillowListing, full: string) returns (r: ZillowListing)
    ensures r == ApplyAddress(l, full)
  {
    r := l;
    var m := MatchAddress(full);
    if m.Some? {
      r := r.(address := Strip(m.value.street));
      r := r.(city := Strip(m.value.city));
      StripIdentity(m.value.state);
      r := r.(state := Strip(m.value.state));
      if m.value.zip.Some? && m.value.zip.value != "" {
        StripIdentity(m.value.zip.value);
        r := r.(zipCode := Strip(m.value.zip.value));
      }
    } else {
      var parts := Split(full, ',');
      if |parts| >= 2 {
        r := r.(address := Strip(parts[0]));
        if |parts| >= 3 {
          r := r.(city := Strip(parts[1]));
        }
      }
    }
  }

  /** Text that `str.strip()` leaves alone: no blank at either end. */
  predicate Trimmed(s: string) {
    |s| >= 1 && !IsSpace(s[0]) && !IsSpace(s[|s| - 1])
  }

  /** An address written "Street, City, ST ZIP" parses back into its parts. */
  lemma AddressRoundTrip(l: ZillowListing, street: string, city: string, st: string, zip: string)
    requires Trimmed(street) && ',' !in street && '\n' !in street
    requires Trimmed(city) && ',' !in city
    requires |st| == 2 && IsUpper(st[0]) && IsUpper(st[1])
    requires |zip| == 5 && AllDigits(zip)
    ensures ApplyAddress(l, street + ", " + city + ", " + st + " " + zip)
      == l.(address := street, city := city, state := st, zipCode := zip)
  {
    RoundTripMatch(street, city, st, zip);
    StripIdentity(street);
    StripIdentity(city);
  }

  /** The written address matches at the comma after the street. */
  lemma RoundTripMatch(street: string, city: string, st: string, zip: string)
    requires Trimmed(street) && ',' !in street && '\n' !in street
    requires Trimmed(city) && ',' !in city
    requires |st| == 2 && IsUpper(st[0]) && IsUpper(st[1])
    requires |zip| == 5 && AllDigits(zip)
    ensures MatchAddress(street + ", " + city + ", " + st + " " + zip) == Some(AddressMatch(street, city, st, Some(zip)))
  {
    var s := street + ", " + city + ", " + st + " " + zip;
    var j := |street|;
    forall i | 0 <= i < j ensures AddressAtIfNoNewline(s, i).None? {
      assert s[i] == street[i];
    }
    assert NoNewlineBefore(s, j) by {
      assert forall k :: 0 <= k < j ==> s[k] == street[k];
    }
    StreetMatch(street, city, st, zip);
    var at := AddressAttempt(s);
    assert at(j) == Some(AddressMatch(street, city, st, Some(zip)));
    assert forall i :: 0 <= i < j ==> at(i).None?;
    LeftmostAt(0, |s|, at, j);
  }

  /** The match at the comma j, from the characters around it. */
  lemma AddressAtShape(s: string, j: nat, c: nat, street: string, city: string, st: string, zip: string)
    requires 1 <= j && j + 2 < c && c + 10 <= |s|
    requires s[j] == ',' && s[j + 1] == ' ' && !IsSpace(s[j + 2])
    requires forall m :: j + 2 <= m < c ==> s[m] != ','
    requires s[c] == ',' && s[c + 1] == ' ' && IsUpper(s[c + 2]) && IsUpper(s[c + 3]) && s[c + 4] == ' '
    requires AllDigits(s[c + 5..c + 10])
    requires s[..j] == street && s[j + 2..c] == city && s[c + 2..c + 4] == st && s[c + 5..c + 10] == zip
    ensures AddressAt(s, j) == Some(AddressMatch(street, city, st, Some(zip)))
  {
    SkipSpacesAt(s, j + 1, j + 2);
    RunEndAt(s, j + 2, c, NotComma);
    SkipSpacesAt(s, c + 1, c + 2);
    assert IsDigit(s[c + 5..c + 10][0]);
    SkipSpacesAt(s, c + 4, c + 5);
    AddressAtPositions(s, j, j + 2, c, c + 2, c + 5);
  }

  /** The match at the comma j, from where each skip and run ends. */
  lemma AddressAtPositions(s: string, j: nat, k: nat, c: nat, q: nat, t: nat)
    requires 1 <= j < |s| && s[j] == ','
    requires k <= |s| && SkipSpaces(s, j + 1) == k
    requires RunEnd(s, k, NotComma) == c && k < c < |s|
    requires SkipSpaces(s, c + 1) == q && q + 2 <= |s| && IsUpper(s[q]) && IsUpper(s[q + 1])
    requires SkipSpaces(s, q + 2) == t && ZipAt5(s, t)
    ensures AddressAt(s, j) == Some(AddressMatch(s[..j], s[k..c], s[q..q + 2], Some(s[t..t + 5])))
  {
  }

  lemma StreetMatch(street: string, city: string, st: string, zip: string)
    requires Trimmed(street) && ',' !in street
    requires Trimmed(city) && ',' !in city
    requires |st| == 2 && IsUpper(st[0]) && IsUpper(st[1])
    requires |zip| == 5 && AllDigits(zip)
    ensures AddressAt(street + ", " + city + ", " + st + " " + zip, |street|)
      == Some(AddressMatch(street, city, st, Some(zip)))
  {
    var s := street + ", " + city + ", " + st + " " + zip;
    var j := |street|;
    var c := j + 2 + |city|;
    AddressLayout(street, city, st, zip);
    assert s[j + 2] == city[0];
    assert forall m :: j + 2 <= m < c ==> s[m] == s[j + 2..c][m - j - 2];
    assert s[c + 2] == st[0] && s[c + 3] == st[1];
    AddressAtShape(s, j, c, street, city, st, zip);
  }

  /** Where each part of a written address sits. */
  lemma AddressLayout(street: string, city: string, st: string, zip: string)
    requires |st| == 2 && |zip| == 5
    ensures var s := street + ", " + city + ", " + st + " " + zip;
      var j := |street|;
      var c := j + 2 + |city|;
      && |s| == c + 10 && s[..j] == street && s[j] == ',' && s[j + 1] == ' ' && s[j + 2..c] == city
      && s[c] == ',' && s[c + 1] == ' ' && s[c + 2..c + 4] == st && s[c + 4] == ' ' && s[c + 5..c + 10] == zip
  {
    var tail := ", " + st + " " + zip;
    var rest := city + tail;
    var s := street + ", " + rest;
    var j := |street|;
    var c := j + 2 + |city|;
    assert s == street + ", " + city + ", " + st + " " + zip;
    assert s[j + 2..] == rest;
    assert rest[|city|..] == tail;
    assert s[c..] == tail;
  }

  // ---------------------------------------------------------------------------
  // `_parse_details`

  const ZillowBedUnits: seq<Unit> := [Word("bd"), Word("bed"), Word("bds"), Word("beds")]
  const ZillowBathUnits: seq<Unit> := [Word("ba"), Word("bath"), Word("baths")]
  const ZillowSqftUnits: seq<Unit> := [Word("sqft"), SqFt]

  /** The house type of the details text: condo before townhouse/townhome
      before house/single family; none of them leaves the current type. */
  function DetailsHouseType(lowered: string, current: string): (t: string)
    ensures Contains(lowered, "condo") ==> t == "Condominium"
    ensures !Contains(lowered, "condo") && (Contains(lowered, "townhouse") || Contains(lowered, "townhome")) ==>
      t == "Townhome"
    ensures !Contains(lowered, "condo") && !Contains(lowered, "townhouse") && !Contains(lowered, "townhome")
            && (Contains(lowered, "house") || Contains(lowered, "single family")) ==>
      t == "Single Family"
    ensures !Contains(lowered, "condo") && !Contains(lowered, "townhouse") && !Contains(lowered, "townhome")
            && !Contains(lowered, "house") && !Contains(lowered, "single family") ==>
      t == current
  {
    if Contains(lowered, "condo") then "Condominium"
    else if Contains(lowered, "townhouse") || Contains(lowered, "townhome") then "Townhome"
    else if Contains(lowered, "house") || Contains(lowered, "single family") then "Single Family"
    else current
  }

  /** The listing with the four detail fields taken from another. */
  function WithDetailsOf(l: ZillowListing, from: ZillowListing): ZillowListing {
    l.(bedrooms := from.bedrooms, bathrooms := from.bathrooms, sqft := from.sqft, houseType := from.houseType)
  }

  /** `_parse_details`: each count is the group of the first match of its
      pattern (commas removed for the area), left unchanged without a match;
      only the four detail fields change. */
  function ApplyDetails(l: ZillowListing, text: string): (r: ZillowListing)
    ensures WithDetailsOf(r, l) == l
    ensures r.bedrooms == (match FindCount(text, Whole, ZillowBedUnits)
                           case Some(g) => g case None => l.bedrooms)
    ensures FindCount(text, Whole, ZillowBedUnits).Some? ==> |r.bedrooms| >= 1 && AllDigits(r.bedrooms)
    ensures r.bathrooms == (match FindCount(text, Decimal, ZillowBathUnits)
                            case Some(g) => g case None => l.bathrooms)
    ensures FindCount(text, Grouped, ZillowSqftUnits).Some? ==>
      r.sqft == Replace(FindCount(text, Grouped, ZillowSqftUnits).value, ',', "") && ',' !in r.sqft
    ensures FindCount(text, Grouped, ZillowSqftUnits).None? ==> r.sqft == l.sqft
    ensures r.houseType == DetailsHouseType(Lower(text), l.houseType)
  {
    var bed := FindCount(text, Whole, ZillowBedUnits);
    var bath := FindCount(text, Decimal, ZillowBathUnits);
    var area := FindCount(text, Grouped, ZillowSqftUnits);
    assert bed.Some? ==> HasShape(bed.value, Whole) by {
      if bed.Some? {
        var i :| 0 <= i < |text| && CountAt(text, i, Whole, ZillowBedUnits) == bed;
      }
    }
    l.(bedrooms := if bed.Some? then bed.value else l.bedrooms,
       bathrooms := if bath.Some? then bath.value else l.bathrooms,
       sqft := if area.Some? then Replace(area.value, ',', "") else l.sqft,
       houseType := DetailsHouseType(Lower(text), l.houseType))
  }

  /** The imperative body of `_parse_details`. */
  method ParseDetails(l: ZillowListing, text: string) returns (r: ZillowListing)
    ensures r == ApplyDetails(l, text)
  {
    r := l;
    var bed := FindCount(text, Whole, ZillowBedUnits);
    if bed.Some? {
      r := r.(bedrooms := bed.value);
    }
    var bath := FindCount(text, Decimal, ZillowBathUnits);
    if bath.Some? {
      r := r.(bathrooms := bath.value);
    }
    var area := FindCount(text, Grouped, ZillowSqftUnits);
    if area.Some? {
      r := r.(sqft := Replace(area.value, ',', ""));
    }
    var lowered := Lower(text);
    if Contains(lowered, "condo") {
      r := r.(houseType := "Condominium");
    } else if Contains(lowered, "townhouse") || Contains(lowered, "townhome") {
      r := r.(houseType := "Townhome");
    } else if Contains(lowered, "house") || Contains(lowered, "single family") {
      r := r.(houseType := "Single Family");
    }
  }

  // ---------------------------------------------------------------------------
  // `_parse_zillow_card`

  /** What `_parse_zillow_card` reads from a property card: its whole text,
      the stripped texts of the address, price and builder elements, the
      text of the details element, the href of the `/homedetails/` link and
      the image's `src`. */
  datatype ZillowCard = ZillowCard(
    text: string,
    address: Option<string>,
    price: Option<string>,
    details: Option<string>,
    detailsHref: Option<string>,
    imageSrc: Option<string>,
    builder: Option<string>)

  /** A fresh listing after `listing.address = full` and
      `_parse_address_components(listing, full)`. */
  function Addressed(full: string): ZillowListing {
    ApplyAddress(Blank.(address := full), full)
  }

  /** The street a full address leaves in a fresh listing. */
  function StreetOf(full: string): string {
    Addressed(full).address
  }

  /** The listing `_parse_zillow_card` fills in before it checks the address.
      `resolve` is `urljoin(ZILLOW_BASE, ·)`. */
  function ZillowCardFields(card: ZillowCard, resolve: string -> string): (l: ZillowListing)
    ensures l.builder == "Lennar" && l.communityName == "" && l.status == ""
    ensures l.address == (if card.address.Some? then StreetOf(card.address.value) else "")
    ensures card.address.Some? ==>
      var a := Addressed(card.address.value);
      l.city == a.city && l.state == a.state && l.zipCode == a.zipCode
    ensures card.address.None? ==> l.city == "" && l.state == "" && l.zipCode == ""
    ensures card.details.Some? ==>
      var d := ApplyDetails(Blank, card.details.value);
      l.bedrooms == d.bedrooms && l.bathrooms == d.bathrooms && l.sqft == d.sqft && l.houseType == d.houseType
    ensures card.details.None? ==> l.bedrooms == "" && l.bathrooms == "" && l.sqft == "" && l.houseType == ""
    ensures card.price.Some? ==> l.price == card.price.value && l.priceNumeric == ParsePrice(card.price.value)
    ensures card.price.None? ==> l.price == "" && l.priceNumeric.None?
    ensures l.listingUrl == (if card.detailsHref.Some? then resolve(card.detailsHref.value) else "")
    ensures l.imageUrl == (if card.imageSrc.Some? then card.imageSrc.value else "")
  {
    var l1 := if card.address.Some? then ApplyAddress(Blank.(address := card.address.value), card.address.value) else Blank;
    var l2 := if card.price.Some? then l1.(price := card.price.value, priceNumeric := ParsePrice(card.price.value)) else l1;
    var l3 := if card.details.Some? then ApplyDetails(l2, card.details.value) else l2;
    var l4 := if card.detailsHref.Some? then l3.(listingUrl := resolve(card.detailsHref.value)) else l3;
    if card.imageSrc.Some? then l4.(imageUrl := card.imageSrc.value) else l4
  }

  /** `_parse_zillow_card`: the listing exactly when its final street is
      non-empty; its builder is always "Lennar". */
  function ZillowCardListing(card: ZillowCard, resolve: string -> string): (r: Option<ZillowListing>)
    ensures r.Some? <==> card.address.Some? && StreetOf(card.address.value) != ""
    ensures r.Some? ==> r.value == ZillowCardFields(card, resolve) && r.value.builder == "Lennar"
  {
    var l := ZillowCardFields(card, resolve);
    if l.address != "" then Some(l) else None
  }

  /** The imperative body of `_parse_zillow_card`. */
  method ParseZillowCard(card: ZillowCard, resolve: string -> string) returns (r: Option<ZillowListing>)
    ensures r == ZillowCardListing(card, resolve)
  {
    var listing := Blank;
    if card.address.Some? {
      var full := card.address.value;
      listing := listing.(address := full);
      listing := ParseAddressComponents(listing, full);
    }
    if card.price.Some? {
      listing := listing.(price := card.price.value);
      listing := listing.(priceNumeric := ParsePrice(card.price.value));
    }
    if card.details.Some? {
      listing := ParseDetails(listing, card.details.value);
    }
    if card.detailsHref.Some? {
      listing := listing.(listingUrl := resolve(card.detailsHref.value));
    }
    if card.imageSrc.Some? {
      listing := listing.(imageUrl := card.imageSrc.value);
    }
    if card.builder.Some? && Contains(Lower(card.builder.value), "lennar") {
      listing := listing.(builder := "Lennar");
    }
    if listing.address != "" {
      r := Some(listing);
    } else {
      r := None;
    }
  }

  // ---------------------------------------------------------------------------
  // `_parse_script_listings`

  /** A JSON scalar of a search result. */
  datatype Scalar = SInt(n: int) | SStr(s: string)

  predicate Truthy(v: Scalar) {
    match v
    case SInt(n) => n != 0
    case SStr(t) => t != ""
  }

  /** Python's `str(v)`. */
  function ScalarText(v: Scalar): (t: string)
    ensures v.SStr? ==> t == v.s
    ensures v.SInt? ==> t == IntString(v.n)
  {
    match v
    case SInt(n) => IntString(n)
    case SStr(t) => t
  }

  /** A decoded search result; None is a key the result does not have. */
  datatype ScriptResult = ScriptResult(
    address: Option<string>,
    addressCity: Option<string>,
    addressState: Option<string>,
    addressZipcode: Option<string>,
    price: Option<Scalar>,
    unformattedPrice: Option<Scalar>,
    beds: Option<Scalar>,
    baths: Option<Scalar>,
    area: Option<Scalar>,
    detailUrl: Option<string>,
    builderName: Option<string>)

  /** The two result lists of the decoded page data: `cat1.searchResults.listResults`
      and `searchResults.listResults`, empty when the path is missing. */
  datatype ScriptData = ScriptData(cat1Results: seq<ScriptResult>, topResults: seq<ScriptResult>)

  /** The results the source walks: the first list, else the second. */
  function ScriptResults(d: ScriptData): (rs: seq<ScriptResult>)
    ensures d.cat1Results != [] ==> rs == d.cat1Results
    ensures d.cat1Results == [] ==> rs == d.topResults
  {
    if d.cat1Results != [] then d.cat1Results else d.topResults
  }

  /** Three decimal digits, with leading zeros. */
  function Pad3(r: nat): (ds: string)
    requires r < 1000
    ensures |ds| == 3 && AllDigits(ds) && DecimalValue(ds) == r
  {
    var a, b, c := r / 100, r / 10 % 10, r % 10;
    var ds := [DigitChar(a), DigitChar(b), DigitChar(c)];
    assert ds[..2][..1] == [DigitChar(a)];
    assert ds[..2] == [DigitChar(a), DigitChar(b)];
    assert ds[..1][..0] == [];
    assert DecimalValue(ds[..1]) == a;
    assert DecimalValue(ds[..2]) == a * 10 + b;
    assert DecimalValue(ds) == (a * 10 + b) * 10 + c;
    assert r / 10 == a * 10 + b;
    ds
  }

  /** `f"{n:,}"` for n >= 0: the decimal digits in groups of three. */
  function Thousands(n: nat): (t: string)
    decreases n
    ensures t != [] && IsDigit(t[0])
    ensures forall k :: 0 <= k < |t| ==> IsDigit(t[k]) || t[k] == ','
  {
    if n < 1000 then DecimalString(n) else Thousands(n / 1000) + "," + Pad3(n % 1000)
  }

  /** `f"${price:,}"` for an integer price. */
  function FormatPrice(n: int): (t: string)
    ensures n >= 0 ==> t == "$" + Thousands(n)
    ensures n < 0 ==> t == "$-" + Thousands(-n)
  {
    if n >= 0 then "$" + Thousands(n) else "$-" + Thousands(-n)
  }

  /** One more digit on the right of a number that has one already. */
  lemma DecimalStringShift(q: nat, d: nat)
    requires q >= 1 && d < 10
    ensures DecimalString(q * 10 + d) == DecimalString(q) + [DigitChar(d)]
  {
    assert (q * 10 + d) / 10 == q && (q * 10 + d) % 10 == d;
  }

  /** `str(n)` for n >= 1000 is `str(n // 1000)` followed by the last three digits. */
  lemma DecimalStringThousands(n: nat)
    requires n >= 1000
    ensures DecimalString(n) == DecimalString(n / 1000) + Pad3(n % 1000)
  {
    var q, r := n / 1000, n % 1000;
    var a, b, c := r / 100, r / 10 % 10, r % 10;
    DecimalStringShift(q, a);
    DecimalStringShift(q * 10 + a, b);
    DecimalStringShift((q * 10 + a) * 10 + b, c);
    assert ((q * 10 + a) * 10 + b) * 10 + c == n;
    assert Pad3(r) == [DigitChar(a), DigitChar(b), DigitChar(c)];
  }

  /** The digits of the grouped form are `str(n)`, so they spell n. */
  lemma {:induction false} ThousandsDigits(n: nat)
    decreases n
    ensures KeepDigits(Thousands(n)) == DecimalString(n)
    ensures KeepDigits(Thousands(n)) != [] && DecimalValue(KeepDigits(Thousands(n))) == n
  {
    if n < 1000 {
      KeepDigitsOfDigits(DecimalString(n));
      DecimalRoundTrip(n);
    } else {
      DecimalStringThousands(n);
      DecimalRoundTrip(n);
      ThousandsDigits(n / 1000);
      var hi := Thousands(n / 1000);
      var lo := Pad3(n % 1000);
      KeepDigitsAppend(hi + ",", lo);
      KeepDigitsAppend(hi, ",");
      KeepDigitsOfDigits(lo);
      assert KeepDigits(",") == [];
      assert Thousands(n) == hi + "," + lo;
      assert KeepDigits(Thousands(n)) == KeepDigits(hi) + lo;
    }
  }

  /** `_extract_price` reads back the integer a non-negative price was
      formatted from. */
  lemma FormatPriceRoundTrip(n: nat)
    ensures KeepDigits(FormatPrice(n)) == DecimalString(n)
    ensures |DecimalString(n)| <= MaxIntDigits ==> ParsePrice(FormatPrice(n)) == Some(n)
    ensures |DecimalString(n)| > MaxIntDigits ==> ParsePrice(FormatPrice(n)) == None
  {
    ThousandsDigits(n);
    var t := FormatPrice(n);
    assert t == "$" + Thousands(n);
    KeepDigitsAppend("$", Thousands(n));
    assert KeepDigits("$") == [];
    assert KeepDigits(t) == KeepDigits(Thousands(n));
  }

  /** The price the source reads: `price` when truthy, else `unformattedPrice`, else 0. */
  function ResultPrice(r: ScriptResult): (v: Scalar)
    ensures r.price.Some? && Truthy(r.price.value) ==> v == r.price.value
    ensures (r.price.None? || !Truthy(r.price.value)) ==> v == r.unformattedPrice.GetOr(SInt(0))
  {
    var p := r.price.GetOr(SStr(""));
    if Truthy(p) then p else r.unformattedPrice.GetOr(SInt(0))
  }

  function TextOr(v: Option<Scalar>): string {
    if v.Some? then ScalarText(v.value) else ""
  }

  /** The listing the source builds from one result. */
  function ResultListing(r: ScriptResult, resolve: string -> string): (l: ZillowListing)
    ensures l.address == r.address.GetOr("") && l.zipCode == r.addressZipcode.GetOr("")
    ensures l.city == r.addressCity.GetOr("") && l.state == r.addressState.GetOr("")
    ensures l.houseType == "" && l.communityName == "" && l.status == "" && l.imageUrl == ""
    ensures l.builder == r.builderName.GetOr("Lennar")
    ensures ResultPrice(r).SStr? ==> l.price == ResultPrice(r).s && l.priceNumeric == ParsePrice(l.price)
    ensures ResultPrice(r).SInt? ==> l.price == FormatPrice(ResultPrice(r).n) && l.priceNumeric == Some(ResultPrice(r).n)
    ensures l.bedrooms == TextOr(r.beds) && l.bathrooms == TextOr(r.baths) && l.sqft == TextOr(r.area)
    ensures l.listingUrl == resolve(r.detailUrl.GetOr(""))
  {
    var price := ResultPrice(r);
    Blank.(
      address := r.address.GetOr(""),
      city := r.addressCity.GetOr(""),
      state := r.addressState.GetOr(""),
      zipCode := r.addressZipcode.GetOr(""),
      price := if price.SStr? then price.s else FormatPrice(price.n),
      priceNumeric := if price.SStr? then ParsePrice(price.s) else Some(price.n),
      bedrooms := TextOr(r.beds),
      bathrooms := TextOr(r.baths),
      sqft := TextOr(r.area),
      listingUrl := resolve(r.detailUrl.GetOr("")),
      builder := r.builderName.GetOr("Lennar"))
  }

  /** With no price and a non-negative unformatted price, the display reads
      back as that number. */
  lemma ResultPriceRoundTrip(r: ScriptResult, resolve: string -> string, n: nat)
    requires r.price.None? || r.price.value == SStr("")
    requires r.unformattedPrice == Some(SInt(n))
    ensures ResultListing(r, resolve).price == "$" + Thousands(n)
    ensures ResultListing(r, resolve).priceNumeric == Some(n)
    ensures |DecimalString(n)| <= MaxIntDigits ==> ParsePrice(ResultListing(r, resolve).price) == Some(n)
  {
    FormatPriceRoundTrip(n);
  }

  /** A result survives the builder filter and has an address. */
  predicate KeepsResult(r: ScriptResult, builderFilter: bool) {
    (!builderFilter || Contains(Lower(r.builderName.GetOr("")), "lennar")) && r.address.GetOr("") != ""
  }

  /** The listings of a run of results, in order. */
  function ResultsListings(rs: seq<ScriptResult>, builderFilter: bool, resolve: string -> string)
    : (ls: seq<ZillowListing>)
    ensures |ls| <= |rs|
    ensures forall l :: l in ls ==> l.address != ""
    ensures builderFilter ==> forall l :: l in ls ==> Contains(Lower(l.builder), "lennar")
    ensures forall l :: l in ls ==> exists r :: r in rs && KeepsResult(r, builderFilter) && l == ResultListing(r, resolve)
    ensures forall r :: r in rs && KeepsResult(r, builderFilter) ==> ResultListing(r, resolve) in ls
  {
    if rs == [] then []
    else
      var r := rs[|rs| - 1];
      var init := ResultsListings(rs[..|rs| - 1], builderFilter, resolve);
      assert forall x :: x in rs[..|rs| - 1] ==> x in rs;
      assert forall x :: x in rs ==> x in rs[..|rs| - 1] || x == r;
      assert r in rs;
      if KeepsResult(r, builderFilter) then
        init + [ResultListing(r, resolve)]
      else init
  }

  /** The listings of two runs of results, one after the other. */
  lemma {:induction false} ResultsListingsAppend(a: seq<ScriptResult>, b: seq<ScriptResult>, builderFilter: bool,
                                                resolve: string -> string)
    ensures ResultsListings(a + b, builderFilter, resolve)
      == ResultsListings(a, builderFilter, resolve) + ResultsListings(b, builderFilter, resolve)
  {
    if b == [] {
      assert a + b == a;
    } else {
      var b', r := b[..|b| - 1], b[|b| - 1];
      var tail := if KeepsResult(r, builderFilter) then [ResultListing(r, resolve)] else [];
      calc {
        ResultsListings(a + b, builderFilter, resolve);
        { assert (a + b)[..|a + b| - 1] == a + b'; assert (a + b)[|a + b| - 1] == r; }
        ResultsListings(a + b', builderFilter, resolve) + tail;
        { ResultsListingsAppend(a, b', builderFilter, resolve); }
        ResultsListings(a, builderFilter, resolve) + ResultsListings(b', builderFilter, resolve) + tail;
        ResultsListings(a, builderFilter, resolve) + ResultsListings(b, builderFilter, resolve);
      }
    }
  }

  /** One result gives its listing exactly when it is kept; with
      `ResultsListingsAppend` this fixes the listings and their order. */
  lemma ResultsListingsOne(r: ScriptResult, builderFilter: bool, resolve: string -> string)
    ensures ResultsListings([r], builderFilter, resolve)
      == (if KeepsResult(r, builderFilter) then [ResultListing(r, resolve)] else [])
  {
    assert [r][..0] == [];
  }

  /** `_parse_script_listings` as a value. */
  function ScriptListings(d: ScriptData, builderFilter: bool, resolve: string -> string): (ls: seq<ZillowListing>)
    ensures |ls| <= |ScriptResults(d)|
    ensures forall l :: l in ls ==>
      l.address != "" && exists r :: r in ScriptResults(d) && KeepsResult(r, builderFilter) && l == ResultListing(r, resolve)
    ensures forall r :: r in ScriptResults(d) && KeepsResult(r, builderFilter) ==> ResultListing(r, resolve) in ls
  {
    ResultsListings(ScriptResults(d), builderFilter, resolve)
  }

  lemma ResultsStep(rs: seq<ScriptResult>, i: nat, builderFilter: bool, resolve: string -> string)
    requires i < |rs|
    ensures ResultsListings(rs[..i + 1], builderFilter, resolve) ==
      ResultsListings(rs[..i], builderFilter, resolve)
        + (if KeepsResult(rs[i], builderFilter) then [ResultListing(rs[i], resolve)] else [])
  {
    assert rs[..i + 1][..i] == rs[..i];
  }

  /** The loop of `_parse_script_listings`. */
  method ParseScriptListings(d: ScriptData, builderFilter: bool, resolve: string -> string)
    returns (listings: seq<ZillowListing>)
    ensures listings == ScriptListings(d, builderFilter, resolve)
  {
    var results := d.cat1Results;
    if results == [] {
      results := d.topResults;
    }
    listings := [];
    for i := 0 to |results|
      invariant listings == ResultsListings(results[..i], builderFilter, resolve)
    {
      ResultsStep(results, i, builderFilter, resolve);
      var listing := ResultListing(results[i], resolve);
      var builderName := Lower(results[i].builderName.GetOr(""));
      if builderFilter && !Contains(builderName, "lennar") {
        continue;
      }
      if listing.address != "" {
        listings := listings + [listing];
      }
    }
    assert results[..|results|] == results;
  }
}
