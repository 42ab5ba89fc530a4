/** The normalisers of the lennar.com scraper: price text to an integer, the
    first number in a text, state slugs to two-letter codes, and the split of
    a community's location line into city, state and ZIP. Each regular
    expression of the source is an explicit scan: `XAt(s, i)` says what the
    pattern matches when it starts at position i, and `Leftmost` picks the
    first start position, as `re.search` does. */
module LennarNormalize {
  import opened Common
  import opened Text

  // ---------------------------------------------------------------------------
  // Prices (`_parse_price`; `_extract_price` of the Zillow scraper is the same code)

  /** The digits of the text read as one decimal integer; None when it has no
      digit, or more digits than `int` converts (its ValueError is caught). */
  function ParsePrice(text: string): (r: Option<nat>)
    ensures r.None? <==> (forall k :: 0 <= k < |text| ==> !IsDigit(text[k])) || |KeepDigits(text)| > MaxIntDigits
    ensures r.Some? ==> r.value == DecimalValue(KeepDigits(text))
  {
    var clean := KeepDigits(text);
    if clean != [] && |clean| <= MaxIntDigits then Some(DecimalValue(clean)) else None
  }

  /** Separators and currency signs do not matter, only the digits in order. */
  lemma {:induction false} ParsePriceIgnoresSeparators(a: string, sep: string, b: string)
    requires forall k :: 0 <= k < |sep| ==> !IsDigit(sep[k])
    ensures ParsePrice(a + sep + b) == ParsePrice(a + b)
  {
    assert KeepDigits(sep) == [];
    KeepDigitsAppend(a + sep, b);
    KeepDigitsAppend(a, sep);
    KeepDigitsAppend(a, b);
    assert KeepDigits(a + sep + b) == KeepDigits(a + b);
  }

  // ---------------------------------------------------------------------------
  // First number (`_extract_number`: `re.search(r'[\d,.]+', text)`)

  predicate IsNumberChar(c: char) { IsDigit(c) || c == ',' || c == '.' }

  /** `[\d,.]+` started at position i: the greedy run of number characters. */
  function NumberAt(s: string, i: nat): (r: Option<string>)
    ensures r.Some? <==> i < |s| && IsNumberChar(s[i])
  {
    if i < |s| && IsNumberChar(s[i]) then Some(s[i..RunEnd(s, i, IsNumberChar)]) else None
  }

  /** The leftmost maximal run of digits, commas and periods, or "" when there is none. */
  function ExtractNumber(s: string): (r: string)
    ensures r == "" <==> forall k :: 0 <= k < |s| ==> !IsNumberChar(s[k])
    ensures r != "" ==>
      exists i :: 0 <= i < |s| && OccursAt(s, i, r)
        && (forall k :: 0 <= k < i ==> !IsNumberChar(s[k]))
        && (forall k :: i <= k < i + |r| ==> IsNumberChar(s[k]))
        && (i + |r| == |s| || !IsNumberChar(s[i + |r|]))
  {
    var at := i => NumberAt(s, i);
    assert forall i :: at(i) == NumberAt(s, i);
    match Leftmost(0, |s|, at)
    case None =>
      forall k | 0 <= k < |s| ensures !IsNumberChar(s[k]) {
        assert NumberAt(s, k).None?;
      }
      ""
    case Some((i, t)) =>
      assert NumberAt(s, i) == Some(t);
      var e := RunEnd(s, i, IsNumberChar);
      assert t == s[i..e] && OccursAt(s, i, t) && |t| >= 1;
      forall k | 0 <= k < i ensures !IsNumberChar(s[k]) {
        assert NumberAt(s, k).None?;
      }
      forall k | i <= k < i + |t| ensures IsNumberChar(s[k]) {
        assert IsNumberChar(s[k]);
      }
      assert i + |t| == |s| || !IsNumberChar(s[i + |t|]);
      t
  }

  // ---------------------------------------------------------------------------
  // State slugs (`_state_slug_to_abbrev`)

  /** The slug table: the fifty states, and no District of Columbia. It is the
      union of seven groups of at most eight entries (alphabetical, keys
      disjoint), so that facts about every entry can be checked group by group. */
  const StateCodes: map<string, string> := StateCodesLow + StateCodesHigh
  const StateCodesLow: map<string, string> := StateCodes0 + StateCodes1 + StateCodes2 + StateCodes3
  const StateCodesHigh: map<string, string> := StateCodes4 + StateCodes5 + StateCodes6

  const StateCodes0: map<string, string> := map[
    "alabama" := "AL", "alaska" := "AK", "arizona" := "AZ", "arkansas" := "AR",
    "california" := "CA", "colorado" := "CO", "connecticut" := "CT", "delaware" := "DE"]
  const StateCodes1: map<string, string> := map[
    "florida" := "FL", "georgia" := "GA", "hawaii" := "HI", "idaho" := "ID",
    "illinois" := "IL", "indiana" := "IN", "iowa" := "IA", "kansas" := "KS"]
  const StateCodes2: map<string, string> := map[
    "kentucky" := "KY", "louisiana" := "LA", "maine" := "ME", "maryland" := "MD",
    "massachusetts" := "MA", "michigan" := "MI", "minnesota" := "MN", "mississippi" := "MS"]
  const StateCodes3: map<string, string> := map[
    "missouri" := "MO", "montana" := "MT", "nebraska" := "NE", "nevada" := "NV",
    "new-hampshire" := "NH", "new-jersey" := "NJ", "new-mexico" := "NM", "new-york" := "NY"]
  const StateCodes4: map<string, string> := map[
    "north-carolina" := "NC", "north-dakota" := "ND", "ohio" := "OH", "oklahoma" := "OK",
    "oregon" := "OR", "pennsylvania" := "PA", "rhode-island" := "RI", "south-carolina" := "SC"]
  const StateCodes5: map<string, string> := map[
    "south-dakota" := "SD", "tennessee" := "TN", "texas" := "TX", "utah" := "UT",
    "vermont" := "VT", "virginia" := "VA", "washington" := "WA", "west-virginia" := "WV"]
  const StateCodes6: map<string, string> := map[
    "wisconsin" := "WI", "wyoming" := "WY"]

  predicate IsStateCode(code: string) {
    |code| == 2 && IsUpper(code[0]) && IsUpper(code[1])
  }

  /** The table entry of the lower-cased slug, else the slug's first two
      characters upper-cased. */
  function SlugToAbbrev(slug: string): (r: string)
    ensures Lower(slug) in StateCodes ==> r == StateCodes[Lower(slug)]
    ensures Lower(slug) !in StateCodes ==> r == Upper(slug)[..if |slug| < 2 then |slug| else 2]
    ensures |r| <= 2 && (slug != "" ==> r != "")
  {
    var key := Lower(slug);
    if key in StateCodes then
      StateCodeShape(key);
      StateCodes[key]
    else Upper(slug)[..if |slug| < 2 then |slug| else 2]
  }

  /** Every code in the table is two capital letters, none is "DC", and every
      slug has at least four characters. */
  lemma StateCodeShape(slug: string)
    requires slug in StateCodes
    ensures IsStateCode(StateCodes[slug]) && StateCodes[slug] != "DC" && |slug| >= 4
  {
    if slug in StateCodesHigh {
      assert StateCodes[slug] == StateCodesHigh[slug];
      StateCodeShapeHigh(slug);
    } else {
      assert StateCodes[slug] == StateCodesLow[slug];
      StateCodeShapeLow(slug);
    }
  }

  lemma StateCodeShapeHigh(slug: string)
    requires slug in StateCodesHigh
    ensures IsStateCode(StateCodesHigh[slug]) && StateCodesHigh[slug] != "DC" && |slug| >= 4
  {
    if slug in StateCodes6 {
      assert StateCodesHigh[slug] == StateCodes6[slug];
      StateCodeShape6(slug);
    } else if slug in StateCodes5 {
      assert StateCodesHigh[slug] == StateCodes5[slug];
      StateCodeShape5(slug);
    } else {
      StateCodeShape4(slug);
    }
  }

  lemma StateCodeShapeLow(slug: string)
    requires slug in StateCodesLow
    ensures IsStateCode(StateCodesLow[slug]) && StateCodesLow[slug] != "DC" && |slug| >= 4
  {
    if slug in StateCodes3 {
      assert StateCodesLow[slug] == StateCodes3[slug];
      StateCodeShape3(slug);
    } else if slug in StateCodes2 {
      assert StateCodesLow[slug] == StateCodes2[slug];
      StateCodeShape2(slug);
    } else if slug in StateCodes1 {
      assert StateCodesLow[slug] == StateCodes1[slug];
      StateCodeShape1(slug);
    } else {
      StateCodeShape0(slug);
    }
  }

  lemma StateCodeShape0(slug: string)
    requires slug in StateCodes0
    ensures IsStateCode(StateCodes0[slug]) && StateCodes0[slug] != "DC" && |slug| >= 4
  {
  }

  lemma StateCodeShape1(slug: string)
    requires slug in StateCodes1
    ensures IsStateCode(StateCodes1[slug]) && StateCodes1[slug] != "DC" && |slug| >= 4
  {
  }

  lemma StateCodeShape2(slug: string)
    requires slug in StateCodes2
    ensures IsStateCode(StateCodes2[slug]) && StateCodes2[slug] != "DC" && |slug| >= 4
  {
  }

  lemma StateCodeShape3(slug: string)
    requires slug in StateCodes3
    ensures IsStateCode(StateCodes3[slug]) && StateCodes3[slug] != "DC" && |slug| >= 4
  {
  }

  lemma StateCodeShape4(slug: string)
    requires slug in StateCodes4
    ensures IsStateCode(StateCodes4[slug]) && StateCodes4[slug] != "DC" && |slug| >= 4
  {
  }

  lemma StateCodeShape5(slug: string)
    requires slug in StateCodes5
    ensures IsStateCode(StateCodes5[slug]) && StateCodes5[slug] != "DC" && |slug| >= 4
  {
  }

  lemma StateCodeShape6(slug: string)
    requires slug in StateCodes6
    ensures IsStateCode(StateCodes6[slug]) && StateCodes6[slug] != "DC" && |slug| >= 4
  {
  }

  lemma {:induction false} LowerUpper(s: string)
    ensures Lower(Upper(s)) == Lower(s) && Upper(Upper(s)) == Upper(s)
    ensures Lower(Lower(s)) == Lower(s) && Upper(Lower(s)) == Upper(s)
  {
  }

  /** The lookup ignores ASCII case: "texas", "Texas" and "TEXAS" give one code. */
  lemma SlugToAbbrevIgnoresCase(slug: string)
    ensures SlugToAbbrev(Upper(slug)) == SlugToAbbrev(slug)
    ensures SlugToAbbrev(Lower(slug)) == SlugToAbbrev(slug)
  {
    LowerUpper(slug);
    var n := if |slug| < 2 then |slug| else 2;
    assert |Upper(slug)| == |Lower(slug)| == |slug|;
  }

  lemma SlugToAbbrevExample()
    ensures SlugToAbbrev("texas") == "TX"
  {
    var lower := Lower("texas");
    assert lower == "texas" by {
      assert forall k :: 0 <= k < |lower| ==> lower[k] == ToLower("texas"[k]);
    }
    TexasCode();
  }

  lemma TexasCode()
    ensures "texas" in StateCodes && StateCodes["texas"] == "TX"
  {
    TexasHigh();
  }

  lemma TexasHigh()
    ensures "texas" in StateCodesHigh && StateCodesHigh["texas"] == "TX"
  {
    assert "texas" in StateCodes5 && StateCodes5["texas"] == "TX";
    assert "texas" !in StateCodes6;
  }

  /** A hint that is already a code, such as "tx", is its own upper-cased
      code: every slug in the table has at least four characters. */
  lemma {:induction false} SlugToAbbrevShortSlug(slug: string)
    requires |slug| <= 3
    ensures SlugToAbbrev(slug) == Upper(slug)[..if |slug| < 2 then |slug| else 2]
  {
    if Lower(slug) in StateCodes {
      StateCodeShape(Lower(slug));
      assert false;
    }
  }

  // ---------------------------------------------------------------------------
  // Location lines (`_parse_location`)

  /** `\b` before a word character at i. */
  predicate BoundaryBefore(s: string, i: nat)
    requires i <= |s|
  {
    i == 0 || !IsWordChar(s[i - 1])
  }

  /** `\b` after a word character at j - 1. */
  predicate BoundaryAfter(s: string, j: nat)
    requires j <= |s|
  {
    j == |s| || !IsWordChar(s[j])
  }

  /** Five digits, '-' and four digits at i, between word boundaries: the
      longer alternative of the ZIP pattern. */
  predicate ZipPlus4At(s: string, i: nat) {
    i + 10 <= |s| && AllDigits(s[i..i + 5]) && s[i + 5] == '-' && AllDigits(s[i + 6..i + 10])
    && BoundaryBefore(s, i) && BoundaryAfter(s, i + 10)
  }

  /** `\b(\d{5}(?:-\d{4})?)\b` started at i. The optional "-dddd" is tried
      first; when no boundary follows it, the five digits alone are tried. */
  function ZipAt(s: string, i: nat): (r: Option<string>)
    ensures r.Some? ==>
      (|r.value| == 5 || |r.value| == 10) && OccursAt(s, i, r.value)
        && AllDigits(r.value[..5]) && BoundaryBefore(s, i) && BoundaryAfter(s, i + |r.value|)
        && (|r.value| == 10 ==> r.value[5] == '-' && AllDigits(r.value[6..]))
    ensures i + 5 <= |s| && AllDigits(s[i..i + 5]) && BoundaryBefore(s, i) && BoundaryAfter(s, i + 5)
      ==> r.Some?
    ensures ZipPlus4At(s, i) ==> r == Some(s[i..i + 10])
    ensures r.Some? && |r.value| == 5 ==> !ZipPlus4At(s, i) && r.value == s[i..i + 5]
  {
    if i + 5 <= |s| && AllDigits(s[i..i + 5]) && BoundaryBefore(s, i) then
      if i + 10 <= |s| && s[i + 5] == '-' && AllDigits(s[i + 6..i + 10]) && BoundaryAfter(s, i + 10)
      then
        assert s[i..i + 10][..5] == s[i..i + 5] && s[i..i + 10][6..] == s[i + 6..i + 10];
        Some(s[i..i + 10])
      else if BoundaryAfter(s, i + 5) then Some(s[i..i + 5])
      else None
    else None
  }

  /** `\b([A-Z]{2})\b` started at i. */
  function StateTokenAt(s: string, i: nat): (r: Option<string>)
    ensures r.Some? <==> i + 2 <= |s| && IsUpper(s[i]) && IsUpper(s[i + 1])
                         && BoundaryBefore(s, i) && BoundaryAfter(s, i + 2)
    ensures r.Some? ==> r.value == s[i..i + 2] && IsStateCode(r.value)
  {
    if i + 2 <= |s| && IsUpper(s[i]) && IsUpper(s[i + 1]) && BoundaryBefore(s, i) && BoundaryAfter(s, i + 2)
    then Some(s[i..i + 2])
    else None
  }

  /** The first standalone ZIP code (five digits, optionally "-dddd"), or "". */
  function FindZip(s: string): (zip: string)
    ensures zip == "" <==> forall i :: 0 <= i <= |s| ==> ZipAt(s, i).None?
    ensures zip != "" ==> exists i :: 0 <= i <= |s| && ZipAt(s, i) == Some(zip)
                                      && forall j :: 0 <= j < i ==> ZipAt(s, j).None?
  {
    var at := i => ZipAt(s, i);
    assert forall i :: at(i) == ZipAt(s, i);
    match Leftmost(0, |s|, at)
    case None => ""
    case Some((i, z)) => z
  }

  /** The first standalone two-capital token, or "". */
  function FindStateToken(s: string): (st: string)
    ensures st == "" <==> forall i :: 0 <= i <= |s| ==> StateTokenAt(s, i).None?
    ensures st != "" ==> IsStateCode(st)
    ensures st != "" ==>
      exists i :: 0 <= i <= |s| && StateTokenAt(s, i) == Some(st)
        && forall j :: 0 <= j < i ==> StateTokenAt(s, j).None?
  {
    var at := i => StateTokenAt(s, i);
    assert forall i :: at(i) == StateTokenAt(s, i);
    match Leftmost(0, |s|, at)
    case None => ""
    case Some((i, t)) => t
  }

  predicate IsCityChar(c: char) { IsLetter(c) || IsSpace(c) }

  /** `\s*` followed by the literal `lit`, started at p (spaces may be given back). */
  predicate SpacesThen(s: string, p: nat, lit: string)
    decreases |s| - p
  {
    OccursAt(s, p, lit) || (p < |s| && IsSpace(s[p]) && SpacesThen(s, p + 1, lit))
  }

  /** `,?\s*STATE` started at j. */
  predicate CityTail(s: string, j: nat, state: string) {
    (j < |s| && s[j] == ',' && SpacesThen(s, j + 1, state)) || SpacesThen(s, j, state)
  }

  /** The longest group s[i..j], i < j <= hi, that a city tail follows. */
  function LongestCity(s: string, state: string, i: nat, hi: nat): (r: Option<string>)
    requires i <= hi <= |s|
    decreases hi
    ensures r.Some? ==> |r.value| >= 1 && i + |r.value| <= hi && OccursAt(s, i, r.value)
                        && CityTail(s, i + |r.value|, state)
                        && forall j :: i + |r.value| < j <= hi ==> !CityTail(s, j, state)
    ensures r.None? ==> forall j :: i < j <= hi ==> !CityTail(s, j, state)
  {
    if hi <= i then None
    else if CityTail(s, hi, state) then Some(s[i..hi])
    else LongestCity(s, state, i, hi - 1)
  }

  /** `([A-Za-z\s]+),?\s*STATE` started at i: the greedy letter-and-space run,
      given back one character at a time until the rest of the pattern matches. */
  function CityAt(s: string, state: string, i: nat): (r: Option<string>)
    ensures r.Some? ==>
      |r.value| >= 1 && OccursAt(s, i, r.value)
        && i + |r.value| <= RunEnd(s, i, IsCityChar)
        && (forall k :: 0 <= k < |r.value| ==> IsCityChar(r.value[k]))
        && CityTail(s, i + |r.value|, state)
        && forall j :: i + |r.value| < j <= RunEnd(s, i, IsCityChar) ==> !CityTail(s, j, state)
    ensures i < |s| && IsCityChar(s[i]) && CityTail(s, i + 1, state) ==> r.Some?
  {
    if i < |s| && IsCityChar(s[i]) then
      var m := RunEnd(s, i, IsCityChar);
      var r := LongestCity(s, state, i, m);
      if r.Some? then
        assert forall k :: 0 <= k < |r.value| ==> r.value[k] == s[i + k];
        r
      else None
    else None
  }

  /** The group of the leftmost city match, or None. */
  function FindCity(s: string, state: string): (r: Option<string>)
    ensures r.None? <==> forall i :: 0 <= i <= |s| ==> CityAt(s, state, i).None?
    ensures r.Some? ==> exists i :: 0 <= i <= |s| && CityAt(s, state, i) == r
                                    && forall j :: 0 <= j < i ==> CityAt(s, state, j).None?
  {
    var at := i => CityAt(s, state, i);
    assert forall i :: at(i) == CityAt(s, state, i);
    match Leftmost(0, |s|, at)
    case None => None
    case Some((i, g)) => Some(g)
  }

  datatype Location = Location(city: string, state: string, zip: string)

  /** The city for a known state: the stripped group of the leftmost city
      match, or "" when the state does not follow any letters and spaces. */
  function CityBefore(text: string, state: string): (city: string)
    ensures FindCity(text, state).Some? ==> city == Strip(FindCity(text, state).value)
    ensures FindCity(text, state).None? ==> city == ""
    ensures city != "" ==> !IsSpace(city[0]) && !IsSpace(city[|city| - 1])
    ensures forall k :: 0 <= k < |city| ==> IsLetter(city[k]) || IsSpace(city[k])
  {
    match FindCity(text, state)
    case Some(g) =>
      StripCityChars(g);
      Strip(g)
    case None => ""
  }

  /** `_parse_location`: ZIP and state from their patterns, the state hint's
      code when the text has no state token, and the city only once a state
      is known, from the text before that state. */
  function ParseLocation(text: string, stateHint: string): (loc: Location)
    ensures loc.zip == FindZip(text)
    ensures FindStateToken(text) != "" ==> loc.state == FindStateToken(text)
    ensures FindStateToken(text) == "" ==> loc.state == (if stateHint != "" then SlugToAbbrev(stateHint) else "")
    ensures loc.state == "" <==> FindStateToken(text) == "" && stateHint == ""
    ensures loc.city == (if loc.state != "" then CityBefore(text, loc.state) else "")
  {
    var zip := FindZip(text);
    var token := FindStateToken(text);
    var state := if token != "" then token else if stateHint != "" then SlugToAbbrev(stateHint) else "";
    var city := if state != "" then CityBefore(text, state) else "";
    Location(city, state, zip)
  }

  /** Stripping a letters-and-spaces group leaves letters and spaces. */
  lemma StripCityChars(g: string)
    requires forall k :: 0 <= k < |g| ==> IsCityChar(g[k])
    ensures forall k :: 0 <= k < |Strip(g)| ==> IsLetter(Strip(g)[k]) || IsSpace(Strip(g)[k])
  {
    var r := Strip(g);
    var i :| 0 <= i <= |g| - |r| && OccursAt(g, i, r)
             && (forall k :: 0 <= k < i ==> IsSpace(g[k]))
             && (forall k :: i + |r| <= k < |g| ==> IsSpace(g[k]));
    forall k | 0 <= k < |r| ensures IsCityChar(r[k]) {
      assert r[k] == g[i + k];
    }
  }

  /** "Dallas, TX 75201" gives city "Dallas", state "TX" and ZIP "75201". */
  lemma ParseLocationExample()
    ensures ParseLocation("Dallas, TX 75201", "") == Location("Dallas", "TX", "75201")
  {
    var s := "Dallas, TX 75201";
    ExampleZip(s);
    ExampleState(s);
    ExampleCity(s);
  }

  lemma ExampleZip(s: string)
    requires s == "Dallas, TX 75201"
    ensures FindZip(s) == "75201"
  {
    forall i | 0 <= i < 11 ensures ZipAt(s, i).None? {
      assert !IsDigit(s[i]);
      if i + 5 <= |s| { assert s[i..i + 5][0] == s[i]; }
    }
    assert s[11..16] == "75201";
    assert ZipAt(s, 11) == Some("75201");
  }

  lemma ExampleState(s: string)
    requires s == "Dallas, TX 75201"
    ensures FindStateToken(s) == "TX"
  {
    forall i | 0 <= i < 8 ensures StateTokenAt(s, i).None? {
      assert !IsUpper(s[i]) || !IsUpper(s[i + 1]);
    }
    assert s[8..10] == "TX";
    assert StateTokenAt(s, 8) == Some("TX");
  }

  lemma ExampleCity(s: string)
    requires s == "Dallas, TX 75201"
    ensures CityBefore(s, "TX") == "Dallas"
  {
    RunEndAt(s, 0, 6, IsCityChar);
    assert OccursAt(s, 8, "TX");
    assert CityTail(s, 6, "TX");
    assert s[0..6] == "Dallas";
    assert CityAt(s, "TX", 0) == Some("Dallas");
    StripIdentity("Dallas");
  }
}
