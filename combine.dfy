/** The driver script's own logic: the default search locations per state
    (`get_default_locations`) and the merge of both scrapers' listings into
    one deduplicated list of common records (`combine_results`). */
module Combine {
  import opened Common
  import opened Text
  import opened Dedup
  import opened LennarCards
  import LennarCrawl
  import opened ZillowParse
  import ZillowSearch

  // ---------------------------------------------------------------------------
  // `get_default_locations`

  /** The table of default locations, state key by state key, in the
      source's order. */
  const Table0: seq<(string, seq<string>)> := [
    ("arizona", ["Phoenix, AZ", "Tucson, AZ", "Mesa, AZ"]),
    ("california", ["Los Angeles, CA", "San Diego, CA", "Sacramento, CA",
                    "San Francisco, CA", "Riverside, CA", "Fresno, CA"]),
    ("colorado", ["Denver, CO", "Colorado Springs, CO", "Aurora, CO"])]

  const Table1: seq<(string, seq<string>)> := [
    ("florida", ["Miami, FL", "Orlando, FL", "Tampa, FL", "Jacksonville, FL",
                 "Fort Lauderdale, FL", "West Palm Beach, FL", "Naples, FL"]),
    ("georgia", ["Atlanta, GA", "Savannah, GA"]),
    ("idaho", ["Boise, ID"]),
    ("indiana", ["Indianapolis, IN"])]

  const Table2: seq<(string, seq<string>)> := [
    ("maryland", ["Baltimore, MD"]),
    ("minnesota", ["Minneapolis, MN"]),
    ("nevada", ["Las Vegas, NV", "Reno, NV", "Henderson, NV"]),
    ("new-jersey", ["Newark, NJ", "Jersey City, NJ"]),
    ("north-carolina", ["Charlotte, NC", "Raleigh, NC", "Durham, NC"])]

  const Table3: seq<(string, seq<string>)> := [
    ("oregon", ["Portland, OR"]),
    ("south-carolina", ["Charleston, SC", "Columbia, SC", "Myrtle Beach, SC"]),
    ("tennessee", ["Nashville, TN", "Memphis, TN"]),
    ("texas", ["Dallas, TX", "Houston, TX", "Austin, TX", "San Antonio, TX",
               "Fort Worth, TX", "El Paso, TX"])]

  const Table4: seq<(string, seq<string>)> := [
    ("utah", ["Salt Lake City, UT"]),
    ("virginia", ["Richmond, VA", "Virginia Beach, VA"]),
    ("washington", ["Seattle, WA", "Tacoma, WA"])]

  const Table: seq<(string, seq<string>)> := Table0 + Table1 + Table2 + Table3 + Table4

  /** The locations of a table, in order (`sum(all_locations.values(), [])`). */
  function Values(table: seq<(string, seq<string>)>): (r: seq<string>)
    ensures forall k, x :: 0 <= k < |table| && x in table[k].1 ==> x in r
    ensures forall x :: x in r ==> exists k :: 0 <= k < |table| && x in table[k].1
  {
    if table == [] then []
    else
      var init := table[..|table| - 1];
      assert forall k :: 0 <= k < |init| ==> init[k] == table[k];
      Values(init) + table[|table| - 1].1
  }

  lemma {:induction false} ValuesAppend(a: seq<(string, seq<string>)>, b: seq<(string, seq<string>)>)
    ensures Values(a + b) == Values(a) + Values(b)
  {
    if b == [] {
      assert a + b == a;
    } else {
      var b', last := b[..|b| - 1], b[|b| - 1].1;
      calc {
        Values(a + b);
        { assert (a + b)[..|a + b| - 1] == a + b'; assert (a + b)[|a + b| - 1] == b[|b| - 1]; }
        Values(a + b') + last;
        { ValuesAppend(a, b'); }
        (Values(a) + Values(b')) + last;
        Values(a) + (Values(b') + last);
        Values(a) + Values(b);
      }
    }
  }

  /** Every location of the table. */
  function AllLocations(): seq<string> {
    Values(Table)
  }

  lemma ValuesPrefix(t: seq<(string, seq<string>)>, n: nat)
    requires 0 < n <= |t|
    ensures |Values(t[..n])| == |Values(t[..n - 1])| + |t[n - 1].1|
  {
    assert t[..n][..n - 1] == t[..n - 1];
  }

  /** The table holds 19 states and 50 locations. */
  lemma AllLocationsCount()
    ensures |Table| == 19
    ensures |AllLocations()| == 50
  {
    Group0Count();
    Group1Count();
    Group2Count();
    Group3Count();
    Group4Count();
    ValuesAppend(Table0, Table1);
    ValuesAppend(Table0 + Table1, Table2);
    ValuesAppend(Table0 + Table1 + Table2, Table3);
    ValuesAppend(Table0 + Table1 + Table2 + Table3, Table4);
  }

  lemma Group0Count()
    ensures |Values(Table0)| == 12
  {
    assert Table0[..0] == [];
    ValuesPrefix(Table0, 1);
    ValuesPrefix(Table0, 2);
    ValuesPrefix(Table0, 3);
    assert Table0[..3] == Table0;
  }

  lemma Group1Count()
    ensures |Values(Table1)| == 11
  {
    assert Table1[..0] == [];
    ValuesPrefix(Table1, 1);
    ValuesPrefix(Table1, 2);
    ValuesPrefix(Table1, 3);
    ValuesPrefix(Table1, 4);
    assert Table1[..4] == Table1;
  }

  lemma Group2Count()
    ensures |Values(Table2)| == 10
  {
    assert Table2[..0] == [];
    ValuesPrefix(Table2, 1);
    ValuesPrefix(Table2, 2);
    ValuesPrefix(Table2, 3);
    ValuesPrefix(Table2, 4);
    ValuesPrefix(Table2, 5);
    assert Table2[..5] == Table2;
  }

  lemma Group3Count()
    ensures |Values(Table3)| == 12
  {
    assert Table3[..0] == [];
    ValuesPrefix(Table3, 1);
    ValuesPrefix(Table3, 2);
    ValuesPrefix(Table3, 3);
    ValuesPrefix(Table3, 4);
    assert Table3[..4] == Table3;
  }

  lemma Group4Count()
    ensures |Values(Table4)| == 5
  {
    assert Table4[..0] == [];
    ValuesPrefix(Table4, 1);
    ValuesPrefix(Table4, 2);
    ValuesPrefix(Table4, 3);
    assert Table4[..3] == Table4;
  }

  /** `all_locations.get(key, [])`: the entry of the first row with that key. */
  function Lookup(table: seq<(string, seq<string>)>, key: string): (r: seq<string>)
    ensures (forall k :: 0 <= k < |table| ==> table[k].0 != key) ==> r == []
    ensures r != [] ==>
      exists k :: 0 <= k < |table| && table[k].0 == key && r == table[k].1
                  && forall j :: 0 <= j < k ==> table[j].0 != key
  {
    if table == [] then []
    else if table[0].0 == key then table[0].1
    else Lookup(table[1..], key)
  }

  /** A lookup gives table entries, and nothing for a key the table lacks. */
  lemma {:induction false} LookupInValues(table: seq<(string, seq<string>)>, key: string)
    ensures forall x :: x in Lookup(table, key) ==> x in Values(table)
    ensures (forall k :: 0 <= k < |table| ==> table[k].0 != key) ==> Lookup(table, key) == []
  {
    if table != [] {
      assert table == [table[0]] + table[1..];
      ValuesAppend([table[0]], table[1..]);
      assert [table[0]][..0] == [];
      assert Values([table[0]]) == table[0].1;
      if table[0].0 != key {
        LookupInValues(table[1..], key);
        assert forall k :: 1 <= k < |table| ==> table[k].0 == table[1..][k - 1].0;
      }
    }
  }

  /** The row found for a key is its first row. */
  lemma {:induction false} LookupAt(table: seq<(string, seq<string>)>, key: string, k: nat)
    requires k < |table| && table[k].0 == key
    requires forall j :: 0 <= j < k ==> table[j].0 != key
    ensures Lookup(table, key) == table[k].1
  {
    if k > 0 {
      LookupAt(table[1..], key, k - 1);
    }
  }

  /** `state.lower().replace(' ', '-')`. */
  function StateKey(state: string): (key: string)
    ensures ' ' !in key
    ensures |key| == |state|
    ensures forall k :: 0 <= k < |state| ==> key[k] == (if state[k] == ' ' then '-' else ToLower(state[k]))
  {
    Replace(Lower(state), ' ', "-")
  }

  /** The locations of one state. */
  function StateLocations(state: string): seq<string> {
    Lookup(Table, StateKey(state))
  }

  /** The locations of the given states, in the given order. */
  function StatesLocations(states: seq<string>): (r: seq<string>)
    ensures forall x :: x in r ==> exists s :: s in states && x in StateLocations(s)
    ensures forall s, x :: s in states && x in StateLocations(s) ==> x in r
  {
    ConcatMap(states, StateLocations)
  }

  lemma {:induction false} StatesLocationsInTable(states: seq<string>)
    ensures forall x :: x in StatesLocations(states) ==> x in AllLocations()
  {
    if states != [] {
      StatesLocationsInTable(states[..|states| - 1]);
      LookupInValues(Table, StateKey(states[|states| - 1]));
    }
  }

  /** `get_default_locations`: with states, the locations of those states, or
      every location when none of them is known; without states (None or an
      empty list), every location. Never empty, and only table entries. */
  function DefaultLocations(states: Option<seq<string>>): (r: seq<string>)
    ensures r != []
    ensures forall x :: x in r ==> x in AllLocations()
    ensures states.None? || states.value == [] ==> r == AllLocations()
    ensures states.Some? && states.value != [] && StatesLocations(states.value) != [] ==>
      r == StatesLocations(states.value)
    ensures states.Some? && StatesLocations(states.value) == [] ==> r == AllLocations()
  {
    AllLocationsCount();
    if states.Some? && states.value != [] then
      StatesLocationsInTable(states.value);
      var found := StatesLocations(states.value);
      if found != [] then found else AllLocations()
    else AllLocations()
  }

  /** The locations of two runs of states are those of each run, in order;
      a repeated state repeats its locations. */
  lemma StatesLocationsAppend(a: seq<string>, b: seq<string>)
    ensures StatesLocations(a + b) == StatesLocations(a) + StatesLocations(b)
  {
    ConcatMapAppend(a, b, StateLocations);
  }

  /** A state the table does not know adds nothing. */
  lemma StatesLocationsUnknown(states: seq<string>, state: string)
    requires forall k :: 0 <= k < |Table| ==> Table[k].0 != StateKey(state)
    ensures StatesLocations(states + [state]) == StatesLocations(states)
  {
    LookupInValues(Table, StateKey(state));
    assert (states + [state])[..|states|] == states;
  }

  predicate HasKey(table: seq<(string, seq<string>)>, key: string) {
    exists k :: 0 <= k < |table| && table[k].0 == key
  }

  /** A lookup in two tables one after the other finds the first table's row
      when it has the key, and otherwise looks in the second. */
  lemma {:induction false} LookupAppend(a: seq<(string, seq<string>)>, b: seq<(string, seq<string>)>, key: string)
    ensures HasKey(a + b, key) <==> HasKey(a, key) || HasKey(b, key)
    ensures Lookup(a + b, key) == if HasKey(a, key) then Lookup(a, key) else Lookup(b, key)
  {
    if a == [] {
      assert a + b == b;
    } else {
      assert (a + b)[0] == a[0];
      assert (a + b)[1..] == a[1..] + b;
      LookupAppend(a[1..], b, key);
      if a[0].0 != key {
        assert HasKey(a, key) <==> HasKey(a[1..], key) by {
          assert forall k :: 1 <= k < |a| ==> a[k] == a[1..][k - 1];
          assert forall k :: 0 <= k < |a[1..]| ==> a[1..][k] == a[k + 1];
        }
        assert HasKey(a + b, key) <==> HasKey(a[1..] + b, key) by {
          assert forall k :: 1 <= k < |a + b| ==> (a + b)[k] == (a[1..] + b)[k - 1];
          assert forall k :: 0 <= k < |a[1..] + b| ==> (a[1..] + b)[k] == (a + b)[k + 1];
        }
      } else {
        assert HasKey(a, key) && HasKey(a + b, key);
      }
    }
  }

  /** A state name of two words has the two words' keys joined by a dash,
      so "North Carolina" looks up the row "north-carolina". */
  lemma StateKeyWords(a: string, b: string)
    ensures StateKey(a + " " + b) == StateKey(a) + "-" + StateKey(b)
  {
    var la, lb := Lower(a), Lower(b);
    assert Lower(a + " " + b) == la + " " + lb;
    ReplaceAppend(la + " ", lb, ' ', "-");
    ReplaceAppend(la, " ", ' ', "-");
    assert " "[1..] == [];
  }

  /** A row's key, written as the row has it, finds that row. */
  lemma StateKeyOfKey(key: string)
    requires forall k :: 0 <= k < |key| ==> !IsUpper(key[k]) && key[k] != ' '
    ensures StateKey(key) == key
  {
    assert Lower(key) == key;
    ReplaceAbsent(key, ' ', "-");
  }

  /** Lower-casing finds the row of a capitalised state. */
  lemma DefaultLocationsExample()
    ensures DefaultLocations(Some(["Idaho"])) == ["Boise, ID"]
  {
    IdahoKey();
    Idaho();
    assert ["Idaho"][..0] == [];
  }

  lemma IdahoKey()
    ensures StateKey("Idaho") == "idaho"
  {
    var lower := Lower("Idaho");
    assert lower == "idaho" by {
      assert forall k :: 0 <= k < |lower| ==> lower[k] == ToLower("Idaho"[k]);
    }
  }

  lemma Idaho()
    ensures Lookup(Table, "idaho") == ["Boise, ID"]
  {
    var key := "idaho";
    LookupAt(Table1, key, 2);
    assert HasKey(Table1, key) by { assert Table1[2].0 == key; }
    assert !HasKey(Table0, key);
    LookupAppend(Table0, Table1, key);
    LookupAppend(Table0 + Table1, Table2, key);
    LookupAppend(Table0 + Table1 + Table2, Table3, key);
    LookupAppend(Table0 + Table1 + Table2 + Table3, Table4, key);
  }

  /** The loop of `get_default_locations`. */
  method GetDefaultLocations(states: Option<seq<string>>) returns (locations: seq<string>)
    ensures locations == DefaultLocations(states)
  {
    if states.Some? && states.value != [] {
      var given := states.value;
      locations := [];
      for i := 0 to |given|
        invariant locations == StatesLocations(given[..i])
      {
        assert given[..i + 1][..i] == given[..i];
        assert given[..i + 1][i] == given[i];
        var stateKey := Replace(Lower(given[i]), ' ', "-");
        locations := locations + Lookup(Table, stateKey);
      }
      assert given[..|given|] == given;
      if locations == [] {
        locations := AllLocations();
      }
      return;
    }
    locations := AllLocations();
  }

  // ---------------------------------------------------------------------------
  // `combine_results`

  datatype Source = LennarCom | Zillow {
    /** The `source` column. */
    function Name(): string {
      match this
      case LennarCom => "Lennar.com"
      case Zillow => "Zillow"
    }
  }

  /** One row of the combined list. */
  datatype Record = Record(
    source: Source,
    communityName: string,
    address: string,
    city: string,
    state: string,
    zipCode: string,
    price: string,
    priceNumeric: Option<int>,
    houseType: string,
    bedrooms: string,
    bathrooms: string,
    sqft: string,
    planName: string,
    status: string,
    url: string)

  /** A Lennar listing as a combined row: its location is the address; every
      other column is copied. */
  function FromLennar(l: LennarListing): (r: Record)
    ensures r.source == LennarCom && r.address == l.location && r.communityName == l.communityName
    ensures r.price == l.price && r.url == l.url && r.planName == l.planName
    ensures r.city == l.city && r.state == l.state && r.zipCode == l.zipCode && r.priceNumeric == l.priceNumeric
    ensures r.houseType == l.houseType && r.bedrooms == l.bedrooms && r.bathrooms == l.bathrooms
    ensures r.sqft == l.sqft && r.status == l.status
  {
    Record(LennarCom, l.communityName, l.location, l.city, l.state, l.zipCode, l.price, l.priceNumeric,
           l.houseType, l.bedrooms, l.bathrooms, l.sqft, l.planName, l.status, l.url)
  }

  /** A Zillow listing as a combined row: the listing URL is the url, the
      plan name is empty; every other column is copied. */
  function FromZillow(z: ZillowListing): (r: Record)
    ensures r.source == Zillow && r.address == z.address && r.communityName == z.communityName
    ensures r.price == z.price && r.url == z.listingUrl && r.planName == ""
    ensures r.city == z.city && r.state == z.state && r.zipCode == z.zipCode && r.priceNumeric == z.priceNumeric
    ensures r.houseType == z.houseType && r.bedrooms == z.bedrooms && r.bathrooms == z.bathrooms
    ensures r.sqft == z.sqft && r.status == z.status
  {
    Record(Zillow, z.communityName, z.address, z.city, z.state, z.zipCode, z.price, z.priceNumeric,
           z.houseType, z.bedrooms, z.bathrooms, z.sqft, "", z.status, z.listingUrl)
  }

  /** The Lennar key: the location, or the community name when the location
      is empty, with the display price. */
  function LennarKey(l: LennarListing): (k: (string, string))
    ensures k.1 == l.price
    ensures l.location != "" ==> k.0 == l.location
    ensures l.location == "" ==> k.0 == l.communityName
  {
    (if l.location != "" then l.location else l.communityName, l.price)
  }

  /** The Zillow key: the street and the display price. */
  function ZillowKey(z: ZillowListing): (k: (string, string))
    ensures k.0 == z.address && k.1 == z.price
  {
    (z.address, z.price)
  }

  /** The key of a combined row, the one its listing had. */
  function RecordKey(r: Record): (k: (string, string))
    ensures k.1 == r.price
    ensures r.source == Zillow || r.address != "" ==> k.0 == r.address
    ensures r.source == LennarCom && r.address == "" ==> k.0 == r.communityName
  {
    (if r.source == LennarCom && r.address == "" then r.communityName else r.address, r.price)
  }

  lemma RecordKeys(l: LennarListing, z: ZillowListing)
    ensures RecordKey(FromLennar(l)) == LennarKey(l)
    ensures RecordKey(FromZillow(z)) == ZillowKey(z)
  {
  }

  function LennarRecords(ls: seq<LennarListing>): seq<Record> {
    Map(ls, FromLennar)
  }

  function ZillowRecords(zs: seq<ZillowListing>): seq<Record> {
    Map(zs, FromZillow)
  }

  /** Every converted listing, Lennar's first, before the dedup. */
  function Candidates(ls: seq<LennarListing>, zs: seq<ZillowListing>): seq<Record> {
    LennarRecords(ls) + ZillowRecords(zs)
  }

  /** `combine_results` on the two scrapers' listings (an absent scraper has
      none): the rows whose key no earlier row had, Lennar's before Zillow's. */
  function Combined(ls: seq<LennarListing>, zs: seq<ZillowListing>): (r: seq<Record>)
    ensures |r| <= |ls| + |zs|
    ensures forall i, j :: 0 <= i < j < |r| ==> RecordKey(r[i]) != RecordKey(r[j])
  {
    UniqueSubset(Candidates(ls, zs), RecordKey);
    UniqueKeysDistinct(Candidates(ls, zs), RecordKey);
    Unique(Candidates(ls, zs), RecordKey)
  }

  /** At most one row per key, every row a candidate, and every candidate's
      key kept. */
  lemma CombinedValid(ls: seq<LennarListing>, zs: seq<ZillowListing>)
    ensures |Combined(ls, zs)| <= |ls| + |zs|
    ensures forall i, j :: 0 <= i < j < |Combined(ls, zs)| ==> RecordKey(Combined(ls, zs)[i]) != RecordKey(Combined(ls, zs)[j])
    ensures forall r :: r in Combined(ls, zs) ==> r in Candidates(ls, zs)
    ensures KeySet(Combined(ls, zs), RecordKey) == KeySet(Candidates(ls, zs), RecordKey)
  {
    var cands := Candidates(ls, zs);
    assert |cands| == |ls| + |zs|;
    UniqueSubset(cands, RecordKey);
    UniqueKeysDistinct(cands, RecordKey);
    UniqueKeySet(cands, RecordKey);
  }

  /** A row survives exactly when it is the first candidate with its key. */
  lemma CombinedFirstOccurrences(ls: seq<LennarListing>, zs: seq<ZillowListing>)
    ensures Combined(ls, zs) == FirstOccurrences(Candidates(ls, zs), RecordKey, |Candidates(ls, zs)|)
  {
    UniqueIsFirstOccurrences(Candidates(ls, zs), RecordKey);
  }

  /** The Lennar survivors come first, as Lennar's own dedup leaves them;
      every later row is a Zillow row. */
  lemma CombinedOrder(ls: seq<LennarListing>, zs: seq<ZillowListing>)
    ensures var lennar := Unique(LennarRecords(ls), RecordKey);
      |lennar| <= |Combined(ls, zs)| && Combined(ls, zs)[..|lennar|] == lennar
      && forall r :: r in Combined(ls, zs)[|lennar|..] ==> r.source == Zillow
  {
    UniquePrefix(LennarRecords(ls), ZillowRecords(zs), RecordKey);
  }

  /** An absent or empty side contributes nothing. */
  lemma CombinedOneSide(ls: seq<LennarListing>, zs: seq<ZillowListing>)
    ensures Combined(ls, []) == Unique(LennarRecords(ls), RecordKey)
    ensures Combined([], zs) == Unique(ZillowRecords(zs), RecordKey)
  {
    assert Candidates(ls, []) == LennarRecords(ls);
    assert Candidates([], zs) == ZillowRecords(zs);
  }

  /** Listing either side twice changes nothing. */
  lemma CombinedSelfAppend(ls: seq<LennarListing>, zs: seq<ZillowListing>)
    ensures Combined(ls + ls, zs) == Combined(ls, zs)
    ensures Combined(ls, zs + zs) == Combined(ls, zs)
  {
    var l, z := LennarRecords(ls), ZillowRecords(zs);
    MapAppend(ls, ls, FromLennar);
    MapAppend(zs, zs, FromZillow);
    assert Candidates(ls + ls, zs) == l + l + z;
    assert Candidates(ls, zs + zs) == l + z + z;
    UniqueRepeatFirst(l, z, RecordKey);
    UniqueRepeatLast(l, z, RecordKey);
  }

  /** `combine_results`, with its one shared `seen` set carried from the
      Lennar loop into the Zillow loop. A null scraper contributes nothing,
      as an empty listing list does. */
  method CombineResults(lennarScraper: LennarCrawl.LennarScraper?, zillowScraper: ZillowSearch.ZillowLennarScraper?)
    returns (combined: seq<Record>)
    ensures combined == Combined(if lennarScraper == null then [] else lennarScraper.listings,
                                 if zillowScraper == null then [] else zillowScraper.listings)
  {
    var ls := if lennarScraper == null then [] else lennarScraper.listings;
    var zs := if zillowScraper == null then [] else zillowScraper.listings;
    var seenAddresses;
    combined, seenAddresses := CombineLennar(ls);
    combined := CombineZillow(LennarRecords(ls), combined, seenAddresses, zs);
  }

  /** The Lennar loop of `combine_results`. */
  method CombineLennar(ls: seq<LennarListing>) returns (combined: seq<Record>, seenAddresses: set<(string, string)>)
    ensures combined == Unique(LennarRecords(ls), RecordKey)
    ensures seenAddresses == KeySet(combined, RecordKey)
  {
    combined := [];
    seenAddresses := {};
    for i := 0 to |ls|
      invariant combined == Unique(LennarRecords(ls[..i]), RecordKey)
      invariant seenAddresses == KeySet(combined, RecordKey)
    {
      var listing := ls[i];
      var row := FromLennar(listing);
      MapSnoc(ls, i, FromLennar);
      UniqueSnoc(LennarRecords(ls[..i]), row, RecordKey);
      var key := (if listing.location != "" then listing.location else listing.communityName, listing.price);
      assert key == RecordKey(row);
      if key !in seenAddresses {
        KeySetSnoc(combined, row, RecordKey);
        seenAddresses := seenAddresses + {key};
        combined := combined + [row];
      }
    }
    assert ls[..|ls|] == ls;
  }

  /** The Zillow loop of `combine_results`, continuing the dedup of the
      Lennar rows. */
  method CombineZillow(lennarRows: seq<Record>, combined0: seq<Record>, seen0: set<(string, string)>,
                       zs: seq<ZillowListing>) returns (combined: seq<Record>)
    requires combined0 == Unique(lennarRows, RecordKey) && seen0 == KeySet(combined0, RecordKey)
    ensures combined == Unique(lennarRows + ZillowRecords(zs), RecordKey)
  {
    combined := combined0;
    var seenAddresses := seen0;
    assert lennarRows + ZillowRecords(zs[..0]) == lennarRows;
    for j := 0 to |zs|
      invariant combined == Unique(lennarRows + ZillowRecords(zs[..j]), RecordKey)
      invariant seenAddresses == KeySet(combined, RecordKey)
    {
      var listing := zs[j];
      var row := FromZillow(listing);
      var before := lennarRows + ZillowRecords(zs[..j]);
      MapSnoc(zs, j, FromZillow);
      assert lennarRows + ZillowRecords(zs[..j + 1]) == before + [row];
      UniqueSnoc(before, row, RecordKey);
      var key := (listing.address, listing.price);
      assert key == RecordKey(row);
      if key !in seenAddresses {
        KeySetSnoc(combined, row, RecordKey);
        seenAddresses := seenAddresses + {key};
        combined := combined + [row];
      }
    }
    assert zs[..|zs|] == zs;
  }
}
