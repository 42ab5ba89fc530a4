/** Listing extraction on lennar.com: the field cascade of `_parse_home_card`
    (selector element first, then a pattern over the card's text, then a
    default), its composition over the home, plan and quick-move-in sections
    of a community page (`get_listings_from_community`), and the search
    (`search_homes`). HTML parsing is not modelled: a card is the record of
    what its selectors find. */
module LennarCards {
  import opened Common
  import opened Text
  import opened UnitScan
  import opened LennarNormalize

  /** A selector hit: the element's text (`get_text()`) and its text with every
      fragment stripped and joined (`get_text(strip=True)`). */
  datatype Element = Element(text: string, stripped: string)

  /** What `_parse_home_card` reads from a card: its whole text and the first
      element each selector finds; `link` is the href of the first `a[href]`. */
  datatype HomeCard = HomeCard(
    text: string,
    name: Option<Element>,
    price: Option<Element>,
    homeType: Option<Element>,
    beds: Option<Element>,
    baths: Option<Element>,
    sqft: Option<Element>,
    address: Option<Element>,
    link: Option<string>,
    status: Option<Element>)

  /** `LennarListing` without `features` (never filled) and `scraped_at` (a clock reading). */
  datatype LennarListing = LennarListing(
    communityName: string,
    location: string,
    city: string,
    state: string,
    zipCode: string,
    price: string,
    priceNumeric: Option<nat>,
    houseType: string,
    bedrooms: string,
    bathrooms: string,
    sqft: string,
    status: string,
    url: string,
    planName: string)

  /** The community a card belongs to, as `_parse_home_card` receives it. */
  datatype CardContext = CardContext(communityName: string, city: string, state: string, zipCode: string)

  /** A community record of the crawl: its name, absolute URL and state slug. */
  datatype Community = Community(name: string, url: string, state: string)

  const BedUnits: seq<Unit> := [Word("bed"), Word("br"), Word("bedroom")]
  const BathUnits: seq<Unit> := [Word("bath"), Word("ba"), Word("bathroom")]
  const SqftUnits: seq<Unit> := [SqFt, Word("sqft"), Word("sf")]

  /** The house type guessed from a card's lower-cased text when it has no
      type element: townhome words first, then "condo", else single family. */
  function InferHouseType(lowered: string): (t: string)
    ensures t == "Townhome" <==> Contains(lowered, "townhome") || Contains(lowered, "townhouse")
    ensures t == "Condominium" <==>
      !Contains(lowered, "townhome") && !Contains(lowered, "townhouse") && Contains(lowered, "condo")
    ensures t == "Townhome" || t == "Condominium" || t == "Single Family"
  {
    if Contains(lowered, "townhome") || Contains(lowered, "townhouse") then "Townhome"
    else if Contains(lowered, "condo") then "Condominium"
    else if Contains(lowered, "single family") || Contains(lowered, "single-family") then "Single Family"
    else "Single Family"
  }

  /** A count field: the first number of the element's text when the element
      exists, else the group of the card-text pattern, else "". */
  function CountField(elem: Option<Element>, cardText: string, shape: Shape, units: seq<Unit>): (r: string)
    ensures elem.Some? ==> r == ExtractNumber(elem.value.text)
    ensures elem.None? && FindCount(cardText, shape, units).Some? ==>
      r == FindCount(cardText, shape, units).value && HasShape(r, shape)
    ensures elem.None? && FindCount(cardText, shape, units).None? ==> r == ""
  {
    if elem.Some? then ExtractNumber(elem.value.text)
    else match FindCount(cardText, shape, units)
      case Some(g) =>
        assert HasShape(g, shape) by {
          var i :| 0 <= i < |cardText| && CountAt(cardText, i, shape, units) == Some(g);
        }
        g
      case None => ""
  }

  /** The text of an optional element, "" when the selector found nothing. */
  function StrippedOr(elem: Option<Element>): string {
    if elem.Some? then elem.value.stripped else ""
  }

  /** The listing `_parse_home_card` builds from a card, before it decides
      whether to return it. `resolve` is `urljoin(BASE_URL, ·)`. */
  function CardListing(card: HomeCard, ctx: CardContext, resolve: string -> string): (l: LennarListing)
    ensures l.communityName == ctx.communityName && l.city == ctx.city
      && l.state == ctx.state && l.zipCode == ctx.zipCode
    ensures l.planName == StrippedOr(card.name) && l.price == StrippedOr(card.price)
    ensures card.sqft.None? ==> ',' !in l.sqft
  {
    var price := StrippedOr(card.price);
    LennarListing(
      ctx.communityName, StrippedOr(card.address), ctx.city, ctx.state, ctx.zipCode,
      price, if card.price.Some? then ParsePrice(price) else None,
      if card.homeType.Some? then card.homeType.value.stripped else InferHouseType(Lower(card.text)),
      CountField(card.beds, card.text, Whole, BedUnits),
      CountField(card.baths, card.text, Decimal, BathUnits),
      if card.sqft.Some? then ExtractNumber(card.sqft.value.text)
      else Replace(CountField(None, card.text, Grouped, SqftUnits), ',', ""),
      StrippedOr(card.status),
      if card.link.Some? then resolve(card.link.value) else "",
      StrippedOr(card.name))
  }

  /** The house type of a card: the type element's text, else the guess from
      the lower-cased card text, which is one of three names. */
  lemma CardHouseType(card: HomeCard, ctx: CardContext, resolve: string -> string)
    ensures var t := CardListing(card, ctx, resolve).houseType;
      && (card.homeType.Some? ==> t == card.homeType.value.stripped)
      && (card.homeType.None? ==> t in {"Townhome", "Condominium", "Single Family"})
      && (card.homeType.None? ==>
            (t == "Townhome" <==> Contains(Lower(card.text), "townhome") || Contains(Lower(card.text), "townhouse")))
  {
  }

  /** `_parse_home_card`: the card's listing when it has a plan name, a price
      or a community name. */
  function HomeCardListing(card: HomeCard, ctx: CardContext, resolve: string -> string): (r: Option<LennarListing>)
    ensures r.Some? <==> StrippedOr(card.name) != "" || StrippedOr(card.price) != "" || ctx.communityName != ""
    ensures r.Some? ==> r.value == CardListing(card, ctx, resolve)
  {
    var l := CardListing(card, ctx, resolve);
    if l.planName != "" || l.price != "" || l.communityName != "" then Some(l) else None
  }

  /** The field-by-field body of `_parse_home_card`: each selector element
      first, then the card-text pattern, then the default. */
  method ParseCardFields(card: HomeCard, ctx: CardContext, resolve: string -> string)
    returns (listing: LennarListing)
    ensures listing == CardListing(card, ctx, resolve)
  {
    var planName, price, priceNumeric := "", "", None;
    var houseType, bedrooms, bathrooms, sqft := "", "", "", "";
    var location, url, status := "", "", "";
    if card.name.Some? {
      planName := card.name.value.stripped;
    }
    if card.price.Some? {
      price := card.price.value.stripped;
      priceNumeric := ParsePrice(price);
    }
    if card.homeType.Some? {
      houseType := card.homeType.value.stripped;
    } else {
      houseType := InferHouseType(Lower(card.text));
    }
    if card.beds.Some? {
      bedrooms := ExtractNumber(card.beds.value.text);
    } else {
      var m := FindCount(card.text, Whole, BedUnits);
      if m.Some? {
        bedrooms := m.value;
      }
    }
    assert bedrooms == CountField(card.beds, card.text, Whole, BedUnits);
    if card.baths.Some? {
      bathrooms := ExtractNumber(card.baths.value.text);
    } else {
      var m := FindCount(card.text, Decimal, BathUnits);
      if m.Some? {
        bathrooms := m.value;
      }
    }
    assert bathrooms == CountField(card.baths, card.text, Decimal, BathUnits);
    if card.sqft.Some? {
      sqft := ExtractNumber(card.sqft.value.text);
    } else {
      var m := FindCount(card.text, Grouped, SqftUnits);
      if m.Some? {
        sqft := Replace(m.value, ',', "");
      }
    }
    if card.address.Some? {
      location := card.address.value.stripped;
    }
    if card.link.Some? {
      url := resolve(card.link.value);
    }
    if card.status.Some? {
      status := card.status.value.stripped;
    }
    listing := LennarListing(ctx.communityName, location, ctx.city, ctx.state, ctx.zipCode,
                             price, priceNumeric, houseType, bedrooms, bathrooms, sqft,
                             status, url, planName);
  }

  /** `_parse_home_card`: the fields, then the check that the card has data. */
  method ParseHomeCard(card: HomeCard, ctx: CardContext, resolve: string -> string)
    returns (r: Option<LennarListing>)
    ensures r == HomeCardListing(card, ctx, resolve)
  {
    var listing := ParseCardFields(card, ctx, resolve);
    if listing.planName != "" || listing.price != "" || listing.communityName != "" {
      r := Some(listing);
    } else {
      r := None;
    }
  }

  /** `_parse_home_card` as a value, so that a run of cards can be parsed
      card by card. */
  function CardParser(ctx: CardContext, resolve: string -> string): HomeCard -> Option<LennarListing> {
    card => HomeCardListing(card, ctx, resolve)
  }

  /** The listings of a run of cards, in card order, skipping cards without data. */
  function ParsedCards(cards: seq<HomeCard>, ctx: CardContext, resolve: string -> string): (ls: seq<LennarListing>)
    ensures |ls| <= |cards|
  {
    if cards == [] then []
    else
      var init := cards[..|cards| - 1];
      var last := CardParser(ctx, resolve)(cards[|cards| - 1]);
      ParsedCards(init, ctx, resolve) + (if last.Some? then [last.value] else [])
  }

  /** Every listing is the listing of one of the cards, and every card with
      data contributes its listing. */
  lemma {:induction false} ParsedCardsMembers(cards: seq<HomeCard>, ctx: CardContext, resolve: string -> string)
    ensures forall l :: l in ParsedCards(cards, ctx, resolve) ==>
      exists c :: c in cards && HomeCardListing(c, ctx, resolve) == Some(l)
    ensures forall c :: c in cards && HomeCardListing(c, ctx, resolve).Some? ==>
      HomeCardListing(c, ctx, resolve).value in ParsedCards(cards, ctx, resolve)
  {
    if cards != [] {
      var init := cards[..|cards| - 1];
      var last := cards[|cards| - 1];
      ParsedCardsMembers(init, ctx, resolve);
      assert CardParser(ctx, resolve)(last) == HomeCardListing(last, ctx, resolve);
      assert forall c :: c in init ==> c in cards;
      assert forall c :: c in cards ==> c in init || c == last;
    }
  }

  /** One card gives its listing, or nothing when it has no data; with
      `ParsedCardsAppend` this fixes the listings of any run of cards and
      their order. */
  lemma ParsedCardsOne(card: HomeCard, ctx: CardContext, resolve: string -> string)
    ensures ParsedCards([card], ctx, resolve)
      == (match HomeCardListing(card, ctx, resolve) case Some(l) => [l] case None => [])
  {
    assert [card][..0] == [];
  }

  lemma {:induction false} ParsedCardsAppend(a: seq<HomeCard>, b: seq<HomeCard>, ctx: CardContext, resolve: string -> string)
    ensures ParsedCards(a + b, ctx, resolve) == ParsedCards(a, ctx, resolve) + ParsedCards(b, ctx, resolve)
  {
    if b == [] {
      assert a + b == a;
    } else {
      var b' := b[..|b| - 1];
      assert (a + b)[..|a + b| - 1] == a + b';
      assert (a + b)[|a + b| - 1] == b[|b| - 1];
      ParsedCardsAppend(a, b', ctx, resolve);
    }
  }

  /** Every listing carries the card context. */
  lemma {:induction false} ParsedCardsContext(cards: seq<HomeCard>, ctx: CardContext, resolve: string -> string)
    ensures forall l :: l in ParsedCards(cards, ctx, resolve) ==>
      l.communityName == ctx.communityName && l.city == ctx.city && l.state == ctx.state && l.zipCode == ctx.zipCode
  {
    if cards != [] {
      ParsedCardsContext(cards[..|cards| - 1], ctx, resolve);
    }
  }

  /** With a community name every card yields a listing. */
  lemma {:induction false} ParsedCardsKeepAll(cards: seq<HomeCard>, ctx: CardContext, resolve: string -> string)
    requires ctx.communityName != ""
    ensures |ParsedCards(cards, ctx, resolve)| == |cards|
  {
    if cards != [] {
      ParsedCardsKeepAll(cards[..|cards| - 1], ctx, resolve);
    }
  }

  /** What `get_listings_from_community` reads from a community page: the
      heading, the location element's text, the home cards, and the cards of
      each floor-plan section and each quick-move-in section. */
  datatype CommunityPage = CommunityPage(
    heading: Option<string>,
    location: Option<string>,
    homeCards: seq<HomeCard>,
    planSections: seq<seq<HomeCard>>,
    qmiSections: seq<seq<HomeCard>>)

  /** The card context of a community page: the community's own name, else
      the page heading; the location line parsed with the state slug as hint. */
  function PageContext(community: Community, page: CommunityPage): (ctx: CardContext)
    ensures community.name != "" ==> ctx.communityName == community.name
    ensures community.name == "" ==> ctx.communityName == (if page.heading.Some? then page.heading.value else "")
    ensures var loc := ParseLocation(if page.location.Some? then page.location.value else "", community.state);
      ctx.city == loc.city && ctx.state == loc.state && ctx.zipCode == loc.zip
  {
    var name := if community.name != "" then community.name
                else if page.heading.Some? then page.heading.value else "";
    var loc := ParseLocation(if page.location.Some? then page.location.value else "", community.state);
    CardContext(name, loc.city, loc.state, loc.zip)
  }

  /** The listings of quick-move-in sections get their status overwritten. */
  function Marked(ls: seq<LennarListing>, moveInReady: bool): (r: seq<LennarListing>)
    ensures |r| == |ls|
    ensures forall k :: 0 <= k < |ls| ==> r[k] == (if moveInReady then ls[k].(status := "Move-In Ready") else ls[k])
  {
    if moveInReady then seq(|ls|, k requires 0 <= k < |ls| => ls[k].(status := "Move-In Ready")) else ls
  }

  lemma MarkedAppend(a: seq<LennarListing>, b: seq<LennarListing>, moveInReady: bool)
    ensures Marked(a + b, moveInReady) == Marked(a, moveInReady) + Marked(b, moveInReady)
  {
    assert forall k :: 0 <= k < |a + b| ==> (a + b)[k] == if k < |a| then a[k] else b[k - |a|];
  }

  /** `get_listings_from_community`: nothing when the page could not be
      fetched; otherwise the home cards' listings, then the plan sections',
      then the quick-move-in sections' with their status overwritten. */
  function CommunityListings(community: Community, page: Option<CommunityPage>, resolve: string -> string)
    : (ls: seq<LennarListing>)
    ensures page.None? ==> ls == []
    ensures page.Some? ==>
      var ctx := PageContext(community, page.value);
      var home := ParsedCards(page.value.homeCards, ctx, resolve);
      var plan := ParsedCards(Flatten(page.value.planSections), ctx, resolve);
      var qmi := ParsedCards(Flatten(page.value.qmiSections), ctx, resolve);
      |ls| == |home| + |plan| + |qmi|
      && ls[..|home|] == home && ls[|home|..|home| + |plan|] == plan
      && ls[|home| + |plan|..] == Marked(qmi, true)
  {
    if page.None? then []
    else
      var ctx := PageContext(community, page.value);
      var home := ParsedCards(page.value.homeCards, ctx, resolve);
      var plan := ParsedCards(Flatten(page.value.planSections), ctx, resolve);
      var qmi := Marked(ParsedCards(Flatten(page.value.qmiSections), ctx, resolve), true);
      assert (home + plan + qmi)[..|home|] == home;
      assert (home + plan + qmi)[|home|..|home| + |plan|] == plan;
      assert (home + plan + qmi)[|home| + |plan|..] == qmi;
      home + plan + qmi
  }

  /** Every listing of a community page carries the page's community name
      and parsed location; the home and plan listings come first, unchanged,
      and every quick-move-in listing after them is marked "Move-In Ready". */
  lemma CommunityListingsShape(community: Community, page: CommunityPage, resolve: string -> string)
    ensures var ctx := PageContext(community, page);
      var ls := CommunityListings(community, Some(page), resolve);
      var front := ParsedCards(page.homeCards, ctx, resolve) + ParsedCards(Flatten(page.planSections), ctx, resolve);
      && ls[..|front|] == front
      && (forall k :: |front| <= k < |ls| ==> ls[k].status == "Move-In Ready")
      && (forall l :: l in ls ==>
            l.communityName == ctx.communityName && l.city == ctx.city && l.state == ctx.state && l.zipCode == ctx.zipCode)
  {
    var ctx := PageContext(community, page);
    var front := ParsedCards(page.homeCards, ctx, resolve) + ParsedCards(Flatten(page.planSections), ctx, resolve);
    var q := ParsedCards(Flatten(page.qmiSections), ctx, resolve);
    var ls := CommunityListings(community, Some(page), resolve);
    assert ls == front + Marked(q, true);
    assert ls[..|front|] == front;
    ParsedCardsContext(page.homeCards, ctx, resolve);
    ParsedCardsContext(Flatten(page.planSections), ctx, resolve);
    ParsedCardsContext(Flatten(page.qmiSections), ctx, resolve);
    forall l | l in ls
      ensures l.communityName == ctx.communityName && l.city == ctx.city && l.state == ctx.state && l.zipCode == ctx.zipCode
    {
      var k :| 0 <= k < |ls| && ls[k] == l;
      if k >= |front| {
        assert q[k - |front|] in q;
      } else {
        assert front[k] in front;
      }
    }
  }

  lemma CardsStep(cards: seq<HomeCard>, i: nat, ctx: CardContext, resolve: string -> string, moveInReady: bool)
    requires i < |cards|
    ensures var r := CardParser(ctx, resolve)(cards[i]);
      Marked(ParsedCards(cards[..i + 1], ctx, resolve), moveInReady)
        == Marked(ParsedCards(cards[..i], ctx, resolve), moveInReady)
           + (if r.None? then [] else if moveInReady then [r.value.(status := "Move-In Ready")] else [r.value])
  {
    assert cards[..i + 1][..i] == cards[..i];
    var r := CardParser(ctx, resolve)(cards[i]);
    var tail := if r.Some? then [r.value] else [];
    assert ParsedCards(cards[..i + 1], ctx, resolve) == ParsedCards(cards[..i], ctx, resolve) + tail;
    MarkedAppend(ParsedCards(cards[..i], ctx, resolve), tail, moveInReady);
    assert Marked(tail, moveInReady) == if r.None? then [] else if moveInReady then [r.value.(status := "Move-In Ready")] else [r.value];
  }

  /** The loop over a run of cards; the listings of a quick-move-in section
      get their status overwritten. */
  method ParseCards(cards: seq<HomeCard>, ctx: CardContext, resolve: string -> string, moveInReady: bool)
    returns (listings: seq<LennarListing>)
    ensures listings == Marked(ParsedCards(cards, ctx, resolve), moveInReady)
  {
    var parse := CardParser(ctx, resolve);
    listings := [];
    for i := 0 to |cards|
      invariant listings == Marked(ParsedCards(cards[..i], ctx, resolve), moveInReady)
    {
      CardsStep(cards, i, ctx, resolve, moveInReady);
      var listing := parse(cards[i]);
      if listing.Some? {
        if moveInReady {
          listings := listings + [listing.value.(status := "Move-In Ready")];
        } else {
          listings := listings + [listing.value];
        }
      }
    }
    assert cards[..|cards|] == cards;
  }

  lemma SectionsStep(sections: seq<seq<HomeCard>>, si: nat, ctx: CardContext, resolve: string -> string, moveInReady: bool)
    requires si < |sections|
    ensures Marked(ParsedCards(Flatten(sections[..si + 1]), ctx, resolve), moveInReady)
      == Marked(ParsedCards(Flatten(sections[..si]), ctx, resolve), moveInReady)
         + Marked(ParsedCards(sections[si], ctx, resolve), moveInReady)
  {
    assert sections[..si + 1] == sections[..si] + [sections[si]];
    FlattenAppend(sections[..si], sections[si]);
    ParsedCardsAppend(Flatten(sections[..si]), sections[si], ctx, resolve);
    MarkedAppend(ParsedCards(Flatten(sections[..si]), ctx, resolve), ParsedCards(sections[si], ctx, resolve), moveInReady);
  }

  /** The sections loop of `get_listings_from_community` for one kind of
      section: each section's cards in order. */
  method ParseSections(sections: seq<seq<HomeCard>>, ctx: CardContext, resolve: string -> string, moveInReady: bool)
    returns (listings: seq<LennarListing>)
    ensures listings == Marked(ParsedCards(Flatten(sections), ctx, resolve), moveInReady)
  {
    listings := [];
    for si := 0 to |sections|
      invariant listings == Marked(ParsedCards(Flatten(sections[..si]), ctx, resolve), moveInReady)
    {
      var section := ParseCards(sections[si], ctx, resolve, moveInReady);
      SectionsStep(sections, si, ctx, resolve, moveInReady);
      listings := listings + section;
    }
    assert sections[..|sections|] == sections;
  }

  /** `get_listings_from_community`. */
  method GetListingsFromCommunity(community: Community, page: Option<CommunityPage>, resolve: string -> string)
    returns (listings: seq<LennarListing>)
    ensures listings == CommunityListings(community, page, resolve)
  {
    if page.None? {
      return [];
    }
    var p := page.value;
    var communityName := community.name;
    if communityName == "" && p.heading.Some? {
      communityName := p.heading.value;
    }
    var locationText := if p.location.Some? then p.location.value else "";
    var loc := ParseLocation(locationText, community.state);
    var ctx := CardContext(communityName, loc.city, loc.state, loc.zip);
    var home := ParseCards(p.homeCards, ctx, resolve, false);
    var plans := ParseSections(p.planSections, ctx, resolve, false);
    var qmi := ParseSections(p.qmiSections, ctx, resolve, true);
    listings := home + plans + qmi;
    assert ctx == PageContext(community, p);
  }

  /** A query parameter value. */
  datatype Param = TextParam(s: string) | NumberParam(n: int)

  /** The query keys of `search_homes`, in the order the source adds them. */
  datatype ParamKey = LocationKey | MinPriceKey | MaxPriceKey | BedsKey | HomeTypeKey

  /** The key as it appears in the query string. */
  function KeyName(k: ParamKey): (name: string)
    ensures |name| >= 4
  {
    match k
    case LocationKey => "location"
    case MinPriceKey => "minPrice"
    case MaxPriceKey => "maxPrice"
    case BedsKey => "beds"
    case HomeTypeKey => "homeType"
  }

  function ParamRank(k: ParamKey): (r: nat)
    ensures r < 5
  {
    match k
    case LocationKey => 0
    case MinPriceKey => 1
    case MaxPriceKey => 2
    case BedsKey => 3
    case HomeTypeKey => 4
  }

  /** The value a parameter list gives a key, if any. */
  function ParamValue(params: seq<(ParamKey, Param)>, key: ParamKey): Option<Param> {
    if params == [] then None
    else if params[|params| - 1].0 == key then Some(params[|params| - 1].1)
    else ParamValue(params[..|params| - 1], key)
  }

  /** Read from the end: the last key ranks below r, and the keys before it
      rank below the last one. */
  predicate RankedBelow(params: seq<(ParamKey, Param)>, r: nat) {
    params == [] ||
    var last := ParamRank(params[|params| - 1].0);
    last < r && RankedBelow(params[..|params| - 1], last)
  }

  /** A list ranked below r has every rank below r and strictly increasing ranks. */
  lemma {:induction false} RankedBelowOrdered(params: seq<(ParamKey, Param)>, r: nat)
    requires RankedBelow(params, r)
    ensures forall i :: 0 <= i < |params| ==> ParamRank(params[i].0) < r
    ensures forall i, j :: 0 <= i < j < |params| ==> ParamRank(params[i].0) < ParamRank(params[j].0)
  {
    if params != [] {
      var n := |params|;
      var p := params[..n - 1];
      RankedBelowOrdered(p, ParamRank(params[n - 1].0));
      assert forall i :: 0 <= i < n - 1 ==> params[i] == p[i];
    }
  }

  predicate TruthyText(v: Option<string>) { v.Some? && v.value != "" }
  predicate TruthyNumber(v: Option<int>) { v.Some? && v.value != 0 }

  /** The value a text filter contributes: none when it is absent or empty. */
  function TextFilter(v: Option<string>): (e: Option<Param>)
    ensures e.Some? <==> TruthyText(v)
    ensures e.Some? ==> e.value == TextParam(v.value)
  {
    if TruthyText(v) then Some(TextParam(v.value)) else None
  }

  /** The value a number filter contributes: none when it is absent or 0. */
  function NumberFilter(v: Option<int>): (e: Option<Param>)
    ensures e.Some? <==> TruthyNumber(v)
    ensures e.Some? ==> e.value == NumberParam(v.value)
  {
    if TruthyNumber(v) then Some(NumberParam(v.value)) else None
  }

  /** The pair one filter adds to the query, if any. */
  function Entry(key: ParamKey, e: Option<Param>): seq<(ParamKey, Param)> {
    if e.Some? then [(key, e.value)] else []
  }

  /** The query of `search_homes`: each filter only when it is truthy (a
      price of 0 and an empty text count as absent), in fixed order. */
  function Query(location: Option<string>, minPrice: Option<int>, maxPrice: Option<int>,
                 bedrooms: Option<int>, houseType: Option<string>): seq<(ParamKey, Param)>
  {
    Entry(LocationKey, TextFilter(location)) + Entry(MinPriceKey, NumberFilter(minPrice))
      + Entry(MaxPriceKey, NumberFilter(maxPrice)) + Entry(BedsKey, NumberFilter(bedrooms))
      + Entry(HomeTypeKey, TextFilter(houseType))
  }

  /** Adding one filter's pair after lower-ranked keys keeps the order by rank. */
  lemma EntryRanked(params: seq<(ParamKey, Param)>, key: ParamKey, e: Option<Param>)
    requires RankedBelow(params, ParamRank(key))
    ensures RankedBelow(params + Entry(key, e), ParamRank(key) + 1)
  {
    if e.None? {
      assert params + Entry(key, e) == params;
    } else {
      assert (params + Entry(key, e))[..|params|] == params;
    }
  }

  /** The value of a key in two lists one after the other: the second
      list's when it has one, else the first's. */
  lemma {:induction false} ParamValueAppend(a: seq<(ParamKey, Param)>, b: seq<(ParamKey, Param)>, key: ParamKey)
    ensures ParamValue(a + b, key) == if ParamValue(b, key).Some? then ParamValue(b, key) else ParamValue(a, key)
  {
    if b == [] {
      assert a + b == a;
    } else {
      var b' := b[..|b| - 1];
      ParamValueAppend(a, b', key);
      assert (a + b)[..|a + b| - 1] == a + b';
    }
  }

  lemma ParamValueEntry(key: ParamKey, e: Option<Param>, k: ParamKey)
    ensures ParamValue(Entry(key, e), k) == if k == key then e else None
  {
    if e.Some? {
      assert Entry(key, e)[..0] == [];
    }
  }

  /** The keys of the query come in the fixed order. */
  lemma QueryOrdered(location: Option<string>, minPrice: Option<int>, maxPrice: Option<int>,
                     bedrooms: Option<int>, houseType: Option<string>)
    ensures var q := Query(location, minPrice, maxPrice, bedrooms, houseType);
      forall i, j :: 0 <= i < j < |q| ==> ParamRank(q[i].0) < ParamRank(q[j].0)
  {
    RankedEntries(TextFilter(location), NumberFilter(minPrice), NumberFilter(maxPrice),
                  NumberFilter(bedrooms), TextFilter(houseType));
    RankedBelowOrdered(Query(location, minPrice, maxPrice, bedrooms, houseType), 5);
  }

  /** Five entries in key order, each present or not, have increasing ranks. */
  lemma RankedEntries(e1: Option<Param>, e2: Option<Param>, e3: Option<Param>, e4: Option<Param>, e5: Option<Param>)
    ensures RankedBelow(Entry(LocationKey, e1) + Entry(MinPriceKey, e2) + Entry(MaxPriceKey, e3)
                        + Entry(BedsKey, e4) + Entry(HomeTypeKey, e5), 5)
  {
    var q1 := Entry(LocationKey, e1);
    var q2 := q1 + Entry(MinPriceKey, e2);
    var q3 := q2 + Entry(MaxPriceKey, e3);
    var q4 := q3 + Entry(BedsKey, e4);
    assert RankedBelow(q4, 4) by {
      assert RankedBelow(q3, 3) by {
        assert RankedBelow(q2, 2) by {
          assert RankedBelow(q1, 1) by {
            EntryRanked([], LocationKey, e1);
            assert [] + q1 == q1;
          }
          EntryRanked(q1, MinPriceKey, e2);
        }
        EntryRanked(q2, MaxPriceKey, e3);
      }
      EntryRanked(q3, BedsKey, e4);
    }
    EntryRanked(q4, HomeTypeKey, e5);
  }

  /** Each key of the query carries its filter's value, absent exactly when
      the filter is not truthy. */
  lemma QueryValues(location: Option<string>, minPrice: Option<int>, maxPrice: Option<int>,
                    bedrooms: Option<int>, houseType: Option<string>)
    ensures var q := Query(location, minPrice, maxPrice, bedrooms, houseType);
      && ParamValue(q, LocationKey) == TextFilter(location)
      && ParamValue(q, MinPriceKey) == NumberFilter(minPrice)
      && ParamValue(q, MaxPriceKey) == NumberFilter(maxPrice)
      && ParamValue(q, BedsKey) == NumberFilter(bedrooms)
      && ParamValue(q, HomeTypeKey) == TextFilter(houseType)
  {
    var e1, e2, e3 := Entry(LocationKey, TextFilter(location)), Entry(MinPriceKey, NumberFilter(minPrice)), Entry(MaxPriceKey, NumberFilter(maxPrice));
    var e4, e5 := Entry(BedsKey, NumberFilter(bedrooms)), Entry(HomeTypeKey, TextFilter(houseType));
    forall k | true
      ensures ParamValue(Query(location, minPrice, maxPrice, bedrooms, houseType), k)
        == match k
           case LocationKey => TextFilter(location)
           case MinPriceKey => NumberFilter(minPrice)
           case MaxPriceKey => NumberFilter(maxPrice)
           case BedsKey => NumberFilter(bedrooms)
           case HomeTypeKey => TextFilter(houseType)
    {
      ParamValueAppend(e1 + e2 + e3 + e4, e5, k);
      ParamValueAppend(e1 + e2 + e3, e4, k);
      ParamValueAppend(e1 + e2, e3, k);
      ParamValueAppend(e1, e2, k);
      ParamValueEntry(LocationKey, TextFilter(location), k);
      ParamValueEntry(MinPriceKey, NumberFilter(minPrice), k);
      ParamValueEntry(MaxPriceKey, NumberFilter(maxPrice), k);
      ParamValueEntry(BedsKey, NumberFilter(bedrooms), k);
      ParamValueEntry(HomeTypeKey, TextFilter(houseType), k);
    }
  }

  /** `search_homes` building its query: the dictionary grows one truthy
      filter at a time. */
  method SearchParams(location: Option<string>, minPrice: Option<int>, maxPrice: Option<int>,
                      bedrooms: Option<int>, houseType: Option<string>)
    returns (params: seq<(ParamKey, Param)>)
    ensures params == Query(location, minPrice, maxPrice, bedrooms, houseType)
  {
    params := [];
    if TruthyText(location) {
      params := params + [(LocationKey, TextParam(location.value))];
    }
    assert params == Entry(LocationKey, TextFilter(location));
    ghost var q := params;
    if TruthyNumber(minPrice) {
      params := params + [(MinPriceKey, NumberParam(minPrice.value))];
    }
    assert params == q + Entry(MinPriceKey, NumberFilter(minPrice));
    q := params;
    if TruthyNumber(maxPrice) {
      params := params + [(MaxPriceKey, NumberParam(maxPrice.value))];
    }
    assert params == q + Entry(MaxPriceKey, NumberFilter(maxPrice));
    q := params;
    if TruthyNumber(bedrooms) {
      params := params + [(BedsKey, NumberParam(bedrooms.value))];
    }
    assert params == q + Entry(BedsKey, NumberFilter(bedrooms));
    q := params;
    if TruthyText(houseType) {
      params := params + [(HomeTypeKey, TextParam(houseType.value))];
    }
    assert params == q + Entry(HomeTypeKey, TextFilter(houseType));
  }

  /** `search_homes` after the fetch: None when the request path got no
      response; otherwise the result cards parsed without community context. */
  method SearchHomes(results: Option<seq<HomeCard>>, resolve: string -> string)
    returns (listings: seq<LennarListing>)
    ensures results.None? ==> listings == []
    ensures results.Some? ==> listings == ParsedCards(results.value, CardContext("", "", "", ""), resolve)
  {
    if results.None? {
      return [];
    }
    listings := ParseCards(results.value, CardContext("", "", "", ""), resolve, false);
  }
}
