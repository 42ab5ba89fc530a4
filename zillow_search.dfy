/** The fetching and list-keeping half of the Zillow scraper: the retry loop
    of `_make_request`, the fixed scroll of `_scrape_with_selenium`, the
    search URL of a location, `search_zillow_new_construction` (builder
    filter, cards before script data, dedup on address and ZIP), and the
    `listings` state of `ZillowLennarScraper` as changed by
    `scrape_lennar_profile` and `scrape_multiple_locations`. Pages are
    oracles: what a fetch returned, already cut into card records. */
module ZillowSearch {
  import opened Common
  import opened Text
  import opened Http
  import opened Dedup
  import LennarFetch
  import opened ZillowParse

  const ZillowBase := "https://www.zillow.com"

  // ---------------------------------------------------------------------------
  // `_make_request`

  /** The effects of k failed attempts that are each followed by another:
      a fresh User-Agent, then a sleep of 2 ** attempt seconds. */
  function RetryTrace(k: nat): (es: seq<Effect>)
    ensures |es| == 2 * k
  {
    if k == 0 then [] else RetryTrace(k - 1) + [RotateUserAgent, Sleep(Pow2(k - 1))]
  }

  /** Attempt j's pair: the rotation at 2j, the sleep of 2 ** j seconds after it. */
  lemma {:induction false} RetryTraceElements(k: nat)
    ensures forall j :: 0 <= j < k ==> RetryTrace(k)[2 * j] == RotateUserAgent && RetryTrace(k)[2 * j + 1] == Sleep(Pow2(j))
  {
    if k > 0 {
      RetryTraceElements(k - 1);
      assert forall j :: 0 <= j < k - 1 ==> RetryTrace(k)[2 * j] == RetryTrace(k - 1)[2 * j];
      assert forall j :: 0 <= j < k - 1 ==> RetryTrace(k)[2 * j + 1] == RetryTrace(k - 1)[2 * j + 1];
    }
  }

  /** `_make_request`: attempt `retryCount` times (attempt k sees outcome
      `attempts[k]`); before every attempt, the first included, take a fresh
      User-Agent; after a failure other than the last, sleep 2 ** attempt
      seconds; return the first successful response's body. */
  method MakeRequest<B>(retryCount: int, attempts: seq<Attempt<B>>) returns (r: Option<B>, effects: seq<Effect>)
    requires retryCount <= |attempts|
    ensures retryCount <= 0 ==> r.None? && effects == []
    ensures retryCount > 0 ==>
      match FirstSuccess(attempts, retryCount)
      case Some(k) => r == Some(attempts[k].body) && effects == RetryTrace(k) + [RotateUserAgent]
      case None => r.None? && effects == RetryTrace(retryCount - 1) + [RotateUserAgent]
  {
    effects := [];
    var attempt := 0;
    while attempt < retryCount
      invariant 0 <= attempt <= |attempts|
      invariant retryCount > 0 ==> attempt <= retryCount
      invariant retryCount <= 0 ==> attempt == 0 && effects == []
      invariant forall k :: 0 <= k < attempt ==> !Succeeded(attempts[k])
      invariant attempt < retryCount ==> effects == RetryTrace(attempt)
      invariant attempt == retryCount && attempt > 0 ==> effects == RetryTrace(attempt - 1) + [RotateUserAgent]
    {
      effects := effects + [RotateUserAgent];
      var outcome := attempts[attempt];
      if Succeeded(outcome) {
        assert FirstSuccess(attempts, retryCount) == Some(attempt);
        return Some(outcome.body), effects;
      }
      if attempt < retryCount - 1 {
        effects := effects + [Sleep(Pow2(attempt))];
      }
      attempt := attempt + 1;
    }
    r := None;
  }

  /** After k failures the Zillow loop has slept exactly as the lennar.com
      loop does (1, 2, 4, ... seconds), and has rotated the User-Agent once
      more than it: also before the first attempt. */
  lemma {:induction false} RetryTraceShape(k: nat)
    ensures Sleeps(RetryTrace(k) + [RotateUserAgent]) == Schedule(k)
    ensures Sleeps(RetryTrace(k) + [RotateUserAgent]) == Sleeps(LennarFetch.Backoff(k))
    ensures Rotations(RetryTrace(k) + [RotateUserAgent]) == k + 1
    ensures Rotations(LennarFetch.Backoff(k)) == k
  {
    RetryTraceCounts(k);
    SleepsAppend(RetryTrace(k), [RotateUserAgent]);
    assert [RotateUserAgent][..0] == [];
    LennarFetch.BackoffShape(k);
  }

  lemma {:induction false} RetryTraceCounts(k: nat)
    ensures Sleeps(RetryTrace(k)) == Schedule(k)
    ensures Rotations(RetryTrace(k)) == k
  {
    if k > 0 {
      RetryTraceCounts(k - 1);
      var pair := [RotateUserAgent, Sleep(Pow2(k - 1))];
      assert RetryTrace(k) == RetryTrace(k - 1) + pair;
      SleepsAppend(RetryTrace(k - 1), pair);
      PairCounts(Pow2(k - 1));
    }
  }

  lemma PairCounts(d: nat)
    ensures Sleeps([RotateUserAgent, Sleep(d)]) == [d]
    ensures Rotations([RotateUserAgent, Sleep(d)]) == 1
  {
    var pair := [RotateUserAgent, Sleep(d)];
    assert pair[..1] == [RotateUserAgent];
    assert pair[..1][..0] == [];
  }

  // ---------------------------------------------------------------------------
  // `_scrape_with_selenium`

  /** `_scrape_with_selenium`: load the page (None: the driver raised), wait
      three seconds, then five times scroll to the bottom and wait a second;
      the page source, or "" when the driver raised. */
  method ScrapeWithSelenium(pageSource: Option<string>) returns (html: string, effects: seq<Effect>)
    ensures pageSource.None? ==> html == "" && effects == []
    ensures pageSource.Some? ==> html == pageSource.value && effects == [Sleep(3)] + LennarFetch.ScrollRounds(5)
  {
    if pageSource.None? {
      return "", [];
    }
    effects := [Sleep(3)];
    for round := 0 to 5
      invariant effects == [Sleep(3)] + LennarFetch.ScrollRounds(round)
    {
      effects := effects + [ScrollToBottom, Sleep(1)];
    }
    html := pageSource.value;
  }

  /** The Zillow browser path waits 3 s and then 1 s after each of its five scrolls. */
  lemma SeleniumSleeps()
    ensures Sleeps([Sleep(3)] + LennarFetch.ScrollRounds(5)) == [3, 1, 1, 1, 1, 1]
    ensures Rotations([Sleep(3)] + LennarFetch.ScrollRounds(5)) == 0
  {
    var es := [Sleep(3)] + LennarFetch.ScrollRounds(5);
    assert es == [Sleep(3), ScrollToBottom, Sleep(1), ScrollToBottom, Sleep(1), ScrollToBottom, Sleep(1),
                  ScrollToBottom, Sleep(1), ScrollToBottom, Sleep(1)];
    SleepsAppend([Sleep(3)], LennarFetch.ScrollRounds(5));
    ScrollSleeps(5);
  }

  lemma {:induction false} ScrollSleeps(n: nat)
    ensures Sleeps(LennarFetch.ScrollRounds(n)) == seq(n, k => 1)
    ensures Rotations(LennarFetch.ScrollRounds(n)) == 0
  {
    if n > 0 {
      ScrollSleeps(n - 1);
      var pair := [ScrollToBottom, Sleep(1)];
      SleepsAppend(LennarFetch.ScrollRounds(n - 1), pair);
      assert pair[..1] == [ScrollToBottom];
      assert pair[..1][..0] == [];
      assert seq(n - 1, k => 1) + [1] == seq(n, k => 1);
    }
  }

  // ---------------------------------------------------------------------------
  // The search URL

  /** The location slug: lower-cased, spaces to '-', commas dropped, then
      percent-encoded. */
  function SearchSlug(location: string): (slug: string)
    ensures forall k :: 0 <= k < |slug| ==> KeptByQuote(slug[k]) || slug[k] == '%'
    ensures ' ' !in slug && ',' !in slug
  {
    var text := Replace(Replace(Lower(location), ' ', "-"), ',', "");
    QuoteEncodes(text);
    Quote(text)
  }

  /** The new-construction search page of a location. */
  function SearchUrl(location: string): (url: string)
    ensures |url| == |ZillowBase| + 1 + |SearchSlug(location)| + 18
    ensures url[..|ZillowBase| + 1] == ZillowBase + "/" && url[|url| - 18..] == "/new-construction/"
    ensures ' ' !in url
  {
    var head, slug, tail := ZillowBase + "/", SearchSlug(location), "/new-construction/";
    assert ' ' !in head && ' ' !in tail;
    assert (head + slug + tail)[..|head|] == head;
    assert (head + slug + tail)[|head| + |slug|..] == tail;
    head + slug + tail
  }

  /** For an ASCII location, percent-decoding the slug gives back the
      lower-cased location with spaces mapped to '-' and commas dropped. */
  lemma SearchSlugRoundTrip(location: string)
    requires IsAscii(location)
    ensures UnquoteAscii(SearchSlug(location)) == Replace(Replace(Lower(location), ' ', "-"), ',', "")
  {
    var lowered := Lower(location);
    assert IsAscii(lowered);
    ReplaceAscii(lowered, ' ', "-");
    ReplaceAscii(Replace(lowered, ' ', "-"), ',', "");
    QuoteRoundTrip(Replace(Replace(lowered, ' ', "-"), ',', ""));
  }

  /** A location of letters, digits, spaces and commas needs no escapes. */
  lemma SearchSlugPlain(location: string)
    requires forall k :: 0 <= k < |location| ==> IsLetter(location[k]) || IsDigit(location[k]) || location[k] in " ,"
    ensures SearchSlug(location) == Replace(Replace(Lower(location), ' ', "-"), ',', "")
  {
    var plain := Replace(Replace(Lower(location), ' ', "-"), ',', "");
    PlainLower(location);
    ReplacePlain(Lower(location), ' ', "-");
    ReplacePlain(Replace(Lower(location), ' ', "-"), ',', "");
    assert ' ' !in plain && ',' !in plain;
    assert forall k :: 0 <= k < |plain| ==> KeptByQuote(plain[k]) by {
      forall k | 0 <= k < |plain| ensures KeptByQuote(plain[k]) {
        assert plain[k] in plain;
      }
    }
    QuoteKept(plain);
  }

  predicate IsPlain(c: char) { KeptByQuote(c) || c == ' ' || c == ',' }

  lemma PlainLower(s: string)
    requires forall k :: 0 <= k < |s| ==> IsLetter(s[k]) || IsDigit(s[k]) || s[k] in " ,"
    ensures forall k :: 0 <= k < |Lower(s)| ==> IsPlain(Lower(s)[k])
  {
  }

  /** Replacing a character by kept characters keeps a text plain. */
  lemma {:induction false} ReplacePlain(s: string, c: char, repl: string)
    requires forall k :: 0 <= k < |s| ==> IsPlain(s[k])
    requires forall k :: 0 <= k < |repl| ==> KeptByQuote(repl[k])
    ensures forall k :: 0 <= k < |Replace(s, c, repl)| ==> IsPlain(Replace(s, c, repl)[k])
    ensures ' ' !in s ==> ' ' !in Replace(s, c, repl)
  {
    if s != [] {
      ReplacePlain(s[1..], c, repl);
      var head := if s[0] == c then repl else [s[0]];
      var r := Replace(s, c, repl);
      assert r == head + Replace(s[1..], c, repl);
      assert forall k :: 0 <= k < |head| ==> r[k] == head[k];
      assert forall k :: |head| <= k < |r| ==> r[k] == Replace(s[1..], c, repl)[k - |head|];
      assert ' ' !in s ==> ' ' !in s[1..] && ' ' !in head;
    }
  }

  // ---------------------------------------------------------------------------
  // `search_zillow_new_construction`

  /** A fetched search page: its property cards, and the decoded page data
      when `_extract_script_data` found a non-empty one. */
  datatype SearchPage = SearchPage(cards: seq<ZillowCard>, script: Option<ScriptData>)

  /** The builder filter on a card: its lower-cased whole text names Lennar. */
  predicate MentionsLennar(card: ZillowCard) {
    Contains(Lower(card.text), "lennar")
  }

  /** The card loop's treatment of one card: its listing, when it parses
      and (with the builder filter on) its text names Lennar. */
  function CardFilter(builderFilter: bool, resolve: string -> string): ZillowCard -> Option<ZillowListing> {
    c => if builderFilter && !MentionsLennar(c) then None else ZillowCardListing(c, resolve)
  }

  /** The listings the card loop collects, in card order. */
  function CardListings(cards: seq<ZillowCard>, builderFilter: bool, resolve: string -> string)
    : (ls: seq<ZillowListing>)
    ensures |ls| <= |cards|
  {
    FilterMap(cards, CardFilter(builderFilter, resolve))
  }

  /** The card listings of two runs of cards, one after the other. */
  lemma CardListingsAppend(a: seq<ZillowCard>, b: seq<ZillowCard>, builderFilter: bool, resolve: string -> string)
    ensures CardListings(a + b, builderFilter, resolve)
      == CardListings(a, builderFilter, resolve) + CardListings(b, builderFilter, resolve)
  {
    FilterMapAppend(a, b, CardFilter(builderFilter, resolve));
  }

  /** One card gives its listing exactly when it parses and passes the
      builder filter; with `CardListingsAppend` this fixes the card listings
      and their order. */
  lemma CardListingsOne(c: ZillowCard, builderFilter: bool, resolve: string -> string)
    ensures CardListings([c], builderFilter, resolve)
      == (if ZillowCardListing(c, resolve).Some? && (!builderFilter || MentionsLennar(c))
          then [ZillowCardListing(c, resolve).value] else [])
  {
    assert [c][..0] == [];
  }

  /** Every card listing has a street and the builder "Lennar", and comes
      from a card that passed the builder filter; every card that parses and
      passes the filter gives its listing. */
  lemma CardListingsValid(cards: seq<ZillowCard>, builderFilter: bool, resolve: string -> string)
    ensures forall l :: l in CardListings(cards, builderFilter, resolve) ==> l.address != "" && l.builder == "Lennar"
    ensures forall l :: l in CardListings(cards, builderFilter, resolve) ==>
              exists c :: c in cards && (!builderFilter || MentionsLennar(c)) && ZillowCardListing(c, resolve) == Some(l)
    ensures forall c :: c in cards && (!builderFilter || MentionsLennar(c)) && ZillowCardListing(c, resolve).Some? ==>
              ZillowCardListing(c, resolve).value in CardListings(cards, builderFilter, resolve)
  {
    var f := CardFilter(builderFilter, resolve);
    FilterMapMembers(cards, f);
    assert forall c :: f(c) == (if builderFilter && !MentionsLennar(c) then None else ZillowCardListing(c, resolve));
  }

  lemma CardsStep(cards: seq<ZillowCard>, i: nat, builderFilter: bool, resolve: string -> string)
    requires i < |cards|
    ensures var r := ZillowCardListing(cards[i], resolve);
      CardListings(cards[..i + 1], builderFilter, resolve) ==
        CardListings(cards[..i], builderFilter, resolve)
          + (if r.Some? && (!builderFilter || MentionsLennar(cards[i])) then [r.value] else [])
  {
    FilterMapSnoc(cards, i, CardFilter(builderFilter, resolve));
  }

  /** The dedup key of the search. */
  function ListingKey(l: ZillowListing): (string, string) {
    (l.address, l.zipCode)
  }

  /** Card listings, then the listings of the page data, before the dedup. */
  function SearchCandidates(page: SearchPage, builderFilter: bool, resolve: string -> string)
    : (ls: seq<ZillowListing>)
    ensures forall l :: l in ls ==> l.address != ""
    ensures builderFilter ==> forall l :: l in ls ==> l.builder == "Lennar" || Contains(Lower(l.builder), "lennar")
  {
    var cardLs := CardListings(page.cards, builderFilter, resolve);
    var scriptLs := if page.script.Some? then ScriptListings(page.script.value, builderFilter, resolve) else [];
    CardListingsValid(page.cards, builderFilter, resolve);
    assert forall l :: l in cardLs + scriptLs ==> l in cardLs || l in scriptLs;
    cardLs + scriptLs
  }

  /** `search_zillow_new_construction` on what the fetch of the search URL
      returned (None: `_make_request` gave up). */
  function SearchResults(page: Option<SearchPage>, builderFilter: bool, resolve: string -> string)
    : (ls: seq<ZillowListing>)
    ensures page.None? ==> ls == []
  {
    if page.None? then [] else Unique(SearchCandidates(page.value, builderFilter, resolve), ListingKey)
  }

  /** The search keeps some of its candidates, each with a street, and no two
      with the same address and ZIP. */
  lemma SearchResultsValid(page: SearchPage, builderFilter: bool, resolve: string -> string)
    ensures var ls := SearchResults(Some(page), builderFilter, resolve);
      var cands := SearchCandidates(page, builderFilter, resolve);
      |ls| <= |cands|
      && (forall l :: l in ls ==> l in cands && l.address != "")
      && (forall i, j :: 0 <= i < j < |ls| ==> ListingKey(ls[i]) != ListingKey(ls[j]))
  {
    var cands := SearchCandidates(page, builderFilter, resolve);
    var cardLs := CardListings(page.cards, builderFilter, resolve);
    var scriptLs := if page.script.Some? then ScriptListings(page.script.value, builderFilter, resolve) else [];
    assert cands == cardLs + scriptLs;
    CardListingsValid(page.cards, builderFilter, resolve);
    assert forall l :: l in cands ==> l in cardLs || l in scriptLs;
    UniqueSubset(cands, ListingKey);
    UniqueKeysDistinct(cands, ListingKey);
  }

  /** The deduplicated card listings come first, unchanged; everything after
      them is page-data listings; and a key survives iff some candidate has it. */
  lemma SearchResultsShape(page: SearchPage, builderFilter: bool, resolve: string -> string)
    ensures var cards := Unique(CardListings(page.cards, builderFilter, resolve), ListingKey);
      var ls := SearchResults(Some(page), builderFilter, resolve);
      |cards| <= |ls| && ls[..|cards|] == cards
      && (page.script.Some? ==> forall l :: l in ls[|cards|..] ==> l in ScriptListings(page.script.value, builderFilter, resolve))
      && (page.script.None? ==> ls == cards)
    ensures KeySet(SearchResults(Some(page), builderFilter, resolve), ListingKey)
      == KeySet(SearchCandidates(page, builderFilter, resolve), ListingKey)
  {
    var cardLs := CardListings(page.cards, builderFilter, resolve);
    var scriptLs := if page.script.Some? then ScriptListings(page.script.value, builderFilter, resolve) else [];
    UniquePrefix(cardLs, scriptLs, ListingKey);
    assert SearchCandidates(page, builderFilter, resolve) == cardLs + scriptLs;
    if page.script.None? {
      assert cardLs + scriptLs == cardLs;
    }
    UniqueKeySet(SearchCandidates(page, builderFilter, resolve), ListingKey);
  }

  /** The imperative body of `search_zillow_new_construction`: the URL it
      requests, and the listings it returns. */
  method SearchZillowNewConstruction(location: string, builderFilter: bool, page: Option<SearchPage>,
                                     resolve: string -> string)
    returns (searchUrl: string, unique: seq<ZillowListing>)
    ensures searchUrl == SearchUrl(location)
    ensures unique == SearchResults(page, builderFilter, resolve)
  {
    var locationSlug := Quote(Replace(Replace(Lower(location), ' ', "-"), ',', ""));
    searchUrl := ZillowBase + "/" + locationSlug + "/new-construction/";
    unique := [];
    if page.Some? {
      unique := ParsePage(page.value, builderFilter, resolve);
    }
  }

  /** The parsing half of `search_zillow_new_construction`: card listings,
      then the page data's, then the dedup on address and ZIP. */
  method ParsePage(page: SearchPage, builderFilter: bool, resolve: string -> string)
    returns (unique: seq<ZillowListing>)
    ensures unique == SearchResults(Some(page), builderFilter, resolve)
  {
    var cardListings := CollectCardListings(page.cards, builderFilter, resolve);
    var jsListings: seq<ZillowListing> := [];
    if page.script.Some? {
      jsListings := ParseScriptListings(page.script.value, builderFilter, resolve);
    }
    var listings := cardListings + jsListings;
    assert listings == SearchCandidates(page, builderFilter, resolve);
    unique := Deduplicate(listings, ListingKey);
  }

  /** The card loop of `search_zillow_new_construction`. */
  method CollectCardListings(cards: seq<ZillowCard>, builderFilter: bool, resolve: string -> string)
    returns (listings: seq<ZillowListing>)
    ensures listings == CardListings(cards, builderFilter, resolve)
  {
    listings := [];
    for i := 0 to |cards|
      invariant listings == CardListings(cards[..i], builderFilter, resolve)
    {
      CardsStep(cards, i, builderFilter, resolve);
      var listing := ParseZillowCard(cards[i], resolve);
      if listing.Some? {
        if builderFilter {
          var cardText := Lower(cards[i].text);
          if Contains(cardText, "lennar") {
            listings := listings + [listing.value];
          }
        } else {
          listings := listings + [listing.value];
        }
      }
    }
    assert cards[..|cards|] == cards;
  }

  // ---------------------------------------------------------------------------
  // `scrape_lennar_profile`

  /** A community card of the builder profile: the text of its name element,
      and its home cards. */
  datatype ProfileCommunity = ProfileCommunity(name: Option<string>, homes: seq<ZillowCard>)

  /** `_parse_zillow_card` as a value, so that a list of cards can be
      parsed card by card. */
  function CardParser(resolve: string -> string): ZillowCard -> Option<ZillowListing> {
    card => ZillowCardListing(card, resolve)
  }

  /** The cards that parsed, with the community's name and the builder
      "Lennar". */
  function Tagged(name: string, parsed: seq<Option<ZillowListing>>): (ls: seq<ZillowListing>)
    ensures |ls| <= |parsed|
  {
    if parsed == [] then []
    else
      var init := Tagged(name, parsed[..|parsed| - 1]);
      var r := parsed[|parsed| - 1];
      if r.Some? then init + [r.value.(communityName := name, builder := "Lennar")] else init
  }

  /** Every card that parsed is kept, renamed and re-credited, and nothing
      else is. */
  lemma {:induction false} TaggedMembers(name: string, parsed: seq<Option<ZillowListing>>)
    ensures forall k :: 0 <= k < |parsed| && parsed[k].Some? ==>
      parsed[k].value.(communityName := name, builder := "Lennar") in Tagged(name, parsed)
    ensures forall l :: l in Tagged(name, parsed) ==>
      exists k :: 0 <= k < |parsed| && parsed[k].Some? && l == parsed[k].value.(communityName := name, builder := "Lennar")
  {
    if parsed != [] {
      var n := |parsed| - 1;
      TaggedMembers(name, parsed[..n]);
      assert forall k :: 0 <= k < n ==> parsed[..n][k] == parsed[k];
    }
  }

  /** Tagging two runs of parsed cards, one after the other. */
  lemma {:induction false} TaggedAppend(name: string, a: seq<Option<ZillowListing>>, b: seq<Option<ZillowListing>>)
    ensures Tagged(name, a + b) == Tagged(name, a) + Tagged(name, b)
  {
    if b == [] {
      assert a + b == a;
    } else {
      var b', r := b[..|b| - 1], b[|b| - 1];
      var tail := if r.Some? then [r.value.(communityName := name, builder := "Lennar")] else [];
      calc {
        Tagged(name, a + b);
        { assert (a + b)[..|a + b| - 1] == a + b'; assert (a + b)[|a + b| - 1] == r; }
        Tagged(name, a + b') + tail;
        { TaggedAppend(name, a, b'); }
        Tagged(name, a) + Tagged(name, b') + tail;
        Tagged(name, a) + Tagged(name, b);
      }
    }
  }

  /** One parsed card is kept, renamed and re-credited, exactly when it
      parsed; with `TaggedAppend` this fixes the tagged listings and their
      order. */
  lemma TaggedOne(name: string, r: Option<ZillowListing>)
    ensures Tagged(name, [r]) == (if r.Some? then [r.value.(communityName := name, builder := "Lennar")] else [])
  {
    assert [r][..0] == [];
  }

  lemma TaggedSnoc(name: string, parsed: seq<Option<ZillowListing>>, r: Option<ZillowListing>)
    ensures Tagged(name, parsed + [r])
      == Tagged(name, parsed) + (if r.Some? then [r.value.(communityName := name, builder := "Lennar")] else [])
  {
    assert (parsed + [r])[..|parsed|] == parsed;
  }

  /** A tagged listing has the community's name, the builder "Lennar" and a
      street, when every parsed card had one. */
  lemma {:induction false} TaggedValid(name: string, parsed: seq<Option<ZillowListing>>)
    requires forall k :: 0 <= k < |parsed| && parsed[k].Some? ==> parsed[k].value.address != ""
    ensures forall l :: l in Tagged(name, parsed) ==>
              l.communityName == name && l.builder == "Lennar" && l.address != ""
  {
    if parsed != [] {
      TaggedValid(name, parsed[..|parsed| - 1]);
    }
  }

  /** The listings of the home cards of one community card: every card
      that parses, with the community's name and the builder "Lennar". */
  function HomesListings(name: string, homes: seq<ZillowCard>, resolve: string -> string): (ls: seq<ZillowListing>)
    ensures |ls| <= |homes|
  {
    Tagged(name, Map(homes, CardParser(resolve)))
  }

  /** Every home card that parses gives one listing, renamed and
      re-credited, and every listing comes from such a card. */
  lemma HomesListingsMembers(name: string, homes: seq<ZillowCard>, resolve: string -> string)
    ensures forall h :: h in homes && ZillowCardListing(h, resolve).Some? ==>
      ZillowCardListing(h, resolve).value.(communityName := name, builder := "Lennar") in HomesListings(name, homes, resolve)
    ensures forall l :: l in HomesListings(name, homes, resolve) ==>
      exists h :: h in homes && ZillowCardListing(h, resolve).Some?
        && l == ZillowCardListing(h, resolve).value.(communityName := name, builder := "Lennar")
  {
    var parsed := Map(homes, CardParser(resolve));
    assert forall k :: 0 <= k < |homes| ==> parsed[k] == ZillowCardListing(homes[k], resolve);
    TaggedMembers(name, parsed);
    forall h | h in homes && ZillowCardListing(h, resolve).Some?
      ensures ZillowCardListing(h, resolve).value.(communityName := name, builder := "Lennar") in HomesListings(name, homes, resolve)
    {
      var k :| 0 <= k < |homes| && homes[k] == h;
      assert parsed[k] == ZillowCardListing(h, resolve);
    }
  }

  /** Two runs of home cards, one after the other, give their listings
      concatenated, so card order is kept. */
  lemma HomesListingsAppend(name: string, a: seq<ZillowCard>, b: seq<ZillowCard>, resolve: string -> string)
    ensures HomesListings(name, a + b, resolve) == HomesListings(name, a, resolve) + HomesListings(name, b, resolve)
  {
    MapAppend(a, b, CardParser(resolve));
    TaggedAppend(name, Map(a, CardParser(resolve)), Map(b, CardParser(resolve)));
  }

  lemma HomesListingsValid(name: string, homes: seq<ZillowCard>, resolve: string -> string)
    ensures forall l :: l in HomesListings(name, homes, resolve) ==>
              l.communityName == name && l.builder == "Lennar" && l.address != ""
  {
    var parsed := Map(homes, CardParser(resolve));
    forall k | 0 <= k < |parsed| && parsed[k].Some? ensures parsed[k].value.address != "" {
      assert parsed[k] == ZillowCardListing(homes[k], resolve);
    }
    TaggedValid(name, parsed);
  }

  function CommunityHomes(c: ProfileCommunity, resolve: string -> string): seq<ZillowListing> {
    HomesListings(c.name.GetOr(""), c.homes, resolve)
  }

  /** The listings of the profile page (None: `_make_request` gave up), in
      community order. */
  function ProfileListings(communities: Option<seq<ProfileCommunity>>, resolve: string -> string)
    : (ls: seq<ZillowListing>)
    ensures communities.None? ==> ls == []
  {
    if communities.None? then [] else CommunitiesHomes(communities.value, resolve)
  }

  /** The home listings of a run of community cards, card after card. */
  function CommunitiesHomes(cs: seq<ProfileCommunity>, resolve: string -> string): seq<ZillowListing> {
    ConcatMap(cs, c => CommunityHomes(c, resolve))
  }

  /** A profile listing comes from one of the community cards, and every
      listing of every community card is among the profile listings. */
  lemma ProfileListingsMembers(communities: seq<ProfileCommunity>, resolve: string -> string)
    ensures forall l :: l in ProfileListings(Some(communities), resolve) ==>
      exists c :: c in communities && l in CommunityHomes(c, resolve)
    ensures forall c, l :: c in communities && l in CommunityHomes(c, resolve) ==>
      l in ProfileListings(Some(communities), resolve)
  {
    var f := c => CommunityHomes(c, resolve);
    assert ProfileListings(Some(communities), resolve) == ConcatMap(communities, f);
    assert forall c :: f(c) == CommunityHomes(c, resolve);
  }

  /** Two runs of community cards, one after the other, give their home
      listings concatenated. */
  lemma CommunitiesHomesAppend(a: seq<ProfileCommunity>, b: seq<ProfileCommunity>, resolve: string -> string)
    ensures CommunitiesHomes(a + b, resolve) == CommunitiesHomes(a, resolve) + CommunitiesHomes(b, resolve)
  {
    ConcatMapAppend(a, b, c => CommunityHomes(c, resolve));
  }

  /** Every profile listing has a street, the builder "Lennar" and the name
      of one of the community cards. */
  lemma {:induction false} CommunitiesHomesValid(cs: seq<ProfileCommunity>, resolve: string -> string)
    ensures forall l :: l in CommunitiesHomes(cs, resolve) ==>
              l.builder == "Lennar" && l.address != "" && exists c :: c in cs && l.communityName == c.name.GetOr("")
  {
    if cs != [] {
      var init := cs[..|cs| - 1];
      var last := cs[|cs| - 1];
      CommunitiesHomesValid(init, resolve);
      HomesListingsValid(last.name.GetOr(""), last.homes, resolve);
      assert forall x :: x in init ==> x in cs;
      assert last in cs;
    }
  }

  // ---------------------------------------------------------------------------
  // `scrape_multiple_locations`

  /** The listings of the locations in order; a location whose search
      raised contributes nothing. `searchPage` is what fetching a search URL
      gave the search. */
  function LocationsListings(locations: seq<string>, searchPage: string -> Outcome<Option<SearchPage>>,
                             resolve: string -> string): (ls: seq<ZillowListing>)
  {
    ConcatMap(locations, location => LocationResult(location, searchPage, resolve))
  }

  function LocationResult(location: string, searchPage: string -> Outcome<Option<SearchPage>>,
                          resolve: string -> string): (ls: seq<ZillowListing>)
    ensures searchPage(SearchUrl(location)).Raised? ==> ls == []
    ensures searchPage(SearchUrl(location)).Returned? ==>
      ls == SearchResults(searchPage(SearchUrl(location)).value, true, resolve)
  {
    match searchPage(SearchUrl(location))
    case Raised => []
    case Returned(page) => SearchResults(page, true, resolve)
  }

  /** Scraping two runs of locations one after the other gives the two
      results concatenated. */
  lemma LocationsListingsAppend(a: seq<string>, b: seq<string>, searchPage: string -> Outcome<Option<SearchPage>>,
                                resolve: string -> string)
    ensures LocationsListings(a + b, searchPage, resolve)
      == LocationsListings(a, searchPage, resolve) + LocationsListings(b, searchPage, resolve)
  {
    ConcatMapAppend(a, b, location => LocationResult(location, searchPage, resolve));
  }

  /** A listing of a multi-location scrape comes from one location's search,
      and every listing of every location's search is kept. */
  lemma LocationsListingsMembers(locations: seq<string>, searchPage: string -> Outcome<Option<SearchPage>>,
                                 resolve: string -> string)
    ensures forall l :: l in LocationsListings(locations, searchPage, resolve) ==>
      exists location :: location in locations && l in LocationResult(location, searchPage, resolve)
    ensures forall location, l :: location in locations && l in LocationResult(location, searchPage, resolve) ==>
      l in LocationsListings(locations, searchPage, resolve)
  {
    var f := location => LocationResult(location, searchPage, resolve);
    assert LocationsListings(locations, searchPage, resolve) == ConcatMap(locations, f);
    assert forall location :: f(location) == LocationResult(location, searchPage, resolve);
  }

  lemma LocationsStep(locations: seq<string>, i: nat, searchPage: string -> Outcome<Option<SearchPage>>,
                      resolve: string -> string)
    requires i < |locations|
    ensures LocationsListings(locations[..i + 1], searchPage, resolve)
      == LocationsListings(locations[..i], searchPage, resolve) + LocationResult(locations[i], searchPage, resolve)
  {
    ConcatMapSnoc(locations, i, location => LocationResult(location, searchPage, resolve));
  }

  /** Every listing of a multi-location scrape has a street. */
  lemma {:induction false} LocationsListingsValid(locations: seq<string>, searchPage: string -> Outcome<Option<SearchPage>>,
                                                 resolve: string -> string)
    ensures forall l :: l in LocationsListings(locations, searchPage, resolve) ==> l.address != ""
  {
    if locations != [] {
      var init := locations[..|locations| - 1];
      var last := locations[|locations| - 1];
      LocationsListingsValid(init, searchPage, resolve);
      var step := location => LocationResult(location, searchPage, resolve);
      assert LocationsListings(locations, searchPage, resolve)
        == LocationsListings(init, searchPage, resolve) + LocationResult(last, searchPage, resolve);
      match searchPage(SearchUrl(last))
      case Raised =>
      case Returned(page) =>
        if page.Some? {
          SearchResultsValid(page.value, true, resolve);
        }
    }
  }

  /** The listings of the scraper. */
  class ZillowLennarScraper {
    var listings: seq<ZillowListing>

    constructor()
      ensures listings == []
    {
      listings := [];
    }

    /** `scrape_lennar_profile`: the profile listings, appended to `listings`. */
    method ScrapeLennarProfile(communities: Option<seq<ProfileCommunity>>, resolve: string -> string)
      returns (result: seq<ZillowListing>)
      modifies this
      ensures result == ProfileListings(communities, resolve)
      ensures listings == old(listings) + result
    {
      result := [];
      if communities.Some? {
        result := CollectCommunities(communities.value, resolve);
      }
      listings := listings + result;
    }

    /** `scrape_multiple_locations`: a sleep of `delay` before each location,
      then its search with the builder filter on; `listings` is replaced by
      the results, whatever it held before. */
    method ScrapeMultipleLocations(locations: seq<string>, delay: nat,
                                   searchPage: string -> Outcome<Option<SearchPage>>, resolve: string -> string)
      returns (allListings: seq<ZillowListing>, effects: seq<Effect>)
      modifies this
      ensures allListings == LocationsListings(locations, searchPage, resolve)
      ensures effects == Pauses(|locations|, delay)
      ensures listings == allListings
    {
      allListings := [];
      effects := [];
      for i := 0 to |locations|
        invariant allListings == LocationsListings(locations[..i], searchPage, resolve)
        invariant effects == Pauses(i, delay)
      {
        LocationsStep(locations, i, searchPage, resolve);
        effects := effects + [Sleep(delay)];
        var outcome := searchPage(SearchUrl(locations[i]));
        if outcome.Returned? {
          var _, found := SearchZillowNewConstruction(locations[i], true, outcome.value, resolve);
          allListings := allListings + found;
        }
      }
      assert locations[..|locations|] == locations;
      listings := allListings;
    }
  }

  /** The community-card loop of `scrape_lennar_profile`. */
  method CollectCommunities(cs: seq<ProfileCommunity>, resolve: string -> string) returns (result: seq<ZillowListing>)
    ensures result == CommunitiesHomes(cs, resolve)
  {
    result := [];
    for i := 0 to |cs|
      invariant result == CommunitiesHomes(cs[..i], resolve)
    {
      CommunitiesStep(cs, i, resolve);
      var homes := CollectHomes(cs[i], resolve);
      result := result + homes;
    }
    assert cs[..|cs|] == cs;
  }

  lemma CommunitiesStep(cs: seq<ProfileCommunity>, i: nat, resolve: string -> string)
    requires i < |cs|
    ensures CommunitiesHomes(cs[..i + 1], resolve) == CommunitiesHomes(cs[..i], resolve) + CommunityHomes(cs[i], resolve)
  {
    ConcatMapSnoc(cs, i, c => CommunityHomes(c, resolve));
  }

  /** The home-card loop of one community card. */
  method CollectHomes(c: ProfileCommunity, resolve: string -> string) returns (homes: seq<ZillowListing>)
    ensures homes == CommunityHomes(c, resolve)
  {
    var communityName := "";
    if c.name.Some? {
      communityName := c.name.value;
    }
    var parse := CardParser(resolve);
    homes := [];
    for j := 0 to |c.homes|
      invariant homes == Tagged(communityName, Map(c.homes[..j], parse))
    {
      MapSnoc(c.homes, j, parse);
      var listing := parse(c.homes[j]);
      TaggedSnoc(communityName, Map(c.homes[..j], parse), listing);
      if listing.Some? {
        homes := homes + [listing.value.(communityName := communityName, builder := "Lennar")];
      }
    }
    assert c.homes[..|c.homes|] == c.homes;
  }
}
