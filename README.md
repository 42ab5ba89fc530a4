# LEN_scraper core in Dafny

This is a model of the logic of the LEN_scraper tool, with proofs about that logic. The tool collects new-home listings of the builder Lennar from two places:

- `lennar_scraper.py` crawls lennar.com: the state list, the communities of each state, and the home, plan and quick-move-in cards of each community.
- `zillow_lennar_scraper.py` searches Zillow's new-construction pages and Lennar's builder profile there.
- `scrape.py` is the driver. It provides default search locations per state and merges both scrapers' listings into one deduplicated list of common records.

What is modelled:

- **Normalisers** (`LennarNormalize`, `ZillowParse`, `Text`, `UnitScan`).
  - Prices, first numbers, state slugs, location lines and Zillow addresses.
  - The bed/bath/sqft details and the search slug.
  - Each regular expression is an explicit scan. `XAt(s, i)` says what the pattern matches when it starts at position `i`. A generic leftmost search (`Common.Leftmost`) picks the first start, as `re.search` does. Greedy and lazy backtracking are worked out by hand for each pattern. `\b` means "the neighbour is not in `[A-Za-z0-9_]`".
- **Retry and scroll loops** (`LennarFetch`, `ZillowSearch`).
  - Imperative methods over an oracle that gives one outcome per attempt, or one page height per read.
  - They return the requested sleeps and User-Agent rotations as a trace of `Effect`s.
- **Card cascades** (`LennarCards`, `ZillowParse`).
  - A card is the record of what its CSS selectors find: an optional element per selector, plus the card's whole text.
  - `_parse_home_card` tries the element, then a pattern over the text, then a default. It is modelled the same way.
- **Crawl and list state** (`LennarCrawl`, `ZillowSearch`).
  - Pages are given as what their selectors return. A fetch that `_make_request` gave up on is `None`. A call that raised is `Outcome.Raised`.
  - The two scraper classes keep their `listings` field, which their methods update.
  - The lennar.com crawl is modelled twice. As written, its metro selector (lennar_scraper.py:266) does not parse, so any fetched state page raises. The corrected crawl uses the selector the code evidently intended. See "## Findings".
- **Deduplication** (`Dedup`). The ordered, first-seen-wins loop appears four times: states by slug, communities by URL, Zillow listings by (address, zip) and the combined records by (address-or-community, price). It is modelled once, as `Unique` with its lemmas, and the `Deduplicate` loop is proved equal to it.
- **Driver** (`Combine`). The default-location table and `combine_results`.

Each loop of the source is a `method` with a `while` or `for` loop. Its `ensures` ties the result to a function of the inputs, and the lemmas are proved about that function.

Where the source updates a listing in place (`_parse_address_components`, `_parse_details`, the status overwrite of quick-move-in homes), the model returns the updated record.

## Model

| member | source | states |
|---|---|---|
| LennarNormalize.ParsePrice | lennar_scraper.py:499-508 | None exactly when the text has no digit, or has more than 4300 digits (Python's default `int()` limit, whose ValueError is caught); otherwise the integer spelled by the text's digits in order |
| LennarNormalize.ParsePriceIgnoresSeparators | lennar_scraper.py:499-508 | inserting non-digit text anywhere (currency sign, commas, words) does not change the parsed price |
| LennarNormalize.ExtractNumber | lennar_scraper.py:510-513 | "" exactly when the text has no digit, comma or period; otherwise the leftmost maximal run of number characters, which occurs in the text |
| LennarNormalize.SlugToAbbrev | lennar_scraper.py:480-497 | a slug whose lower case is in the 50-entry table gives that entry's code; any other slug gives its first min(2, len) characters upper-cased; never empty for a non-empty slug |
| LennarNormalize.StateCodeShape | lennar_scraper.py:482-496 | every table code is two capital letters and none is "DC"; every table slug has at least four letters |
| LennarNormalize.SlugToAbbrevIgnoresCase | lennar_scraper.py:497 | upper- and lower-casing the slug do not change the code |
| LennarNormalize.SlugToAbbrevExample | lennar_scraper.py:480-497 | "texas" gives "TX" |
| LennarNormalize.SlugToAbbrevShortSlug | lennar_scraper.py:497 | a slug of at most three characters always takes the fallback: its first two characters upper-cased |
| LennarNormalize.ZipAt | lennar_scraper.py:460 | a match at i is five digits, or five digits, '-' and four digits, between word boundaries; when the ZIP+4 form stands at i it is always taken, and a five-digit match means the ZIP+4 form does not stand there; five bounded digits always match |
| LennarNormalize.StateTokenAt | lennar_scraper.py:465 | a match at i exactly when two capitals stand between word boundaries there; the match is those two letters |
| LennarNormalize.FindZip | lennar_scraper.py:459-462 | "" exactly when no position matches; otherwise the match at the leftmost matching position |
| LennarNormalize.FindStateToken | lennar_scraper.py:464-467 | "" exactly when no position matches; otherwise the leftmost two-capital token |
| LennarNormalize.LongestCity | lennar_scraper.py:474 | the greedy letter-and-space group gives back characters until `,?\s*STATE` follows: the longest such group, or None when none exists |
| LennarNormalize.CityAt | lennar_scraper.py:474 | a match at i is a letters-and-spaces group inside the run starting at i, followed by the city tail, and no longer group in that run is followed by it |
| LennarNormalize.FindCity | lennar_scraper.py:474-475 | None exactly when no position matches; otherwise the group of the leftmost matching position |
| LennarNormalize.CityBefore | lennar_scraper.py:473-476 | the stripped group of the leftmost city match, or ""; the result has only letters and spaces and no blank at either end |
| LennarNormalize.ParseLocation | lennar_scraper.py:453-478 | zip is the first ZIP token; state is the first two-capital token, else the code of a non-empty hint, else ""; state is "" exactly when the text has no token and the hint is empty; city is "" whenever state is "", else the city before the state |
| LennarNormalize.ParseLocationExample | lennar_scraper.py:453-478 | "Dallas, TX 75201" gives city "Dallas", state "TX" and ZIP "75201" |
| Http.FirstSuccess | lennar_scraper.py:142-152 | the first of the first n attempts that got a response with a status outside 400-599, or None when all n failed |
| Http.Schedule | lennar_scraper.py:157 | the k backoff delays are 2^0 .. 2^(k-1) seconds |
| Common.Leftmost | lennar_scraper.py:460 | `re.search`: the first position in range where the pattern matches, or None exactly when it matches nowhere |
| Common.SliceTo | lennar_scraper.py:544 | Python's `xs[:n]`: the first n elements, or all but the last -n for a negative n, clamped to the list |
| Common.Pauses | lennar_scraper.py:539-547 | n sleeps of the delay |
| LennarFetch.Backoff | lennar_scraper.py:156-159 | after k failed attempts the trace alternates a sleep of 2^j seconds and a User-Agent rotation, for j = 0 .. k-1 |
| LennarFetch.BackoffShape | lennar_scraper.py:156-159 | the sleeps of that trace are 1, 2, 4, ..., 2^(k-1), and it holds k rotations |
| LennarFetch.MakeRequest | lennar_scraper.py:142-161 | no attempt for a non-positive count; an unsupported method raises before any sleep; otherwise it returns the first successful attempt's body after backing off once per earlier failure, or gives up with no response after retryCount attempts without backing off after the last one |
| LennarFetch.ScrollRounds | lennar_scraper.py:577-583 | n rounds of scroll-to-bottom followed by a one-second sleep |
| LennarFetch.ScrollUntilStable | lennar_scraper.py:575-583 | stops at the first height read equal to the previous one and at no earlier read; the trace is the three-second wait and then one scroll-and-sleep round per read |
| LennarFetch.FirstStableFrom | lennar_scraper.py:576-583 | the first read from i on that equals the previous one, with every read before it differing |
| LennarFetch.ScrapeWithSelenium | lennar_scraper.py:569-589 | a page that fails to load gives "" and no wait; otherwise its source after the three-second wait and one scroll round per read up to the first stable one |
| UnitScan.CountAt | lennar_scraper.py:407 | a count pattern matches at i exactly when a group starts there and a unit word follows its greedy end after optional spaces; the group occurs in the text, has the pattern's shape and ends at the greedy end |
| UnitScan.GroupShape | lennar_scraper.py:416 | the greedy group is digits, digits with one inner period, or digits and commas, as the pattern's shape says |
| UnitScan.FindCount | lennar_scraper.py:407-409 | None exactly when no position matches; otherwise the leftmost match, which starts at the beginning of its run |
| UnitScan.StartInsideGroup | lennar_scraper.py:407 | a match inside a run implies a match one character to the left, so a search never stops inside a number |
| LennarCards.InferHouseType | lennar_scraper.py:391-400 | "Townhome" exactly when the text mentions townhome or townhouse; "Condominium" exactly when it does not but mentions condo; otherwise "Single Family" |
| LennarCards.CountField | lennar_scraper.py:402-427 | the element's first number when the element exists; else the pattern's group, which has the pattern's shape; else "" |
| LennarCards.CardListing | lennar_scraper.py:367-442 | the listing carries the community's name, city, state and ZIP, the stripped plan name and price texts, and a comma-free sqft when it came from the card text |
| LennarCards.CardHouseType | lennar_scraper.py:386-400 | the type element's text when present; otherwise one of the three inferred names, "Townhome" exactly for the townhome words |
| LennarCards.HomeCardListing | lennar_scraper.py:444-451 | a listing exactly when plan name, price or community name is non-empty, and then the card's listing |
| LennarCards.ParseCardFields | lennar_scraper.py:367-442 | the step-by-step field assignments build the card's listing |
| LennarCards.ParseHomeCard | lennar_scraper.py:364-451 | the method returns the card's listing or nothing, as the function says |
| LennarCards.MarkedAppend | lennar_scraper.py:352-359 | marking two listing lists one after the other marks each |
| LennarCards.ParsedCards | lennar_scraper.py:337-340 | at most one listing per card |
| LennarCards.ParsedCardsMembers | lennar_scraper.py:337-340 | every listing is the listing of some card, and every card that yields a listing contributes it |
| LennarCards.ParsedCardsAppend | lennar_scraper.py:337-349 | parsing two card lists one after the other gives their listings one after the other |
| LennarCards.ParsedCardsOne | lennar_scraper.py:338-340 | one card gives its listing when it yields one and nothing otherwise; with the append lemma this fixes the list and its order |
| LennarCards.ParsedCardsContext | lennar_scraper.py:368-372 | every listing of a community carries that community's name, city, state and ZIP |
| LennarCards.ParsedCardsKeepAll | lennar_scraper.py:445-446 | with a non-empty community name every card yields a listing |
| LennarCards.PageContext | lennar_scraper.py:317-328 | the given community name, else the page heading, else ""; city, state and ZIP from the location line with the community's state slug as hint |
| LennarCards.Marked | lennar_scraper.py:358 | one to one: in a quick-move-in section every listing gets the status "Move-In Ready", elsewhere every listing is unchanged |
| LennarCards.CommunityListings | lennar_scraper.py:306-362 | no page gives no listings; otherwise exactly the home-card listings, then the plan-section listings, then the quick-move-in listings each marked "Move-In Ready" |
| LennarCards.CommunityListingsShape | lennar_scraper.py:337-359 | the home and plan listings come first, in order; every later listing is "Move-In Ready"; all carry the community's context |
| LennarCards.ParseCards | lennar_scraper.py:337-340 | the loop over one card list gives the cards' listings in order, marked when quick-move-in |
| LennarCards.ParseSections | lennar_scraper.py:343-359 | the loops over sections and their cards give the listings of the concatenated sections |
| LennarCards.GetListingsFromCommunity | lennar_scraper.py:296-362 | the method returns the community's listings as the function says |
| LennarCards.TextFilter | lennar_scraper.py:610-611 | a text filter contributes a parameter exactly when it is present and non-empty |
| LennarCards.NumberFilter | lennar_scraper.py:612-617 | a number filter contributes a parameter exactly when it is present and non-zero |
| LennarCards.QueryOrdered | lennar_scraper.py:608-619 | the query's keys appear in the fixed order location, minPrice, maxPrice, beds, homeType, each at most once |
| LennarCards.QueryValues | lennar_scraper.py:608-619 | each key carries its filter's value, and is absent exactly when the filter is falsy |
| LennarCards.SearchParams | lennar_scraper.py:607-619 | the five conditional assignments build the query |
| LennarCards.SearchHomes | lennar_scraper.py:621-639 | no response gives no listings; otherwise the result cards parsed with an empty context |
| LennarCrawl.SlugTailAt | lennar_scraper.py:179 | `[a-z-]+` followed by the end of the href or by one final '/' |
| LennarCrawl.StateSlugAt | lennar_scraper.py:179 | a match at i is "/new-homes/" followed by a non-empty slug of lower-case letters and dashes |
| LennarCrawl.StateSlug | lennar_scraper.py:179-181 | None exactly when no position matches; otherwise the slug of the leftmost match, which is lower-case letters and dashes |
| LennarCrawl.StateUrlMark | lennar_scraper.py:179 | the pattern matches a state page URL right after the base URL, with the slug as group |
| LennarCrawl.StateUrlSlug | lennar_scraper.py:179 | the state page URL of a slug gives the slug back |
| LennarCrawl.StateOfLink | lennar_scraper.py:176-188 | a state exactly when the href has a state slug, the link text is non-empty and the slug is not find-a-home or search; its URL is the resolved href |
| LennarCrawl.StateCandidates | lennar_scraper.py:174-188 | at most one state per link; a state is listed exactly when some link gives it (valid, non-excluded slug and a name), and every link that gives a state contributes it |
| LennarCrawl.StateCandidatesAppend | lennar_scraper.py:176-188 | the states of two link lists one after the other are concatenated, so link order is kept |
| LennarCrawl.StateCandidatesOne | lennar_scraper.py:176-188 | one link gives its state when it has one and nothing otherwise |
| LennarCrawl.FallbackStates | lennar_scraper.py:205-220 | the 19 slugs in order, each named by its title-cased words and pointing to its state page |
| LennarCrawl.FallbackUrlsRoundTrip | lennar_scraper.py:205-220 | every fallback URL gives its own slug back |
| LennarCrawl.FallbackSlugShape | lennar_scraper.py:207-212 | every fallback slug is a valid slug and not excluded |
| LennarCrawl.States | lennar_scraper.py:163-203 | the fallback list when the page could not be fetched; otherwise valid named states with pairwise distinct slugs |
| LennarCrawl.StatesKeepFirst | lennar_scraper.py:174-201 | for a fetched page, the states carry exactly the slugs of the candidate states, and each is the first candidate with its slug, in link order |
| LennarCrawl.CollectStates | lennar_scraper.py:176-188 | the link loop gives the state candidates |
| LennarCrawl.GetStates | lennar_scraper.py:163-203 | the loops over links and over the seen set give the states as the function says |
| LennarCrawl.ElementHref | lennar_scraper.py:246-250 | the element's own href, else the href of its inner community link, else "" |
| LennarCrawl.ElementName | lennar_scraper.py:253-257 | the element's text when it is non-empty and at most 200 characters, else the name element's text when there is one |
| LennarCrawl.ElementCommunity | lennar_scraper.py:246-263 | an element gives a community exactly when its href mentions "/community/"; the community is the element's name, the resolved href and the state's slug |
| LennarCrawl.ElementCommunities | lennar_scraper.py:243-263 | at most one community per element; each from an element whose href mentions "/community/", with the resolved href and the state's slug; every such element contributes its community |
| LennarCrawl.ElementCommunitiesAppend | lennar_scraper.py:245-263 | the communities of two element lists one after the other are concatenated, so element order is kept |
| LennarCrawl.ElementCommunitiesOne | lennar_scraper.py:245-263 | one element gives its community when it has one and nothing otherwise |
| LennarCrawl.MetroAtLastSlash | lennar_scraper.py:269 | in such an href a metro match always has "/new-homes/" + slug + "/" end at the last '/' |
| LennarCrawl.MetroHrefLastSegment | lennar_scraper.py:269 | for an href ending in a non-empty run of slug characters after its last '/', the metro pattern matches exactly when "/new-homes/" + slug + "/" ends at that '/'; so a "/community/..." tail is a metro link only when that prefix precedes it |
| LennarCrawl.MetroHrefTrailingSlash | lennar_scraper.py:269 | "/new-homes/<slug>/<metro>/" with a trailing '/' is a metro link for any valid metro slug |
| LennarCrawl.AnchorCommunities | lennar_scraper.py:274-283 | at most one community per metro-page link; each with a name, the state's slug and a resolved "/community/" href; every link with a non-empty href and name contributes its community |
| LennarCrawl.AnchorCommunitiesAppend | lennar_scraper.py:275-283 | the communities of two link lists one after the other are concatenated |
| LennarCrawl.AnchorCommunitiesOne | lennar_scraper.py:275-283 | one link gives its community exactly when its href and name are non-empty |
| LennarCrawl.MetroCommunities | lennar_scraper.py:266-283 | every community found through the metro pages has a name, the state's slug and a resolved "/community/" href; every community of every fetched metro page is found |
| LennarCrawl.MetroCommunitiesAppend | lennar_scraper.py:267-283 | the communities of two metro link lists one after the other are concatenated |
| LennarCrawl.MetroCommunitiesOne | lennar_scraper.py:267-283 | one metro link gives the communities of its page exactly when its href matches the metro pattern and the page was fetched |
| LennarCrawl.CommunitiesInState | lennar_scraper.py:222-294 | corrected crawl (the metro selector parses): nothing when the state page could not be fetched; otherwise communities of that state with pairwise distinct URLs, each from a "/community/" href |
| LennarCrawl.CommunitiesInStateKeepFirst | lennar_scraper.py:243-292 | corrected crawl: for a fetched page, the result holds exactly the URLs of the element and metro communities, each as its first occurrence; the deduplicated element communities come first, then only metro communities |
| LennarCrawl.CommunitiesInStateAsWritten | lennar_scraper.py:236-266 | as written: raises exactly when the state page was fetched (the metro selector does not parse); otherwise returns no communities, as the corrected function does |
| LennarCrawl.CollectElements | lennar_scraper.py:245-263 | the element loop gives the element communities |
| LennarCrawl.CollectAnchors | lennar_scraper.py:275-283 | the link loop of one metro page gives its communities |
| LennarCrawl.CollectMetros | lennar_scraper.py:267-283 | the metro loop gives the metro communities |
| LennarCrawl.GetCommunitiesInState | lennar_scraper.py:222-294 | corrected crawl: the method returns the state's communities as the function says |
| LennarCrawl.GetCommunitiesInStateAsWritten | lennar_scraper.py:222-294 | as written: the method raises or returns as `CommunitiesInStateAsWritten` says, after the element loop |
| LennarCrawl.SelectStates | lennar_scraper.py:533-534 | with a non-empty filter, exactly the states whose slug is in it; with no filter or an empty one, every state unchanged |
| LennarCrawl.SelectStatesAppend | lennar_scraper.py:533-534 | filtering two state lists one after the other gives the two selections concatenated, so the order of the state list is kept |
| LennarCrawl.SelectStatesOne | lennar_scraper.py:533-534 | one state is kept exactly when the filter is missing, empty or holds its slug |
| LennarCrawl.Capped | lennar_scraper.py:543-544 | Python's `communities[:max]` when the cap is truthy: a positive cap keeps the first min(cap, n) communities, a negative cap drops the last -cap (none left when it exceeds n), no cap or 0 keeps all |
| LennarCrawl.CommunityResult | lennar_scraper.py:549-553 | a community whose scrape raised contributes nothing; otherwise exactly the listings of its page (none when the page could not be fetched) |
| LennarCrawl.CommunitiesListingsAppend | lennar_scraper.py:546-553 | the listings of two community lists one after the other are concatenated, so each community's result stays in visiting order |
| LennarCrawl.StateCommunities | lennar_scraper.py:541-544 | corrected crawl: the communities crawled for a state are the capped communities of its page; all belong to that state and have pairwise distinct URLs |
| LennarCrawl.CrawlListings | lennar_scraper.py:538-553 | corrected crawl: the crawl's listings are the listings of every visited community, state after state, in visiting order |
| LennarCrawl.CrawlSleeps | lennar_scraper.py:538-547 | corrected crawl: exactly one pause per state plus one per visited community |
| LennarCrawl.CommunitiesListingsEmpty | lennar_scraper.py:546-553 | communities that each contribute nothing contribute nothing together |
| LennarCrawl.CrawlListingsNoPages | lennar_scraper.py:538-557 | when no community page yields anything, the crawl finds nothing |
| LennarCrawl.CrawlSleepsNoStatePages | lennar_scraper.py:538-547 | when no state page can be fetched, the crawl pauses once per state |
| LennarCrawl.VisitCommunities | lennar_scraper.py:546-553 | the community loop concatenates the communities' results in order and pauses once per community |
| LennarCrawl.VisitCommunity | lennar_scraper.py:549-553 | one guarded community scrape gives its result |
| LennarCrawl.VisitState | lennar_scraper.py:538-553 | corrected crawl: one state pauses, then visits its capped communities |
| LennarCrawl.CrawlStates | lennar_scraper.py:538-553 | corrected crawl: the state loop concatenates the states' results in order, with one pause per state and per community |
| LennarCrawl.LennarScraper.constructor | lennar_scraper.py:83 | a new scraper has no listings |
| LennarCrawl.CrawlAsWrittenRaises | lennar_scraper.py:538-541 | as written: the crawl raises exactly when some selected state's page is fetched; it then stops at the first such state, after one pause per state up to and including it |
| LennarCrawl.CrawlAsWrittenReturns | lennar_scraper.py:538-557 | as written: a crawl that does not raise found no state page, lists nothing, pauses once per state, and agrees with the corrected crawl |
| LennarCrawl.NoPagesRun | lennar_scraper.py:538-547 | as written: when no state page is fetched, the crawl returns nothing after one pause per state |
| LennarCrawl.NoStatePages | lennar_scraper.py:538-547 | corrected crawl: when no state page is fetched, it visits no community, lists nothing and pauses once per state |
| LennarCrawl.CrawlStatesAsWritten | lennar_scraper.py:538-553 | as written: the state loop raises or returns, with its pauses, exactly as `CrawlAsWritten` says |
| LennarCrawl.LennarScraper.ScrapeAllListings | lennar_scraper.py:515-557 | as written: the selected states are crawled as `CrawlAsWritten` says; when it raises, the scraper's listings are left as they were; otherwise they become the crawl's result |
| LennarCrawl.LennarScraper.ScrapeAllListingsCorrected | lennar_scraper.py:515-557 | corrected crawl: the selected states are crawled in order; the scraper's listings become exactly the crawl's result |
| ZillowParse.AddressAt | zillow_lennar_scraper.py:257 | a match with the lazy street ending at comma j: the street is the text before j, the city is non-empty and comma-free, the state is two capitals, the ZIP is five digits when present |
| ZillowParse.MatchAddress | zillow_lennar_scraper.py:257 | a match has a two-capital state and, when present, a five-digit ZIP |
| ZillowParse.MatchAddressLeftmost | zillow_lennar_scraper.py:257 | the anchored match uses the first comma at which the rest of the pattern matches, and no newline may come before it |
| ZillowParse.ApplyAddress | zillow_lennar_scraper.py:254-270 | on a match: trimmed street and city, the state, and the ZIP only when present; otherwise split on commas: street from two parts up, city from three up; all other fields unchanged |
| ZillowParse.ApplyAddressNoComma | zillow_lennar_scraper.py:264-270 | a comma-free address changes nothing |
| ZillowParse.ParseAddressComponents | zillow_lennar_scraper.py:254-270 | the step-by-step field updates give the parsed listing |
| ZillowParse.AddressRoundTrip | zillow_lennar_scraper.py:254-263 | "street, city, ST ZIP" built from trimmed comma-free parts parses back into exactly those parts |
| ZillowParse.RoundTripMatch | zillow_lennar_scraper.py:257 | the pattern matches such an address with exactly its four parts |
| ZillowParse.DetailsHouseType | zillow_lennar_scraper.py:289-295 | condo before townhouse or townhome, before house or single family, else the type unchanged |
| ZillowParse.ApplyDetails | zillow_lennar_scraper.py:272-295 | beds, baths and sqft from the first count match, sqft without commas, each left unchanged without a match; the house type by that precedence; all other fields unchanged |
| ZillowParse.ParseDetails | zillow_lennar_scraper.py:272-295 | the step-by-step field updates give the parsed listing |
| ZillowParse.ZillowCardFields | zillow_lennar_scraper.py:204-245 | builder "Lennar"; street, city, state and ZIP as the address parser leaves them in a fresh listing; the price text and its parsed value; beds, baths, sqft and house type as the details parser leaves them; the resolved details link and the image source; each "" when its element is missing |
| ZillowParse.ZillowCardListing | zillow_lennar_scraper.py:246-252 | a listing exactly when the final street is non-empty; its builder is "Lennar" |
| ZillowParse.ParseZillowCard | zillow_lennar_scraper.py:204-252 | the method returns the card's listing or nothing, as the function says |
| ZillowParse.ScalarText | zillow_lennar_scraper.py:349-351 | `str()` of a text is itself, of an integer its decimal spelling |
| ZillowParse.ScriptResults | zillow_lennar_scraper.py:329-331 | the cat1 results when non-empty, else the top-level results |
| ZillowParse.FormatPrice | zillow_lennar_scraper.py:346 | "$" followed by the integer with thousands commas |
| ZillowParse.Thousands | zillow_lennar_scraper.py:346 | the grouped spelling starts with a digit and holds only digits and commas |
| ZillowParse.DecimalStringThousands | zillow_lennar_scraper.py:346 | `str(n)` for n >= 1000 is `str(n // 1000)` followed by the last three digits, zero-padded |
| ZillowParse.ThousandsDigits | zillow_lennar_scraper.py:346 | the digits of the comma-grouped spelling of n are `str(n)`, so they spell n |
| ZillowParse.FormatPriceRoundTrip | zillow_lennar_scraper.py:346 | the digits of the formatted price of n are `str(n)`; parsing it gives n back when n has at most 4300 digits, and None beyond |
| ZillowParse.ResultPrice | zillow_lennar_scraper.py:341 | the price when it is truthy, else the unformatted price, else 0 |
| ZillowParse.ResultListing | zillow_lennar_scraper.py:334-363 | address, city, state, ZIP, builder, beds, baths and area from the result; a text price is kept and parsed; an integer price is formatted and kept as the number; house type, community, status and image are empty |
| ZillowParse.ResultPriceRoundTrip | zillow_lennar_scraper.py:341-347 | with no price and an unformatted price n, the display is "$" and n with commas, the number is n, and parsing the display gives n when n has at most 4300 digits |
| ZillowParse.ResultsListings | zillow_lennar_scraper.py:333-366 | at most one listing per result; every listing is the listing of a kept result (builder filter passed, address non-empty) and every kept result contributes its listing |
| ZillowParse.ResultsListingsAppend | zillow_lennar_scraper.py:333-366 | the listings of two result lists one after the other are concatenated, so result order is kept |
| ZillowParse.ResultsListingsOne | zillow_lennar_scraper.py:333-366 | one result gives its listing exactly when it is kept |
| ZillowParse.ScriptListings | zillow_lennar_scraper.py:322-371 | at most one listing per selected result; exactly the listings of the kept results of the selected list |
| ZillowParse.ParseScriptListings | zillow_lennar_scraper.py:322-371 | the result loop gives the script listings |
| ZillowSearch.RetryTrace | zillow_lennar_scraper.py:130-142 | two effects per failed attempt |
| ZillowSearch.RetryTraceElements | zillow_lennar_scraper.py:133-142 | each failed attempt rotates the User-Agent and then sleeps 2^j |
| ZillowSearch.MakeRequest | zillow_lennar_scraper.py:130-144 | no attempt for a non-positive count; otherwise the first successful body, with a rotation before every attempt and a backoff sleep after every failure but the last; None after retryCount failures |
| ZillowSearch.RetryTraceShape | zillow_lennar_scraper.py:130-144 | the sleeps are 1, 2, ..., 2^(k-1), the same as lennar.com's loop, with one more rotation than lennar.com's |
| ZillowSearch.RetryTraceCounts | zillow_lennar_scraper.py:130-142 | k failed attempts request the backoff schedule and k rotations |
| ZillowSearch.ScrapeWithSelenium | zillow_lennar_scraper.py:373-392 | a page that loads gives its source after a three-second wait and five scroll-and-sleep rounds; a failed load gives "" |
| ZillowSearch.SeleniumSleeps | zillow_lennar_scraper.py:379-386 | the browser path sleeps 3, 1, 1, 1, 1, 1 seconds and never rotates the User-Agent |
| ZillowSearch.ScrollSleeps | zillow_lennar_scraper.py:382-386 | n scroll rounds sleep one second each |
| ZillowSearch.SearchSlug | zillow_lennar_scraper.py:161 | the slug holds only characters that percent-encoding keeps, plus '%'; it has no space and no comma |
| ZillowSearch.SearchSlugRoundTrip | zillow_lennar_scraper.py:161 | for ASCII text, decoding the slug gives the lower-cased location with spaces as '-' and without commas |
| ZillowSearch.SearchSlugPlain | zillow_lennar_scraper.py:161 | a location of letters, digits, spaces and commas is encoded as itself |
| ZillowSearch.SearchUrl | zillow_lennar_scraper.py:161-162 | the base URL and '/', then the slug, then "/new-construction/"; the URL has no space |
| ZillowSearch.CardListings | zillow_lennar_scraper.py:176-185 | at most one listing per card |
| ZillowSearch.CardListingsAppend | zillow_lennar_scraper.py:176-185 | the listings of two card lists one after the other are concatenated, so card order is kept |
| ZillowSearch.CardListingsOne | zillow_lennar_scraper.py:176-185 | one card gives its listing exactly when it parses and, under the builder filter, its text mentions lennar |
| ZillowSearch.CardListingsValid | zillow_lennar_scraper.py:176-185 | every card listing has an address and builder "Lennar" and comes from a card that parses and passes the filter; every such card contributes its listing |
| ZillowSearch.SearchCandidates | zillow_lennar_scraper.py:173-191 | every candidate before the dedup has an address, and under the builder filter a Lennar builder |
| ZillowSearch.SearchResults | zillow_lennar_scraper.py:164-171 | no response gives no listings |
| ZillowSearch.SearchResultsValid | zillow_lennar_scraper.py:193-202 | the result is drawn from the card and script listings, each with an address, with pairwise distinct (address, zip) keys |
| ZillowSearch.SearchResultsShape | zillow_lennar_scraper.py:173-202 | the deduplicated card listings come first; the rest are script listings; every candidate key is kept |
| ZillowSearch.SearchZillowNewConstruction | zillow_lennar_scraper.py:146-202 | the method builds the slug URL and returns the page's deduplicated listings |
| ZillowSearch.ParsePage | zillow_lennar_scraper.py:173-202 | the card loop, the script listings and the dedup loop give the page's listings |
| ZillowSearch.CollectCardListings | zillow_lennar_scraper.py:176-185 | the card loop gives the card listings |
| ZillowSearch.Tagged | zillow_lennar_scraper.py:424-429 | at most one listing per parsed card |
| ZillowSearch.TaggedValid | zillow_lennar_scraper.py:424-429 | each kept home carries the community's name and builder "Lennar" |
| ZillowSearch.TaggedMembers | zillow_lennar_scraper.py:424-429 | every parsed card is kept with the community's name and builder "Lennar", and nothing else is |
| ZillowSearch.TaggedAppend | zillow_lennar_scraper.py:424-429 | tagging two runs of parsed cards one after the other gives the two results concatenated |
| ZillowSearch.TaggedOne | zillow_lennar_scraper.py:425-429 | one parsed card is kept, renamed and re-credited, exactly when it parsed |
| ZillowSearch.HomesListings | zillow_lennar_scraper.py:423-429 | at most one listing per home card |
| ZillowSearch.HomesListingsAppend | zillow_lennar_scraper.py:423-429 | two runs of home cards give their listings one after the other, so card order is kept |
| ZillowSearch.HomesListingsValid | zillow_lennar_scraper.py:423-429 | every profile listing of a community carries its name, builder "Lennar" and an address |
| ZillowSearch.HomesListingsMembers | zillow_lennar_scraper.py:423-429 | every home card that parses gives its listing with the community's name and builder "Lennar", and every listing comes from such a card |
| ZillowSearch.ProfileListings | zillow_lennar_scraper.py:404-411 | no profile page gives no listings |
| ZillowSearch.ProfileListingsMembers | zillow_lennar_scraper.py:413-429 | a profile listing comes from one of the community cards, and every listing of every community card is kept |
| ZillowSearch.CommunitiesHomesAppend | zillow_lennar_scraper.py:415-429 | the listings of two runs of community cards one after the other are concatenated |
| ZillowSearch.CommunitiesHomesValid | zillow_lennar_scraper.py:414-429 | every profile listing has builder "Lennar", an address, and the name of one of the communities |
| ZillowSearch.LocationResult | zillow_lennar_scraper.py:452-457 | a location whose search raised contributes nothing; otherwise its filtered search results |
| ZillowSearch.LocationsListingsAppend | zillow_lennar_scraper.py:449-454 | the results of two location lists are concatenated |
| ZillowSearch.LocationsListingsMembers | zillow_lennar_scraper.py:449-457 | a collected listing comes from one location's search, and every listing of every location's search is kept |
| ZillowSearch.LocationsListingsValid | zillow_lennar_scraper.py:449-459 | every collected listing has an address |
| ZillowSearch.ZillowLennarScraper.constructor | zillow_lennar_scraper.py:72 | a new scraper has no listings |
| ZillowSearch.ZillowLennarScraper.ScrapeLennarProfile | zillow_lennar_scraper.py:394-433 | returns the profile listings and appends them to the scraper's listings |
| ZillowSearch.ZillowLennarScraper.ScrapeMultipleLocations | zillow_lennar_scraper.py:435-460 | one pause per location; the scraper's listings are replaced by exactly the locations' results in order |
| ZillowSearch.CollectCommunities | zillow_lennar_scraper.py:414-429 | the community loop gives the profile listings |
| ZillowSearch.CollectHomes | zillow_lennar_scraper.py:423-429 | the home loop gives one community's listings |
| Dedup.Deduplicate | lennar_scraper.py:190-196 | the seen-set loop computes the first-seen-wins list |
| Dedup.Unique | lennar_scraper.py:190-196 | first-seen-wins deduplication keeps at most the input's length (its contents are stated by the lemmas below) |
| Dedup.FirstOccurrencesMembers | lennar_scraper.py:190-196 | the elements among the first n whose key no earlier element has: each such element is in it and nothing else is |
| Dedup.UniqueIsFirstOccurrences | lennar_scraper.py:190-196 | an element is kept exactly when no earlier element has its key |
| Dedup.UniqueKeysDistinct | lennar_scraper.py:285-291 | the kept elements have pairwise distinct keys |
| Dedup.UniqueKeySet | lennar_scraper.py:190-196 | every key of the input is kept |
| Dedup.UniqueKeepsLast | lennar_scraper.py:190-196 | the last element's key was already seen exactly when it is not a first occurrence |
| Dedup.UniqueSubset | lennar_scraper.py:190-196 | no longer than the input, and made of its elements |
| Dedup.UniquePrefix | zillow_lennar_scraper.py:193-202 | deduplicating a longer list extends the shorter one's result with elements of the extension |
| Dedup.UniqueAppendSeen | zillow_lennar_scraper.py:193-202 | appending only already-seen keys changes nothing |
| Dedup.UniqueSelfAppend | lennar_scraper.py:190-196 | a list followed by itself deduplicates like the list |
| Dedup.UniqueOfDistinct | lennar_scraper.py:190-196 | a list with distinct keys is kept whole |
| Dedup.UniqueIdempotent | lennar_scraper.py:190-196 | deduplicating twice is deduplicating once |
| Dedup.UniqueSnoc | lennar_scraper.py:193-196 | one more element is kept exactly when its key is new |
| Dedup.UniqueAppendCongruent | scrape.py:108-158 | lists with the same result give the same result after any common continuation |
| Dedup.UniqueRepeatFirst | scrape.py:111-158 | repeating the first part changes nothing |
| Dedup.UniqueRepeatLast | scrape.py:136-158 | repeating the last part changes nothing |
| Combine.ValuesAppend | scrape.py:102 | the values of two tables one after the other are concatenated |
| Combine.Values | scrape.py:100-102 | `sum(all_locations.values(), [])`: a location is in it exactly when it is in some row |
| Combine.AllLocationsCount | scrape.py:70-102 | the table has 19 states and 50 locations |
| Combine.LookupInValues | scrape.py:99 | a state's locations are among all locations; an unknown key gives none |
| Combine.LookupAppend | scrape.py:99 | `dict.get` on two tables one after the other: the key is in either, and the first table wins |
| Combine.LookupAt | scrape.py:99 | the first row with the key gives its locations |
| Combine.Lookup | scrape.py:99 | `dict.get(key, [])`: no row with the key gives []; a non-empty result is the locations of the first row with the key |
| Combine.StateKey | scrape.py:98 | `state.lower().replace(' ', '-')`: same length, each space becomes '-' and every other character is lower-cased; the key has no space |
| Combine.StateKeyWords | scrape.py:98 | a two-word state gets its words' keys joined by '-' |
| Combine.StateKeyOfKey | scrape.py:98 | a key already in lower case and without spaces is its own key |
| Combine.StatesLocationsInTable | scrape.py:96-99 | every location of given states is in the table |
| Combine.StatesLocationsAppend | scrape.py:97-99 | the locations of given states are concatenated in the given order, repeats included |
| Combine.StatesLocationsUnknown | scrape.py:99 | an unknown state adds nothing |
| Combine.StatesLocations | scrape.py:96-99 | a location is collected exactly when it belongs to one of the given states |
| Combine.DefaultLocations | scrape.py:95-102 | never empty, drawn from the table; all 50 in table order when no or empty states are given or when the given states have no locations; otherwise exactly the given states' locations |
| Combine.DefaultLocationsExample | scrape.py:95-100 | ["Idaho"] gives ["Boise, ID"] |
| Combine.GetDefaultLocations | scrape.py:68-102 | the state loop gives the default locations |
| Combine.FromLennar | scrape.py:116-133 | a Lennar record is tagged Lennar.com, takes its address from the location, and copies community, city, state, ZIP, price, numeric price, type, beds, baths, sqft, status, URL and plan name |
| Combine.FromZillow | scrape.py:141-158 | a Zillow record is tagged Zillow, copies community, address, city, state, ZIP, price, numeric price, type, beds, baths, sqft and status, takes its URL from the listing URL and has an empty plan name |
| Combine.LennarKey | scrape.py:113 | (location, price), or (community name, price) when the location is empty |
| Combine.ZillowKey | scrape.py:138 | (address, price) |
| Combine.RecordKey | scrape.py:113-138 | the key of a record: its price, with its address, or its community name for a Lennar record without address |
| Combine.RecordKeys | scrape.py:113-138 | the Lennar key is (location or community name, price) and the Zillow key is (address, price) |
| Combine.CombinedValid | scrape.py:105-160 | at most as many records as listings, pairwise distinct keys, drawn from the candidates, every candidate key kept |
| Combine.Combined | scrape.py:105-160 | at most as many records as listings, with pairwise distinct keys |
| Combine.CombinedFirstOccurrences | scrape.py:111-158 | a record is kept exactly when no earlier record, Lennar first, had its key |
| Combine.CombinedOrder | scrape.py:111-158 | the Lennar survivors come first, in order, and every later record is from Zillow |
| Combine.CombinedOneSide | scrape.py:111-136 | with one side empty, the other side's deduplicated records |
| Combine.CombinedSelfAppend | scrape.py:111-158 | repeating either side's listing list changes nothing |
| Combine.CombineResults | scrape.py:105-160 | a missing scraper contributes nothing; the two loops give the combined records |
| Combine.CombineLennar | scrape.py:107-133 | the Lennar loop gives the deduplicated Lennar records and exactly their keys as seen set |
| Combine.CombineZillow | scrape.py:136-158 | the Zillow loop, continuing the shared seen set, gives the deduplication of all records |
| Text.Strip | zillow_lennar_scraper.py:259-261 | `strip()`: no blank at either end, "" exactly for blank text, and the result is a slice of the text with only blanks before and after it |
| Text.Lower | lennar_scraper.py:497 | `lower()` maps every character |
| Text.Upper | lennar_scraper.py:497 | `upper()` maps every character |
| Text.Title | lennar_scraper.py:216 | `title()`: a letter after a non-letter is upper-cased, after a letter lower-cased |
| Text.Split | zillow_lennar_scraper.py:266 | `split(',')` gives at least one part, none containing the separator |
| Text.JoinSplit | zillow_lennar_scraper.py:266 | joining the parts with the separator gives the text back |
| Text.SplitWithout | zillow_lennar_scraper.py:266-267 | text without the separator is one part |
| Text.Replace | scrape.py:98 | replacing c by a text without c leaves no c; a one-character replacement keeps the length and changes exactly the positions holding c |
| Text.ReplaceAppend | scrape.py:98 | `replace` works piecewise over concatenation |
| Text.ReplaceOne | scrape.py:98 | one character becomes the replacement exactly when it is c, and stays otherwise; with the append lemma this fixes the whole result |
| Text.ReplaceAbsent | scrape.py:98 | text without the pattern is left as it is |
| Text.KeepDigits | lennar_scraper.py:502 | `re.sub(r'[^\d]', '', text)`: only digits, empty exactly when the text has none |
| Text.KeepDigitsAppend | lennar_scraper.py:502 | digit filtering works piecewise over concatenation |
| Text.IntString | zillow_lennar_scraper.py:349-351 | `str()` of an integer: its decimal digits, with '-' for a negative |
| Text.DecimalRoundTrip | lennar_scraper.py:505 | `int(str(n)) == n` |
| Text.Quote | zillow_lennar_scraper.py:161 | `quote()` output holds only kept characters and '%' |
| Text.QuoteEncodes | zillow_lennar_scraper.py:161 | `quote()` output has no space and no comma |
| Text.QuoteKept | zillow_lennar_scraper.py:161 | text of kept characters is not changed by `quote()` |
| Text.QuoteRoundTrip | zillow_lennar_scraper.py:161 | for ASCII text, percent-decoding the quoted text gives it back |

## Left out

- I/O and foreign calls are abstracted. The model has no requests session, BeautifulSoup or soupsieve selectors, Selenium or webdriver_manager.
  - Fetches are oracles: one outcome per attempt, one height per read, or the records a page's selectors return.
  - `urljoin` is the parameter `resolve`.
  - The text a selector finds is given, in two forms: `get_text()` and `get_text(strip=True)`.
- CommunitiesInState: models the state page with the metro selector the code evidently intended, `'a[href*="/new-homes/' + state_slug + '/"]'`. The literal at lennar_scraper.py:266 is a single string, and the selector parser rejects it, so as written every fetched state page raises. That behaviour is `LennarCrawl.CommunitiesInStateAsWritten` (see "## Findings").
- GetCommunitiesInState, StateCommunities, VisitState, CrawlListings, CrawlSleeps and CrawlStates: the corrected crawl, likewise. The crawl as written is `LennarCrawl.CrawlAsWritten` and `LennarCrawl.CrawlStatesAsWritten`.
- LennarCrawl.LennarScraper.ScrapeAllListingsCorrected: the corrected crawl, likewise; `LennarCrawl.LennarScraper.ScrapeAllListings` is the method as written. `scrape.py` logs and re-raises its exception (scrape.py:33-42).
- `_extract_script_data` is left out: its regular expression and its `json.loads`. The decoded result lists are the input. JSON values other than integers and strings are left out, as are non-integer prices formatted with `:,`.
- Randomness and clocks are reduced to events: a User-Agent rotation is an event, a `time.sleep` is a requested whole number of seconds, and `scraped_at` is not modelled.
- The delay of both orchestration loops is a whole number of seconds. Python accepts float delays.
- Latitude and longitude are floats and are left out. So is the `features` list of a Lennar listing, which is never filled.
- Python's `\d`, `\s`, `lower`, `upper` and `title` are Unicode-aware. The model restricts them to ASCII. `re.I` is ASCII case folding of the unit words.
- The broad `except Exception` handlers are modelled only where they shape a result.
  - A community scrape or a location search that raises is `Outcome.Raised` and contributes nothing.
  - A browser page that fails to load gives "" (`LennarFetch.ScrapeWithSelenium`, `ZillowSearch.ScrapeWithSelenium`). Only a failure of the page load itself is modelled; a failure inside the scroll loop is not.
  - Errors raised inside card or script parsing are not modelled, since the modelled code raises none on its inputs.
- `ZillowSearch.ZillowLennarScraper.ScrapeMultipleLocations`: its effect trace holds only the location delays. Each search's retry sleeps are stated by `ZillowSearch.MakeRequest` alone.
- `LennarCrawl.LennarScraper.ScrapeAllListings` and `LennarCrawl.LennarScraper.ScrapeAllListingsCorrected`: likewise, their traces hold only the crawl's delays. The fetch retries inside each page are stated by `LennarFetch.MakeRequest` alone.
- `LennarCards.SearchHomes` and `ZillowSearch.SearchZillowNewConstruction` take the page's cards as input, for both the browser and the request path. The browser path's empty page on failure is simply a page with no cards.
- `LennarCards.CardListing`: its contract states the context fields, the plan name, the price and the comma-free sqft. The other fields are stated by `LennarCards.CardHouseType`, `LennarCards.CountField` and the card's record, field by field, in the body.
- The city pattern of `_parse_location` interpolates the state code without escaping. The model reads it as a literal, which it is for every code the scraper produces (capital letters).
- `LennarFetch.ScrollUntilStable` requires that two consecutive height reads agree somewhere in the given reads. The loop at lennar_scraper.py:576-583 is `while True` with no bound on the rounds, so a page that never stops growing would scroll forever; that run is not modelled.
- CardListings: its own contract gives only the bound. Which cards yield listings, and in which order, is stated by `ZillowSearch.CardListingsValid`, `ZillowSearch.CardListingsAppend` and `ZillowSearch.CardListingsOne`. Those facts are lemmas rather than ensures clauses because, as clauses, they are instantiated with the whole card contract wherever the list appears.
- Tagged: likewise; its members are stated by `ZillowSearch.TaggedMembers`, its order by `ZillowSearch.TaggedAppend` and `ZillowSearch.TaggedOne`.
- HomesListings: likewise; its members are stated by `ZillowSearch.HomesListingsMembers` and `ZillowSearch.HomesListingsValid`, its order by `ZillowSearch.HomesListingsAppend`.
- ProfileListings: its contract states only the case without a page. A fetched profile's listings are stated by `ZillowSearch.ProfileListingsMembers` and `ZillowSearch.CommunitiesHomesAppend`.
- ParsedCards: likewise; its contract gives only the bound. Its members are stated by `LennarCards.ParsedCardsMembers`, its order by `LennarCards.ParsedCardsAppend` and `LennarCards.ParsedCardsOne`.
- Unique: likewise; its contract gives only the bound. What it keeps is stated by `Dedup.UniqueSubset`, `Dedup.UniqueIsFirstOccurrences` and `Dedup.UniqueKeySet`.
- FirstOccurrences: it has no contract of its own; its members are stated by `Dedup.FirstOccurrencesMembers`.
- CommunitiesListings: it has no contract of its own. It is the concatenation of `LennarCrawl.CommunityResult` over the communities, and `LennarCrawl.CommunitiesListingsAppend` states that.
- IntString: does not model the ValueError of Python's `str()` for an integer of more than 4300 digits. The integers it formats come from `json.loads`, which refuses such numbers under the same limit.
- DecimalRoundTrip: holds for every n, while Python's `int(str(n))` holds only within 4300 digits. The limit on the reading side is stated by `LennarNormalize.ParsePrice` and `ZillowParse.FormatPriceRoundTrip`.
- FormatPrice: does not model the ValueError of `f"${n:,}"` beyond 4300 digits, for the reason given under IntString.
- Things the code does not do are not modelled: a cap on backoff, a separate treatment of 4xx and 429 responses, a DC entry in the slug table, or a normalised price in the combine key (the key holds the raw display string).
- The command-line drivers (`main` in all three files), the CSV and JSON exporters, `export_combined`, logging, tqdm and session setup are output plumbing and are not modelled.

## Findings

| source | as written | input that shows it | evidently intended | confidence | as-written member | corrected member |
|---|---|---|---|---|---|---|
| lennar_scraper.py:266, 541 | `soup.select('a[href*="/new-homes/" + state_slug + "/"]')` is one string literal. After the quoted value the selector parser finds `+` where it expects `]`, so the call raises on every state page that was fetched. The call at :541 is outside the `try` at :549-553, so `scrape_all_listings` raises before it assigns `self.listings` | any run in which one selected state page is fetched, even an empty one | the selector `'a[href*="/new-homes/' + state_slug + '/"]'`, whose metro links are filtered by the pattern at :269 | high; not executed | LennarCrawl.CrawlAsWrittenRaises | LennarCrawl.CommunitiesInStateKeepFirst |
