/** The crawl of lennar.com: the state list (`get_states`, with its fallback
    list), the communities of a state (`get_communities_in_state`, including
    the metro-area pages), and the scraper object whose `scrape_all_listings`
    walks states, communities and their listings. Pages are given to the
    model as what their selectors find; a fetch that `_make_request` gave up
    on is None. */
module LennarCrawl {
  import opened Common
  import opened Text
  import opened Dedup
  import opened LennarCards

  const BaseUrl: string := "https://www.lennar.com"

  /** An anchor: its `href` attribute ("" when absent) and its stripped text. */
  datatype Link = Link(href: string, name: string)

  /** A state record of the crawl. */
  datatype StateEntry = StateEntry(slug: string, name: string, url: string)

  predicate IsSlugChar(c: char) { IsLower(c) || c == '-' }

  /** A match of `[a-z-]+`. */
  predicate IsSlug(s: string) {
    |s| >= 1 && forall k :: 0 <= k < |s| ==> IsSlugChar(s[k])
  }

  /** Python's `$`: the end of the text, or just before a final newline. */
  predicate AtEnd(s: string, p: nat) {
    p == |s| || (p + 1 == |s| && s[p] == '\n')
  }

  /** `[a-z-]+/?$` from position p: where the group ends. The group can only
      end where its greedy run ends, since the character there is then a
      slug character, which neither `/` nor `$` accepts. */
  function SlugTailAt(s: string, p: nat): (r: Option<nat>)
    requires p <= |s|
    ensures r.Some? ==> p < r.value <= |s| && IsSlug(s[p..r.value])
    ensures r.Some? ==> AtEnd(s, r.value) || (s[r.value] == '/' && AtEnd(s, r.value + 1))
  {
    var e := RunEnd(s, p, IsSlugChar);
    assert forall k :: 0 <= k < e - p ==> s[p..e][k] == s[p + k];
    if e > p && (AtEnd(s, e) || (e < |s| && s[e] == '/' && AtEnd(s, e + 1))) then Some(e) else None
  }

  /** `/new-homes/([a-z-]+)/?$` matched at position i: the slug group. */
  function StateSlugAt(s: string, i: nat): (r: Option<string>)
    ensures r.Some? ==> OccursAt(s, i, "/new-homes/") && IsSlug(r.value) && OccursAt(s, i + 11, r.value)
  {
    if OccursAt(s, i, "/new-homes/") then
      match SlugTailAt(s, i + 11)
      case Some(e) => Some(s[i + 11..e])
      case None => None
    else None
  }

  /** `re.search(r'/new-homes/([a-z-]+)/?$', href).group(1)`. */
  function StateSlug(href: string): (r: Option<string>)
    ensures r.None? <==> forall i :: 0 <= i <= |href| ==> StateSlugAt(href, i).None?
    ensures r.Some? ==> IsSlug(r.value) && Contains(href, "/new-homes/")
    ensures r.Some? ==>
      exists i :: 0 <= i <= |href| && StateSlugAt(href, i) == r
        && forall j :: 0 <= j < i ==> StateSlugAt(href, j).None?
  {
    var at := i => StateSlugAt(href, i);
    assert forall i :: at(i) == StateSlugAt(href, i);
    match Leftmost(0, |href|, at)
    case None => None
    case Some((i, slug)) => Some(slug)
  }

  /** The URL of a state page is recognised as a state link with its own
      slug: the base URL holds no `/new-homes/`, and the slug runs to the end. */
  lemma StateUrlSlug(slug: string)
    requires IsSlug(slug)
    ensures StateSlug(BaseUrl + "/new-homes/" + slug) == Some(slug)
  {
    BaseUrlHasNoMark(slug);
    StateUrlMark(slug);
  }

  lemma BaseUrlHasNoMark(slug: string)
    ensures forall i :: 0 <= i < |BaseUrl| ==> StateSlugAt(BaseUrl + "/new-homes/" + slug, i).None?
  {
    var s := BaseUrl + "/new-homes/" + slug;
    forall i | 0 <= i < |BaseUrl| ensures StateSlugAt(s, i).None? {
      MarkSlashes(s, i);
    }
  }

  lemma MarkSlashes(s: string, i: nat)
    ensures OccursAt(s, i, "/new-homes/") ==> s[i] == '/' && s[i + 10] == '/'
  {
    if OccursAt(s, i, "/new-homes/") {
      assert s[i..i + 11][0] == s[i] && s[i..i + 11][10] == s[i + 10];
    }
  }

  lemma StateUrlMark(slug: string)
    requires IsSlug(slug)
    ensures StateSlugAt(BaseUrl + "/new-homes/" + slug, |BaseUrl|) == Some(slug)
  {
    var s := BaseUrl + "/new-homes/" + slug;
    assert s[22..33] == "/new-homes/";
    assert s[33..] == slug;
    RunToEnd(s, 33);
    assert SlugTailAt(s, 22 + 11) == Some(|s|);
    assert s[22 + 11..|s|] == slug;
  }

  lemma {:induction false} RunToEnd(s: string, p: nat)
    requires p <= |s| && forall k :: p <= k < |s| ==> IsSlugChar(s[k])
    decreases |s| - p
    ensures RunEnd(s, p, IsSlugChar) == |s|
  {
    if p < |s| {
      RunToEnd(s, p + 1);
    }
  }

  /** The slugs `get_states` leaves out. */
  predicate IsExcludedSlug(slug: string) {
    slug == "find-a-home" || slug == "search"
  }

  /** One link of the states page: a state when its href has a slug, the
      link has text, and the slug is not a search page. */
  function StateOfLink(link: Link, resolve: string -> string): (r: Option<StateEntry>)
    ensures r.Some? <==>
      StateSlug(link.href).Some? && link.name != "" && !IsExcludedSlug(StateSlug(link.href).value)
    ensures r.Some? ==>
      r.value.slug == StateSlug(link.href).value && r.value.name == link.name
      && r.value.url == resolve(link.href)
  {
    match StateSlug(link.href)
    case Some(slug) =>
      if link.name != "" && !IsExcludedSlug(slug) then Some(StateEntry(slug, link.name, resolve(link.href))) else None
    case None => None
  }

  /** The states of the page's links, in page order. (The source first
      selects the links `a[href*="/new-homes/"]`; every link with a slug
      passes that filter, see `GetStates`.) */
  function StateCandidates(links: seq<Link>, resolve: string -> string): (r: seq<StateEntry>)
    ensures |r| <= |links|
    ensures forall st :: st in r ==> IsSlug(st.slug) && !IsExcludedSlug(st.slug) && st.name != ""
    ensures forall st :: st in r ==> exists link :: link in links && StateOfLink(link, resolve) == Some(st)
    ensures forall link :: link in links && StateOfLink(link, resolve).Some? ==> StateOfLink(link, resolve).value in r
  {
    if links == [] then []
    else
      var init := links[..|links| - 1];
      var link := links[|links| - 1];
      assert forall x :: x in init ==> x in links;
      assert forall x :: x in links ==> x in init || x == link;
      var st := StateOfLink(link, resolve);
      StateCandidates(init, resolve) + (if st.Some? then [st.value] else [])
  }

  lemma {:induction false} StateCandidatesAppend(a: seq<Link>, b: seq<Link>, resolve: string -> string)
    ensures StateCandidates(a + b, resolve) == StateCandidates(a, resolve) + StateCandidates(b, resolve)
  {
    if b == [] {
      assert a + b == a;
    } else {
      var b' := b[..|b| - 1];
      assert (a + b)[..|a + b| - 1] == a + b';
      assert (a + b)[|a + b| - 1] == b[|b| - 1];
      StateCandidatesAppend(a, b', resolve);
    }
  }

  /** One link gives its state or nothing; with `StateCandidatesAppend` this
      fixes the candidates of any run of links, in link order. */
  lemma StateCandidatesOne(link: Link, resolve: string -> string)
    ensures StateCandidates([link], resolve) == (match StateOfLink(link, resolve) case Some(st) => [st] case None => [])
  {
    assert [link][..0] == [];
  }

  const FallbackSlugs: seq<string> := [
    "arizona", "california", "colorado", "florida", "georgia",
    "idaho", "indiana", "maryland", "minnesota", "nevada",
    "new-jersey", "north-carolina", "oregon", "south-carolina",
    "tennessee", "texas", "utah", "virginia", "washington"]

  /** The state page URL of a slug. */
  function StateUrl(slug: string): string
  {
    BaseUrl + "/new-homes/" + slug
  }

  /** `_get_fallback_states`: the known states, each named by its slug with
      hyphens turned into spaces and title-cased. */
  function FallbackStates(): (r: seq<StateEntry>)
    ensures |r| == |FallbackSlugs| == 19
    ensures forall k :: 0 <= k < |r| ==>
      r[k].slug == FallbackSlugs[k] && r[k].url == StateUrl(r[k].slug)
      && r[k].name == Title(Replace(r[k].slug, '-', " "))
  {
    seq(|FallbackSlugs|, k requires 0 <= k < |FallbackSlugs| =>
      var slug := FallbackSlugs[k];
      StateEntry(slug, Title(Replace(slug, '-', " ")), StateUrl(slug)))
  }

  /** Every fallback URL is a state link of its own slug. */
  lemma FallbackUrlsRoundTrip()
    ensures forall st :: st in FallbackStates() ==> StateSlug(st.url) == Some(st.slug)
  {
    forall st | st in FallbackStates() ensures StateSlug(st.url) == Some(st.slug) {
      var k :| 0 <= k < |FallbackStates()| && FallbackStates()[k] == st;
      FallbackSlugShape(k);
      StateUrlSlug(st.slug);
    }
  }

  lemma FallbackSlugShape(k: nat)
    requires k < |FallbackSlugs|
    ensures IsSlug(FallbackSlugs[k]) && !IsExcludedSlug(FallbackSlugs[k])
  {
  }

  /** The deduplication key of `get_states`. */
  function SlugOf(st: StateEntry): string { st.slug }

  /** `get_states`: the fallback list when the states page could not be
      fetched; otherwise the states of its links, first per slug. */
  function States(page: Option<seq<Link>>, resolve: string -> string): (r: seq<StateEntry>)
    ensures page.None? ==> r == FallbackStates()
    ensures page.Some? ==> forall st :: st in r ==> IsSlug(st.slug) && !IsExcludedSlug(st.slug) && st.name != ""
    ensures page.Some? ==> forall i, j :: 0 <= i < j < |r| ==> r[i].slug != r[j].slug
  {
    if page.None? then FallbackStates()
    else
      var cs := StateCandidates(page.value, resolve);
      UniqueSubset(cs, SlugOf);
      UniqueKeysDistinct(cs, SlugOf);
      Unique(cs, SlugOf)
  }

  /** Every slug a link of the page gives is listed, and the entry kept for a
      slug is the one of the first link that gives it. */
  lemma StatesKeepFirst(links: seq<Link>, resolve: string -> string)
    ensures var cs := StateCandidates(links, resolve);
      KeySet(States(Some(links), resolve), SlugOf) == KeySet(cs, SlugOf)
      && States(Some(links), resolve) == FirstOccurrences(cs, SlugOf, |cs|)
  {
    var cs := StateCandidates(links, resolve);
    UniqueKeySet(cs, SlugOf);
    UniqueIsFirstOccurrences(cs, SlugOf);
  }

  /** The link loop of `get_states`. */
  method CollectStates(links: seq<Link>, resolve: string -> string) returns (candidates: seq<StateEntry>)
    ensures candidates == StateCandidates(links, resolve)
  {
    candidates := [];
    for i := 0 to |links|
      invariant candidates == StateCandidates(links[..i], resolve)
    {
      assert links[..i + 1][..i] == links[..i];
      var link := links[i];
      if Contains(link.href, "/new-homes/") {
        var slug := StateSlug(link.href);
        if slug.Some? && link.name != "" && !IsExcludedSlug(slug.value) {
          candidates := candidates + [StateEntry(slug.value, link.name, resolve(link.href))];
        }
      }
    }
    assert links[..|links|] == links;
  }

  /** The loop of `get_states` followed by its deduplication loop. */
  method GetStates(page: Option<seq<Link>>, resolve: string -> string) returns (states: seq<StateEntry>)
    ensures states == States(page, resolve)
  {
    if page.None? {
      return FallbackStates();
    }
    var candidates := CollectStates(page.value, resolve);
    states := Deduplicate(candidates, SlugOf);
  }

  /** An element `get_communities_in_state` selects as a community: its own
      `href` ("" when absent), the href of the first inner community link, its
      stripped text, and the stripped text of its first name element. */
  datatype CommunityElement = CommunityElement(
    href: string, innerHref: Option<string>, text: string, nameElem: Option<string>)

  /** A metro-area link of a state page: its href and, when its page was
      fetched, the page's anchors. */
  datatype MetroLink = MetroLink(href: string, page: Option<seq<Link>>)

  /** What `get_communities_in_state` reads from a fetched state page. */
  datatype StatePage = StatePage(elements: seq<CommunityElement>, metroLinks: seq<MetroLink>)

  /** The href of a community element: its own, else its inner link's. */
  function ElementHref(e: CommunityElement): (href: string)
    ensures e.href != "" ==> href == e.href
    ensures e.href == "" ==> href == (if e.innerHref.Some? then e.innerHref.value else "")
  {
    if e.href != "" then e.href else if e.innerHref.Some? then e.innerHref.value else ""
  }

  /** The name of a community element: its text, unless that is empty or
      longer than 200 characters and a name element exists. */
  function ElementName(e: CommunityElement): (name: string)
    ensures e.text != "" && |e.text| <= 200 ==> name == e.text
    ensures e.nameElem.None? ==> name == e.text
    ensures (e.text == "" || |e.text| > 200) && e.nameElem.Some? ==> name == e.nameElem.value
  {
    if (e.text == "" || |e.text| > 200) && e.nameElem.Some? then e.nameElem.value else e.text
  }

  /** An element yields a community when its href contains `/community/`:
      its name, its resolved href and the state. */
  function ElementCommunity(e: CommunityElement, slug: string, resolve: string -> string): (r: Option<Community>)
    ensures r.Some? <==> Contains(ElementHref(e), "/community/")
    ensures r.Some? ==> r.value == Community(ElementName(e), resolve(ElementHref(e)), slug)
  {
    var href := ElementHref(e);
    if Contains(href, "/community/") then Some(Community(ElementName(e), resolve(href), slug)) else None
  }

  /** `ElementCommunity` for the elements of one state page. */
  function ElementStep(slug: string, resolve: string -> string): CommunityElement -> Option<Community> {
    e => ElementCommunity(e, slug, resolve)
  }

  /** The communities of a run of elements, in element order. */
  function ElementCommunities(es: seq<CommunityElement>, slug: string, resolve: string -> string): (r: seq<Community>)
    ensures |r| <= |es|
    ensures forall c :: c in r ==>
      c.state == slug && exists e :: e in es && Contains(ElementHref(e), "/community/") && c.url == resolve(ElementHref(e))
    ensures forall e :: e in es && Contains(ElementHref(e), "/community/") ==>
      Community(ElementName(e), resolve(ElementHref(e)), slug) in r
  {
    var f := ElementStep(slug, resolve);
    FilterMapMembers(es, f);
    assert forall e :: f(e) == ElementCommunity(e, slug, resolve);
    FilterMap(es, f)
  }

  lemma ElementCommunitiesAppend(a: seq<CommunityElement>, b: seq<CommunityElement>, slug: string,
                                 resolve: string -> string)
    ensures ElementCommunities(a + b, slug, resolve) == ElementCommunities(a, slug, resolve) + ElementCommunities(b, slug, resolve)
  {
    FilterMapAppend(a, b, ElementStep(slug, resolve));
  }

  /** One element gives its community or nothing; with
      `ElementCommunitiesAppend` this fixes the result and its order. */
  lemma ElementCommunitiesOne(e: CommunityElement, slug: string, resolve: string -> string)
    ensures ElementCommunities([e], slug, resolve)
      == (match ElementCommunity(e, slug, resolve) case Some(c) => [c] case None => [])
  {
    assert [e][..0] == [];
  }

  /** `rf'/new-homes/{state_slug}/[a-z-]+/?$'` matched at position i (the slug
      is taken literally). */
  predicate MetroAt(s: string, i: nat, slug: string) {
    var prefix := "/new-homes/" + slug + "/";
    OccursAt(s, i, prefix) && SlugTailAt(s, i + |prefix|).Some?
  }

  predicate IsMetroHref(href: string, slug: string) {
    exists i :: 0 <= i <= |href| && MetroAt(href, i, slug)
  }

  /** For an href whose last segment (after the '/' at q) is a non-empty run
      of `[a-z-]`, the metro pattern matches exactly when
      `/new-homes/<slug>/` ends at that '/'. So "/new-homes/texas/dallas" is
      the metro page "dallas" of Texas, and a community path such as
      "/new-homes/texas/dallas/community/oak-park" is not a metro page
      (its last segment follows "community/"). */
  lemma MetroHrefLastSegment(href: string, slug: string, q: nat)
    requires q + 1 < |href| && href[q] == '/'
    requires forall k :: q < k < |href| ==> IsSlugChar(href[k])
    ensures var prefix := "/new-homes/" + slug + "/";
      IsMetroHref(href, slug) <==> |prefix| <= q + 1 && href[q + 1 - |prefix|..q + 1] == prefix
  {
    var prefix := "/new-homes/" + slug + "/";
    if |prefix| <= q + 1 && href[q + 1 - |prefix|..q + 1] == prefix {
      var i := q + 1 - |prefix|;
      RunToEnd(href, q + 1);
      assert SlugTailAt(href, q + 1) == Some(|href|);
      assert MetroAt(href, i, slug);
    }
    if IsMetroHref(href, slug) {
      var i :| 0 <= i <= |href| && MetroAt(href, i, slug);
      MetroAtLastSlash(href, slug, q, i);
    }
  }

  /** A metro match in such an href has its prefix end at the last '/'. */
  lemma MetroAtLastSlash(href: string, slug: string, q: nat, i: nat)
    requires q + 1 < |href| && href[q] == '/'
    requires forall k :: q < k < |href| ==> IsSlugChar(href[k])
    requires i <= |href| && MetroAt(href, i, slug)
    ensures var prefix := "/new-homes/" + slug + "/";
      i + |prefix| == q + 1 && href[q + 1 - |prefix|..q + 1] == prefix
  {
    var prefix := "/new-homes/" + slug + "/";
    var p := i + |prefix|;
    var e := SlugTailAt(href, p).value;
    assert href[p - 1] == prefix[|prefix| - 1] == '/';
    assert forall k :: p <= k < e ==> IsSlugChar(href[k]) by {
      forall k | p <= k < e ensures IsSlugChar(href[k]) {
        assert href[p..e][k - p] == href[k];
      }
    }
    assert !IsSlugChar('/') && !IsSlugChar('\n');
    assert href[i..i + |prefix|] == prefix;
  }

  /** A metro path with a trailing '/' is a metro page too. */
  lemma MetroHrefTrailingSlash(slug: string, metro: string)
    requires IsSlug(metro)
    ensures IsMetroHref("/new-homes/" + slug + "/" + metro + "/", slug)
  {
    var prefix := "/new-homes/" + slug + "/";
    var href := prefix + metro + "/";
    var p := |prefix|;
    assert href[..p] == prefix;
    RunEndAt(href, p, p + |metro|, IsSlugChar);
    assert SlugTailAt(href, p) == Some(p + |metro|);
    assert MetroAt(href, 0, slug);
  }

  /** A community link of a metro page (`a[href*="/community/"]`) yields a
      community when it has an href and a name. */
  predicate IsCommunityAnchor(link: Link) {
    Contains(link.href, "/community/") && link.href != "" && link.name != ""
  }

  /** The community links of a metro page, in page order. */
  function AnchorCommunities(links: seq<Link>, slug: string, resolve: string -> string): (r: seq<Community>)
    ensures |r| <= |links|
    ensures forall c :: c in r ==>
      c.state == slug && c.name != "" && exists h :: Contains(h, "/community/") && c.url == resolve(h)
    ensures forall link :: link in links && IsCommunityAnchor(link) ==> Community(link.name, resolve(link.href), slug) in r
  {
    if links == [] then []
    else
      var init := links[..|links| - 1];
      var link := links[|links| - 1];
      assert forall x :: x in links ==> x in init || x == link;
      AnchorCommunities(init, slug, resolve)
      + (if IsCommunityAnchor(link) then [Community(link.name, resolve(link.href), slug)] else [])
  }

  lemma {:induction false} AnchorCommunitiesAppend(a: seq<Link>, b: seq<Link>, slug: string, resolve: string -> string)
    ensures AnchorCommunities(a + b, slug, resolve) == AnchorCommunities(a, slug, resolve) + AnchorCommunities(b, slug, resolve)
  {
    if b == [] {
      assert a + b == a;
    } else {
      var b' := b[..|b| - 1];
      assert (a + b)[..|a + b| - 1] == a + b';
      assert (a + b)[|a + b| - 1] == b[|b| - 1];
      AnchorCommunitiesAppend(a, b', slug, resolve);
    }
  }

  /** One link gives its community or nothing; with `AnchorCommunitiesAppend`
      this fixes the result and its order. */
  lemma AnchorCommunitiesOne(link: Link, slug: string, resolve: string -> string)
    ensures AnchorCommunities([link], slug, resolve)
      == (if IsCommunityAnchor(link) then [Community(link.name, resolve(link.href), slug)] else [])
  {
    assert [link][..0] == [];
  }

  /** The communities of one metro link: its page's community links when the
      href is a metro path of the state and the page was fetched. */
  function MetroPageCommunities(m: MetroLink, slug: string, resolve: string -> string): seq<Community>
  {
    if IsMetroHref(m.href, slug) && m.page.Some? then AnchorCommunities(m.page.value, slug, resolve) else []
  }

  /** `MetroPageCommunities` for the metro links of one state page. */
  function MetroStep(slug: string, resolve: string -> string): MetroLink -> seq<Community> {
    m => MetroPageCommunities(m, slug, resolve)
  }

  /** The communities found through the metro links, in link order. */
  function MetroCommunities(ms: seq<MetroLink>, slug: string, resolve: string -> string): (r: seq<Community>)
    ensures forall c :: c in r ==>
      c.state == slug && c.name != "" && exists h :: Contains(h, "/community/") && c.url == resolve(h)
    ensures forall m, c :: m in ms && c in MetroPageCommunities(m, slug, resolve) ==> c in r
  {
    var f := MetroStep(slug, resolve);
    assert forall m :: f(m) == MetroPageCommunities(m, slug, resolve);
    ConcatMap(ms, f)
  }

  lemma MetroCommunitiesAppend(a: seq<MetroLink>, b: seq<MetroLink>, slug: string, resolve: string -> string)
    ensures MetroCommunities(a + b, slug, resolve) == MetroCommunities(a, slug, resolve) + MetroCommunities(b, slug, resolve)
  {
    ConcatMapAppend(a, b, MetroStep(slug, resolve));
  }

  /** One metro link gives its page's communities, or nothing when its href is
      not a metro path of the state or its page was not fetched. */
  lemma MetroCommunitiesOne(m: MetroLink, slug: string, resolve: string -> string)
    ensures MetroCommunities([m], slug, resolve)
      == (if IsMetroHref(m.href, slug) && m.page.Some? then AnchorCommunities(m.page.value, slug, resolve) else [])
  {
    assert [m][..0] == [];
  }

  /** The deduplication key of `get_communities_in_state`. */
  function UrlOf(c: Community): string { c.url }

  /** `get_communities_in_state`: nothing when the state page could not be
      fetched; otherwise the element communities, then the metro
      communities, first per URL. */
  function CommunitiesInState(page: Option<StatePage>, slug: string, resolve: string -> string): (r: seq<Community>)
    ensures page.None? ==> r == []
    ensures forall i, j :: 0 <= i < j < |r| ==> r[i].url != r[j].url
    ensures forall c :: c in r ==>
      c.state == slug && exists h :: Contains(h, "/community/") && c.url == resolve(h)
  {
    var all := if page.None? then []
      else ElementCommunities(page.value.elements, slug, resolve) + MetroCommunities(page.value.metroLinks, slug, resolve);
    UniqueSubset(all, UrlOf);
    UniqueKeysDistinct(all, UrlOf);
    Unique(all, UrlOf)
  }

  /** For a fetched page: every community URL found through an element or a
      metro page is listed, the community kept for a URL is the first one
      found with it, and the element communities come before the metro
      ones. */
  lemma CommunitiesInStateKeepFirst(page: StatePage, slug: string, resolve: string -> string)
    ensures var all := ElementCommunities(page.elements, slug, resolve) + MetroCommunities(page.metroLinks, slug, resolve);
      KeySet(CommunitiesInState(Some(page), slug, resolve), UrlOf) == KeySet(all, UrlOf)
      && CommunitiesInState(Some(page), slug, resolve) == FirstOccurrences(all, UrlOf, |all|)
    ensures var es := Unique(ElementCommunities(page.elements, slug, resolve), UrlOf);
      |es| <= |CommunitiesInState(Some(page), slug, resolve)|
    ensures var es := Unique(ElementCommunities(page.elements, slug, resolve), UrlOf);
      var r := CommunitiesInState(Some(page), slug, resolve);
      r[..|es|] == es && forall c :: c in r[|es|..] ==> c in MetroCommunities(page.metroLinks, slug, resolve)
  {
    var es := ElementCommunities(page.elements, slug, resolve);
    var ms := MetroCommunities(page.metroLinks, slug, resolve);
    UniqueKeySet(es + ms, UrlOf);
    UniqueIsFirstOccurrences(es + ms, UrlOf);
    UniquePrefix(es, ms, UrlOf);
  }

  /** The loop over the community elements of a state page. */
  method CollectElements(es: seq<CommunityElement>, slug: string, resolve: string -> string)
    returns (found: seq<Community>)
    ensures found == ElementCommunities(es, slug, resolve)
  {
    found := [];
    for i := 0 to |es|
      invariant found == ElementCommunities(es[..i], slug, resolve)
    {
      FilterMapSnoc(es, i, ElementStep(slug, resolve));
      var href := es[i].href;
      if href == "" && es[i].innerHref.Some? {
        href := es[i].innerHref.value;
      }
      if Contains(href, "/community/") {
        var name := es[i].text;
        if (name == "" || |name| > 200) && es[i].nameElem.Some? {
          name := es[i].nameElem.value;
        }
        found := found + [Community(name, resolve(href), slug)];
      }
    }
    assert es[..|es|] == es;
  }

  /** The loop over the community links of one metro page. */
  method CollectAnchors(anchors: seq<Link>, slug: string, resolve: string -> string)
    returns (found: seq<Community>)
    ensures found == AnchorCommunities(anchors, slug, resolve)
  {
    found := [];
    for j := 0 to |anchors|
      invariant found == AnchorCommunities(anchors[..j], slug, resolve)
    {
      assert anchors[..j + 1][..j] == anchors[..j];
      var mc := anchors[j];
      if Contains(mc.href, "/community/") && mc.href != "" && mc.name != "" {
        found := found + [Community(mc.name, resolve(mc.href), slug)];
      }
    }
    assert anchors[..|anchors|] == anchors;
  }

  /** The loop over the metro links of a state page. */
  method CollectMetros(ms: seq<MetroLink>, slug: string, resolve: string -> string)
    returns (found: seq<Community>)
    ensures found == MetroCommunities(ms, slug, resolve)
  {
    found := [];
    for i := 0 to |ms|
      invariant found == MetroCommunities(ms[..i], slug, resolve)
    {
      ConcatMapSnoc(ms, i, MetroStep(slug, resolve));
      if IsMetroHref(ms[i].href, slug) && ms[i].page.Some? {
        var more := CollectAnchors(ms[i].page.value, slug, resolve);
        found := found + more;
      }
    }
    assert ms[..|ms|] == ms;
  }

  /** `get_communities_in_state`: its collecting loops, then its
      deduplication loop. */
  method GetCommunitiesInState(page: Option<StatePage>, slug: string, resolve: string -> string)
    returns (communities: seq<Community>)
    ensures communities == CommunitiesInState(page, slug, resolve)
  {
    var found: seq<Community> := [];
    if page.Some? {
      var fromElements := CollectElements(page.value.elements, slug, resolve);
      var fromMetros := CollectMetros(page.value.metroLinks, slug, resolve);
      found := fromElements + fromMetros;
    }
    communities := Deduplicate(found, UrlOf);
  }

  /** The states `scrape_all_listings` walks: those whose slug is in the
      filter, when a non-empty filter is given. */
  function SelectStates(states: seq<StateEntry>, filter: Option<seq<string>>): (r: seq<StateEntry>)
    ensures |r| <= |states|
    ensures filter.Some? && filter.value != [] ==> forall st :: st in r ==> st.slug in filter.value && st in states
    ensures filter.None? || filter.value == [] ==> r == states
    ensures forall st :: st in states && (filter.None? || filter.value == [] || st.slug in filter.value) ==> st in r
  {
    if filter.None? || filter.value == [] || states == [] then states
    else
      var init := SelectStates(states[..|states| - 1], filter);
      var st := states[|states| - 1];
      assert forall x :: x in states ==> x in states[..|states| - 1] || x == st;
      init + (if st.slug in filter.value then [st] else [])
  }

  lemma {:induction false} SelectStatesAppend(a: seq<StateEntry>, b: seq<StateEntry>, filter: Option<seq<string>>)
    ensures SelectStates(a + b, filter) == SelectStates(a, filter) + SelectStates(b, filter)
  {
    if filter.None? || filter.value == [] || b == [] {
      assert a + b == (if b == [] then a else a + b);
    } else {
      var b', st := b[..|b| - 1], b[|b| - 1];
      var tail := if st.slug in filter.value then [st] else [];
      calc {
        SelectStates(a + b, filter);
        { assert (a + b)[..|a + b| - 1] == a + b'; assert (a + b)[|a + b| - 1] == st; }
        SelectStates(a + b', filter) + tail;
        { SelectStatesAppend(a, b', filter); }
        SelectStates(a, filter) + SelectStates(b', filter) + tail;
        SelectStates(a, filter) + SelectStates(b, filter);
      }
    }
  }

  /** One state is kept exactly when the filter is empty or holds its slug;
      with `SelectStatesAppend` this fixes the selection and keeps the order
      of `get_states`. */
  lemma SelectStatesOne(st: StateEntry, filter: Option<seq<string>>)
    ensures SelectStates([st], filter)
      == (if filter.None? || filter.value == [] || st.slug in filter.value then [st] else [])
  {
    assert [st][..0] == [];
  }

  /** `communities[:max_communities]` when the cap is truthy. */
  function Capped(communities: seq<Community>, maxCommunities: Option<int>): (r: seq<Community>)
    ensures |r| <= |communities|
    ensures maxCommunities.Some? && maxCommunities.value > 0 ==>
      |r| == (if maxCommunities.value <= |communities| then maxCommunities.value else |communities|)
      && r == communities[..|r|]
    ensures maxCommunities.Some? && maxCommunities.value < 0 ==>
      |r| == (if |communities| + maxCommunities.value >= 0 then |communities| + maxCommunities.value else 0)
      && r == communities[..|r|]
    ensures maxCommunities.None? || maxCommunities.value == 0 ==> r == communities
  {
    if maxCommunities.Some? && maxCommunities.value != 0 then SliceTo(communities, maxCommunities.value) else communities
  }

  /** The listings one community contributes: none when the call raised. */
  function CommunityResult(c: Community, listingPage: Community -> Outcome<Option<CommunityPage>>, resolve: string -> string)
    : (ls: seq<LennarListing>)
    ensures listingPage(c).Raised? ==> ls == []
    ensures listingPage(c) == Returned(None) ==> ls == []
    ensures listingPage(c).Returned? ==> ls == CommunityListings(c, listingPage(c).value, resolve)
  {
    match listingPage(c)
    case Raised => []
    case Returned(p) => CommunityListings(c, p, resolve)
  }

  /** The listings of a run of communities, in order. */
  function CommunitiesListings(cs: seq<Community>, listingPage: Community -> Outcome<Option<CommunityPage>>,
                               resolve: string -> string): (ls: seq<LennarListing>)
  {
    ConcatMap(cs, c => CommunityResult(c, listingPage, resolve))
  }

  /** The listings of two runs of communities, one after the other: a
      community that raised or had no page adds nothing and the others keep
      their order. */
  lemma {:induction false} CommunitiesListingsAppend(a: seq<Community>, b: seq<Community>,
                                                    listingPage: Community -> Outcome<Option<CommunityPage>>,
                                                    resolve: string -> string)
    ensures CommunitiesListings(a + b, listingPage, resolve)
      == CommunitiesListings(a, listingPage, resolve) + CommunitiesListings(b, listingPage, resolve)
  {
    ConcatMapAppend(a, b, c => CommunityResult(c, listingPage, resolve));
  }

  function StateCommunities(st: StateEntry, statePage: string -> Option<StatePage>, maxCommunities: Option<int>,
                            resolve: string -> string): (r: seq<Community>)
    ensures forall c :: c in r ==> c.state == st.slug
    ensures r == Capped(CommunitiesInState(statePage(st.slug), st.slug, resolve), maxCommunities)
    ensures forall i, j :: 0 <= i < j < |r| ==> r[i].url != r[j].url
  {
    var cs := CommunitiesInState(statePage(st.slug), st.slug, resolve);
    var r := Capped(cs, maxCommunities);
    assert r == cs[..|r|];
    assert forall i :: 0 <= i < |r| ==> r[i] == cs[i];
    assert forall c :: c in r ==> c in cs;
    r
  }

  /** Every community the crawl visits, state by state. */
  function VisitedCommunities(states: seq<StateEntry>, statePage: string -> Option<StatePage>,
                              maxCommunities: Option<int>, resolve: string -> string): seq<Community>
  {
    ConcatMap(states, st => StateCommunities(st, statePage, maxCommunities, resolve))
  }

  lemma VisitedCommunitiesSnoc(states: seq<StateEntry>, statePage: string -> Option<StatePage>,
                               maxCommunities: Option<int>, resolve: string -> string)
    requires states != []
    ensures VisitedCommunities(states, statePage, maxCommunities, resolve)
      == VisitedCommunities(states[..|states| - 1], statePage, maxCommunities, resolve)
         + StateCommunities(states[|states| - 1], statePage, maxCommunities, resolve)
  {
  }

  /** The listings of `scrape_all_listings` over a run of states: the
      listings of every visited community, in visiting order. */
  function CrawlListings(states: seq<StateEntry>, statePage: string -> Option<StatePage>, maxCommunities: Option<int>,
                         listingPage: Community -> Outcome<Option<CommunityPage>>, resolve: string -> string)
    : (ls: seq<LennarListing>)
    ensures ls == CommunitiesListings(VisitedCommunities(states, statePage, maxCommunities, resolve), listingPage, resolve)
  {
    if states == [] then []
    else
      var init := states[..|states| - 1];
      var cs := StateCommunities(states[|states| - 1], statePage, maxCommunities, resolve);
      VisitedCommunitiesSnoc(states, statePage, maxCommunities, resolve);
      CommunitiesListingsAppend(VisitedCommunities(init, statePage, maxCommunities, resolve), cs, listingPage, resolve);
      CrawlListings(init, statePage, maxCommunities, listingPage, resolve) + CommunitiesListings(cs, listingPage, resolve)
  }

  /** The number of sleeps of `scrape_all_listings` over a run of states: one
      per state, one per community visited. */
  function CrawlSleeps(states: seq<StateEntry>, statePage: string -> Option<StatePage>, maxCommunities: Option<int>,
                       resolve: string -> string): (n: nat)
    ensures n == |states| + |VisitedCommunities(states, statePage, maxCommunities, resolve)|
  {
    if states == [] then 0
    else
      VisitedCommunitiesSnoc(states, statePage, maxCommunities, resolve);
      CrawlSleeps(states[..|states| - 1], statePage, maxCommunities, resolve)
      + 1 + |StateCommunities(states[|states| - 1], statePage, maxCommunities, resolve)|
  }

  /** When no community page yields listings, the crawl yields none. */
  lemma {:induction false} CommunitiesListingsEmpty(cs: seq<Community>, listingPage: Community -> Outcome<Option<CommunityPage>>,
                                                   resolve: string -> string)
    requires forall c :: c in cs ==> CommunityResult(c, listingPage, resolve) == []
    ensures CommunitiesListings(cs, listingPage, resolve) == []
  {
    if cs != [] {
      assert cs[|cs| - 1] in cs;
      assert forall c :: c in cs[..|cs| - 1] ==> c in cs;
      CommunitiesListingsEmpty(cs[..|cs| - 1], listingPage, resolve);
    }
  }

  lemma {:induction false} CrawlListingsNoPages(states: seq<StateEntry>, statePage: string -> Option<StatePage>,
                                               maxCommunities: Option<int>,
                                               listingPage: Community -> Outcome<Option<CommunityPage>>,
                                               resolve: string -> string)
    requires forall c :: listingPage(c).Raised? || listingPage(c).value.None?
    ensures CrawlListings(states, statePage, maxCommunities, listingPage, resolve) == []
  {
    if states != [] {
      CrawlListingsNoPages(states[..|states| - 1], statePage, maxCommunities, listingPage, resolve);
      var cs := StateCommunities(states[|states| - 1], statePage, maxCommunities, resolve);
      CommunitiesListingsEmpty(cs, listingPage, resolve);
    }
  }

  /** With no state page fetched, no community is visited and the crawl
      sleeps once per state. */
  lemma {:induction false} CrawlSleepsNoStatePages(states: seq<StateEntry>, statePage: string -> Option<StatePage>,
                                                  maxCommunities: Option<int>, resolve: string -> string)
    requires forall slug :: statePage(slug).None?
    ensures CrawlSleeps(states, statePage, maxCommunities, resolve) == |states|
  {
    if states != [] {
      CrawlSleepsNoStatePages(states[..|states| - 1], statePage, maxCommunities, resolve);
    }
  }

  // ---------------------------------------------------------------------------
  // The crawl as the source has it

  /** `get_communities_in_state` as written. The metro selector at
      lennar_scraper.py:266 is the one string literal
      `'a[href*="/new-homes/" + state_slug + "/"]'`: the `+ state_slug +`
      sits inside the quotes, so it is not a valid attribute selector and
      `soup.select` raises on every state page that was fetched. Only a
      state page that could not be fetched gets through, with no community;
      then the result is the one `CommunitiesInState` gives. */
  function CommunitiesInStateAsWritten(page: Option<StatePage>, slug: string, resolve: string -> string)
    : (r: Outcome<seq<Community>>)
    ensures r.Raised? <==> page.Some?
    ensures r.Returned? ==> r.value == CommunitiesInState(page, slug, resolve) && r.value == []
  {
    if page.Some? then Raised else Returned([])
  }

  /** What a run of `scrape_all_listings` ends with: its listings, or the
      exception that escaped it, and the number of pauses it took. */
  datatype CrawlRun = CrawlRun(outcome: Outcome<seq<LennarListing>>, sleeps: nat)

  /** A run that first found `ls` with `n` pauses and then went on as `rest`. */
  function Then(ls: seq<LennarListing>, n: nat, rest: CrawlRun): (r: CrawlRun)
    ensures r.sleeps == n + rest.sleeps
    ensures r.outcome.Raised? <==> rest.outcome.Raised?
    ensures rest.outcome.Returned? ==> r.outcome.value == ls + rest.outcome.value
  {
    CrawlRun(if rest.outcome.Raised? then Raised else Returned(ls + rest.outcome.value), n + rest.sleeps)
  }

  lemma ThenThen(a: seq<LennarListing>, m: nat, b: seq<LennarListing>, n: nat, rest: CrawlRun)
    ensures Then(a, m, Then(b, n, rest)) == Then(a + b, m + n, rest)
  {
    if rest.outcome.Returned? {
      assert a + (b + rest.outcome.value) == a + b + rest.outcome.value;
    }
  }

  /** The state loop of `scrape_all_listings` as written: the call at
      lennar_scraper.py:541 is outside the `try`, so an exception of
      `get_communities_in_state` ends the whole crawl. */
  function CrawlAsWritten(states: seq<StateEntry>, statePage: string -> Option<StatePage>, maxCommunities: Option<int>,
                          listingPage: Community -> Outcome<Option<CommunityPage>>, resolve: string -> string)
    : (r: CrawlRun)
    decreases |states|
  {
    if states == [] then CrawlRun(Returned([]), 0)
    else
      match CommunitiesInStateAsWritten(statePage(states[0].slug), states[0].slug, resolve)
      case Raised => CrawlRun(Raised, 1)
      case Returned(found) =>
        var cs := Capped(found, maxCommunities);
        Then(CommunitiesListings(cs, listingPage, resolve), 1 + |cs|,
             CrawlAsWritten(states[1..], statePage, maxCommunities, listingPage, resolve))
  }

  /** A state of the crawl as written whose `get_communities_in_state` raised ends it. */
  lemma AsWrittenRaisedAt(states: seq<StateEntry>, i: nat, statePage: string -> Option<StatePage>,
                          maxCommunities: Option<int>, listingPage: Community -> Outcome<Option<CommunityPage>>,
                          resolve: string -> string)
    requires i < |states| && CommunitiesInStateAsWritten(statePage(states[i].slug), states[i].slug, resolve).Raised?
    ensures CrawlAsWritten(states[i..], statePage, maxCommunities, listingPage, resolve) == CrawlRun(Raised, 1)
  {
    assert states[i..][0] == states[i];
  }

  /** A state of the crawl as written that returned its communities, taken
      from the middle of the list. */
  lemma AsWrittenReturnedAt(states: seq<StateEntry>, i: nat, found: seq<Community>,
                            statePage: string -> Option<StatePage>, maxCommunities: Option<int>,
                            listingPage: Community -> Outcome<Option<CommunityPage>>, resolve: string -> string)
    requires i < |states|
    requires CommunitiesInStateAsWritten(statePage(states[i].slug), states[i].slug, resolve) == Returned(found)
    ensures var cs := Capped(found, maxCommunities);
      CrawlAsWritten(states[i..], statePage, maxCommunities, listingPage, resolve)
      == Then(CommunitiesListings(cs, listingPage, resolve), 1 + |cs|,
              CrawlAsWritten(states[i + 1..], statePage, maxCommunities, listingPage, resolve))
  {
    assert states[i..][0] == states[i] && states[i..][1..] == states[i + 1..];
  }

  /** As written, the crawl raises exactly when one of its state pages is
      fetched, after one pause per state up to and including the first such
      state. */
  lemma {:induction false} CrawlAsWrittenRaises(states: seq<StateEntry>, statePage: string -> Option<StatePage>,
                                               maxCommunities: Option<int>,
                                               listingPage: Community -> Outcome<Option<CommunityPage>>,
                                               resolve: string -> string)
    ensures var r := CrawlAsWritten(states, statePage, maxCommunities, listingPage, resolve);
      r.outcome.Raised? <==> exists i :: 0 <= i < |states| && statePage(states[i].slug).Some?
    ensures var r := CrawlAsWritten(states, statePage, maxCommunities, listingPage, resolve);
      r.outcome.Raised? ==>
        1 <= r.sleeps <= |states| && statePage(states[r.sleeps - 1].slug).Some?
        && forall i :: 0 <= i < r.sleeps - 1 ==> statePage(states[i].slug).None?
  {
    if states != [] {
      var st, rest := states[0], states[1..];
      var r := CrawlAsWritten(states, statePage, maxCommunities, listingPage, resolve);
      if statePage(st.slug).Some? {
        assert r == CrawlRun(Raised, 1);
      } else {
        var tail := CrawlAsWritten(rest, statePage, maxCommunities, listingPage, resolve);
        CrawlAsWrittenRaises(rest, statePage, maxCommunities, listingPage, resolve);
        EmptyStep(maxCommunities, listingPage, resolve);
        assert r == Then([], 1, tail);
        forall i | 0 <= i < |rest| ensures rest[i] == states[i + 1] { }
        if tail.outcome.Raised? {
          var i :| 0 <= i < |rest| && statePage(rest[i].slug).Some?;
          assert statePage(states[i + 1].slug).Some?;
          forall i | 0 <= i < r.sleeps - 1 ensures statePage(states[i].slug).None? {
            if i > 0 { assert states[i] == rest[i - 1]; }
          }
        } else {
          forall i | 0 <= i < |states| ensures statePage(states[i].slug).None? {
            if i > 0 { assert states[i] == rest[i - 1]; }
          }
        }
      }
    }
  }

  /** A state with no community adds one pause and nothing else. */
  lemma EmptyStep(maxCommunities: Option<int>, listingPage: Community -> Outcome<Option<CommunityPage>>,
                  resolve: string -> string)
    ensures Capped([], maxCommunities) == [] && CommunitiesListings([], listingPage, resolve) == []
  {
  }

  /** When the crawl as written does not raise, it finds no listing, pauses
      once per state, and agrees with the corrected crawl (`CrawlListings`,
      `CrawlSleeps`). */
  lemma CrawlAsWrittenReturns(states: seq<StateEntry>, statePage: string -> Option<StatePage>,
                              maxCommunities: Option<int>,
                              listingPage: Community -> Outcome<Option<CommunityPage>>,
                              resolve: string -> string)
    ensures var r := CrawlAsWritten(states, statePage, maxCommunities, listingPage, resolve);
      r.outcome.Returned? ==>
        r.outcome.value == [] && r.sleeps == |states|
        && r.outcome.value == CrawlListings(states, statePage, maxCommunities, listingPage, resolve)
        && r.sleeps == CrawlSleeps(states, statePage, maxCommunities, resolve)
  {
    var r := CrawlAsWritten(states, statePage, maxCommunities, listingPage, resolve);
    if r.outcome.Returned? {
      CrawlAsWrittenRaises(states, statePage, maxCommunities, listingPage, resolve);
      NoPagesRun(states, statePage, maxCommunities, listingPage, resolve);
      NoStatePages(states, statePage, maxCommunities, listingPage, resolve);
    }
  }

  /** With none of its state pages fetched, the crawl as written finds
      nothing and pauses once per state. */
  lemma {:induction false} NoPagesRun(states: seq<StateEntry>, statePage: string -> Option<StatePage>,
                                     maxCommunities: Option<int>,
                                     listingPage: Community -> Outcome<Option<CommunityPage>>,
                                     resolve: string -> string)
    requires forall i :: 0 <= i < |states| ==> statePage(states[i].slug).None?
    ensures CrawlAsWritten(states, statePage, maxCommunities, listingPage, resolve) == CrawlRun(Returned([]), |states|)
  {
    if states != [] {
      var rest := states[1..];
      forall i | 0 <= i < |rest| ensures statePage(rest[i].slug).None? {
        assert rest[i] == states[i + 1];
      }
      NoPagesRun(rest, statePage, maxCommunities, listingPage, resolve);
      EmptyStep(maxCommunities, listingPage, resolve);
    }
  }

  /** With none of its state pages fetched, the corrected crawl visits no
      community. */
  lemma {:induction false} NoVisitedCommunities(states: seq<StateEntry>, statePage: string -> Option<StatePage>,
                                               maxCommunities: Option<int>, resolve: string -> string)
    requires forall i :: 0 <= i < |states| ==> statePage(states[i].slug).None?
    ensures VisitedCommunities(states, statePage, maxCommunities, resolve) == []
  {
    if states != [] {
      var init := states[..|states| - 1];
      forall i | 0 <= i < |init| ensures statePage(init[i].slug).None? {
        assert init[i] == states[i];
      }
      NoVisitedCommunities(init, statePage, maxCommunities, resolve);
      VisitedCommunitiesSnoc(states, statePage, maxCommunities, resolve);
      assert CommunitiesInState(statePage(states[|states| - 1].slug), states[|states| - 1].slug, resolve) == [];
    }
  }

  /** With none of its state pages fetched, the corrected crawl visits no
      community, finds no listing and pauses once per state. */
  lemma NoStatePages(states: seq<StateEntry>, statePage: string -> Option<StatePage>,
                     maxCommunities: Option<int>,
                     listingPage: Community -> Outcome<Option<CommunityPage>>,
                     resolve: string -> string)
    requires forall i :: 0 <= i < |states| ==> statePage(states[i].slug).None?
    ensures VisitedCommunities(states, statePage, maxCommunities, resolve) == []
    ensures CrawlListings(states, statePage, maxCommunities, listingPage, resolve) == []
    ensures CrawlSleeps(states, statePage, maxCommunities, resolve) == |states|
  {
    NoVisitedCommunities(states, statePage, maxCommunities, resolve);
    EmptyStep(maxCommunities, listingPage, resolve);
  }

  /** `get_communities_in_state` as written: the element loop runs, then the
      metro selector raises. */
  method GetCommunitiesInStateAsWritten(page: Option<StatePage>, slug: string, resolve: string -> string)
    returns (r: Outcome<seq<Community>>)
    ensures r == CommunitiesInStateAsWritten(page, slug, resolve)
  {
    if page.Some? {
      var fromElements := CollectElements(page.value.elements, slug, resolve);
      return Raised;
    }
    var communities := Deduplicate([], UrlOf);
    return Returned(communities);
  }

  /** The inner loop of `scrape_all_listings`: a pause before each
      community, then its listings unless the call raised. */
  method VisitCommunities(communities: seq<Community>, delay: nat,
                          listingPage: Community -> Outcome<Option<CommunityPage>>, resolve: string -> string)
    returns (found: seq<LennarListing>, effects: seq<Effect>)
    ensures found == CommunitiesListings(communities, listingPage, resolve)
    ensures effects == Pauses(|communities|, delay)
  {
    found, effects := [], [];
    for j := 0 to |communities|
      invariant found == CommunitiesListings(communities[..j], listingPage, resolve)
      invariant effects == Pauses(j, delay)
    {
      CommunitiesStep(communities, j, listingPage, resolve);
      effects := effects + [Sleep(delay)];
      var ls := VisitCommunity(communities[j], listingPage, resolve);
      found := found + ls;
    }
    assert communities[..|communities|] == communities;
  }

  /** The `try` block around one community: its listings, or none when the
      call raised. */
  method VisitCommunity(c: Community, listingPage: Community -> Outcome<Option<CommunityPage>>, resolve: string -> string)
    returns (ls: seq<LennarListing>)
    ensures ls == CommunityResult(c, listingPage, resolve)
  {
    var outcome := listingPage(c);
    ls := [];
    if outcome.Returned? {
      ls := GetListingsFromCommunity(c, outcome.value, resolve);
    }
  }

  lemma CommunitiesStep(cs: seq<Community>, j: nat, listingPage: Community -> Outcome<Option<CommunityPage>>,
                        resolve: string -> string)
    requires j < |cs|
    ensures CommunitiesListings(cs[..j + 1], listingPage, resolve)
      == CommunitiesListings(cs[..j], listingPage, resolve) + CommunityResult(cs[j], listingPage, resolve)
  {
    ConcatMapSnoc(cs, j, c => CommunityResult(c, listingPage, resolve));
  }

  lemma PausesAppend(n: nat, m: nat, delay: nat)
    ensures Pauses(n, delay) + ([Sleep(delay)] + Pauses(m, delay)) == Pauses(n + 1 + m, delay)
  {
  }

  lemma CrawlStep(states: seq<StateEntry>, i: nat, statePage: string -> Option<StatePage>, maxCommunities: Option<int>,
                  listingPage: Community -> Outcome<Option<CommunityPage>>, resolve: string -> string)
    requires i < |states|
    ensures var cs := StateCommunities(states[i], statePage, maxCommunities, resolve);
      CrawlListings(states[..i + 1], statePage, maxCommunities, listingPage, resolve)
        == CrawlListings(states[..i], statePage, maxCommunities, listingPage, resolve) + CommunitiesListings(cs, listingPage, resolve)
      && CrawlSleeps(states[..i + 1], statePage, maxCommunities, resolve)
        == CrawlSleeps(states[..i], statePage, maxCommunities, resolve) + 1 + |cs|
  {
    assert states[..i + 1][..i] == states[..i];
  }

  /** One state of `scrape_all_listings`: the pause, the state's
      communities (capped), and a visit to each. */
  method VisitState(st: StateEntry, delay: nat, statePage: string -> Option<StatePage>, maxCommunities: Option<int>,
                    listingPage: Community -> Outcome<Option<CommunityPage>>, resolve: string -> string)
    returns (found: seq<LennarListing>, effects: seq<Effect>)
    ensures var cs := StateCommunities(st, statePage, maxCommunities, resolve);
      found == CommunitiesListings(cs, listingPage, resolve) && effects == [Sleep(delay)] + Pauses(|cs|, delay)
  {
    effects := [Sleep(delay)];
    var communities := GetCommunitiesInState(statePage(st.slug), st.slug, resolve);
    if maxCommunities.Some? && maxCommunities.value != 0 {
      communities := SliceTo(communities, maxCommunities.value);
    }
    assert communities == StateCommunities(st, statePage, maxCommunities, resolve);
    var pauses;
    found, pauses := VisitCommunities(communities, delay, listingPage, resolve);
    effects := effects + pauses;
  }

  /** The outer loop of `scrape_all_listings`: each state in turn. */
  method CrawlStates(states: seq<StateEntry>, delay: nat, statePage: string -> Option<StatePage>, maxCommunities: Option<int>,
                     listingPage: Community -> Outcome<Option<CommunityPage>>, resolve: string -> string)
    returns (all: seq<LennarListing>, effects: seq<Effect>)
    ensures all == CrawlListings(states, statePage, maxCommunities, listingPage, resolve)
    ensures effects == Pauses(CrawlSleeps(states, statePage, maxCommunities, resolve), delay)
  {
    all := [];
    effects := [];
    for i := 0 to |states|
      invariant all == CrawlListings(states[..i], statePage, maxCommunities, listingPage, resolve)
      invariant effects == Pauses(CrawlSleeps(states[..i], statePage, maxCommunities, resolve), delay)
    {
      CrawlStep(states, i, statePage, maxCommunities, listingPage, resolve);
      PausesAppend(CrawlSleeps(states[..i], statePage, maxCommunities, resolve),
                   |StateCommunities(states[i], statePage, maxCommunities, resolve)|, delay);
      var found, pauses := VisitState(states[i], delay, statePage, maxCommunities, listingPage, resolve);
      all := all + found;
      effects := effects + pauses;
    }
    assert states[..|states|] == states;
  }

  /** The state loop of `scrape_all_listings` as written: for each state a
      pause and `get_communities_in_state`, whose exception ends the loop;
      otherwise the state's communities (capped) are visited as in
      `VisitCommunities`. */
  method CrawlStatesAsWritten(states: seq<StateEntry>, delay: nat, statePage: string -> Option<StatePage>,
                              maxCommunities: Option<int>, listingPage: Community -> Outcome<Option<CommunityPage>>,
                              resolve: string -> string)
    returns (outcome: Outcome<seq<LennarListing>>, effects: seq<Effect>)
    ensures var run := CrawlAsWritten(states, statePage, maxCommunities, listingPage, resolve);
      outcome == run.outcome && effects == Pauses(run.sleeps, delay)
  {
    ghost var run := CrawlAsWritten(states, statePage, maxCommunities, listingPage, resolve);
    var all: seq<LennarListing> := [];
    ghost var sleeps: nat := 0;
    effects := [];
    assert states[0..] == states;
    assert run.outcome.Returned? ==> [] + run.outcome.value == run.outcome.value;
    for i := 0 to |states|
      invariant run == Then(all, sleeps, CrawlAsWritten(states[i..], statePage, maxCommunities, listingPage, resolve))
      invariant effects == Pauses(sleeps, delay)
    {
      ghost var before := effects;
      PausesAppend(sleeps, 0, delay);
      effects := effects + [Sleep(delay)];
      var got := GetCommunitiesInStateAsWritten(statePage(states[i].slug), states[i].slug, resolve);
      if got.Raised? {
        AsWrittenRaisedAt(states, i, statePage, maxCommunities, listingPage, resolve);
        return Raised, effects;
      }
      AsWrittenReturnedAt(states, i, got.value, statePage, maxCommunities, listingPage, resolve);
      var communities := got.value;
      if maxCommunities.Some? && maxCommunities.value != 0 {
        communities := SliceTo(communities, maxCommunities.value);
      }
      var found, pauses := VisitCommunities(communities, delay, listingPage, resolve);
      ThenThen(all, sleeps, found, 1 + |communities|,
               CrawlAsWritten(states[i + 1..], statePage, maxCommunities, listingPage, resolve));
      PausesAppend(sleeps, |communities|, delay);
      assert before + [Sleep(delay)] + pauses == before + ([Sleep(delay)] + pauses);
      all := all + found;
      effects := effects + pauses;
      sleeps := sleeps + 1 + |communities|;
    }
    assert states[|states|..] == [] && all + [] == all;
    return Returned(all), effects;
  }

  /** The lennar.com scraper; `listings` is `self.listings`. */
  class LennarScraper {
    var listings: seq<LennarListing>

    constructor()
      ensures listings == []
    {
      listings := [];
    }

    /** `scrape_all_listings` as written: the states of `get_states`
        (filtered) go through `CrawlStatesAsWritten`; an exception there
        leaves `self.listings` as it was, and a run that gets through
        assigns its listings to `self.listings`. */
    method ScrapeAllListings(statesPage: Option<seq<Link>>, filter: Option<seq<string>>, maxCommunities: Option<int>,
                             delay: nat, statePage: string -> Option<StatePage>,
                             listingPage: Community -> Outcome<Option<CommunityPage>>, resolve: string -> string)
      returns (outcome: Outcome<seq<LennarListing>>, effects: seq<Effect>)
      modifies this
      ensures var run := CrawlAsWritten(SelectStates(States(statesPage, resolve), filter), statePage, maxCommunities,
                                        listingPage, resolve);
        outcome == run.outcome && effects == Pauses(run.sleeps, delay)
      ensures outcome.Raised? ==> listings == old(listings)
      ensures outcome.Returned? ==> listings == outcome.value
    {
      var available := GetStates(statesPage, resolve);
      var states := SelectStates(available, filter);
      outcome, effects := CrawlStatesAsWritten(states, delay, statePage, maxCommunities, listingPage, resolve);
      if outcome.Returned? {
        listings := outcome.value;
      }
    }

    /** `scrape_all_listings` with a metro selector that parses: the states
        of `get_states` (filtered), for each a pause and its communities
        (capped), for each community a pause and its listings; a community
        whose call raised adds nothing. The result replaces
        `self.listings`. */
    method ScrapeAllListingsCorrected(statesPage: Option<seq<Link>>, filter: Option<seq<string>>, maxCommunities: Option<int>,
                             delay: nat, statePage: string -> Option<StatePage>,
                             listingPage: Community -> Outcome<Option<CommunityPage>>, resolve: string -> string)
      returns (all: seq<LennarListing>, effects: seq<Effect>)
      modifies this
      ensures var states := SelectStates(States(statesPage, resolve), filter);
        all == CrawlListings(states, statePage, maxCommunities, listingPage, resolve)
        && effects == Pauses(CrawlSleeps(states, statePage, maxCommunities, resolve), delay)
      ensures listings == all
    {
      var available := GetStates(statesPage, resolve);
      var states := SelectStates(available, filter);
      all, effects := CrawlStates(states, delay, statePage, maxCommunities, listingPage, resolve);
      listings := all;
    }
  }
}
