/** The two loops of the lennar.com scraper that talk to the outside world:
    the retry loop around every HTTP request (`_make_request`) and the
    scroll-until-stable loop of the browser path (`scrape_with_selenium`).
    The network and the browser are oracles: one outcome per attempt, one
    page height per read. What the loops do besides is recorded as a trace
    of effects. */
module LennarFetch {
  import opened Common
  import opened Text
  import opened Http

  /** The result of `_make_request`: the successful response's body, None once
      every attempt failed, or the ValueError raised for an HTTP method other
      than GET and POST (it is not a request exception, so it escapes). */
  datatype Fetch<B> = Fetched(body: B) | NoResponse | Unsupported(httpMethod: string)

  /** The effects of k failed attempts that are each followed by a retry: a
      sleep of 2 ** attempt seconds, then a fresh User-Agent. */
  function Backoff(k: nat): (es: seq<Effect>)
    ensures |es| == 2 * k
    ensures forall i :: 0 <= i < |es| ==> es[i] == (if i % 2 == 0 then Sleep(Pow2(i / 2)) else RotateUserAgent)
  {
    if k == 0 then [] else Backoff(k - 1) + [Sleep(Pow2(k - 1)), RotateUserAgent]
  }

  /** The trace of k retries sleeps 1, 2, 4, ... and rotates the User-Agent once per retry. */
  lemma {:induction false} BackoffShape(k: nat)
    ensures Sleeps(Backoff(k)) == Schedule(k)
    ensures Rotations(Backoff(k)) == k
  {
    if k > 0 {
      BackoffShape(k - 1);
      var pair := [Sleep(Pow2(k - 1)), RotateUserAgent];
      SleepsAppend(Backoff(k - 1), pair);
      assert pair[..1] == [Sleep(Pow2(k - 1))];
      assert pair[..1][..0] == [];
    }
  }

  predicate SupportedMethod(httpMethod: string) {
    Upper(httpMethod) == "GET" || Upper(httpMethod) == "POST"
  }

  /** `_make_request`: attempt `retryCount` times (attempt k sees outcome
      `attempts[k]`), return the first successful response, and between two
      attempts sleep 2 ** attempt seconds and rotate the User-Agent. Nothing
      happens after the last failure. Client and server errors are retried
      alike. */
  method MakeRequest<B>(httpMethod: string, retryCount: int, attempts: seq<Attempt<B>>)
    returns (r: Fetch<B>, effects: seq<Effect>)
    requires retryCount <= |attempts|
    ensures retryCount <= 0 ==> r == NoResponse && effects == []
    ensures retryCount > 0 && !SupportedMethod(httpMethod) ==> r == Unsupported(httpMethod) && effects == []
    ensures retryCount > 0 && SupportedMethod(httpMethod) ==>
      match FirstSuccess(attempts, retryCount)
      case Some(k) => r == Fetched(attempts[k].body) && effects == Backoff(k)
      case None => r == NoResponse && effects == Backoff(retryCount - 1)
  {
    effects := [];
    var attempt := 0;
    while attempt < retryCount
      invariant 0 <= attempt <= |attempts|
      invariant retryCount > 0 ==> attempt <= retryCount
      invariant retryCount <= 0 ==> attempt == 0 && effects == []
      invariant attempt > 0 ==> SupportedMethod(httpMethod)
      invariant forall k :: 0 <= k < attempt ==> !Succeeded(attempts[k])
      invariant attempt < retryCount ==> effects == Backoff(attempt)
      invariant attempt == retryCount && attempt > 0 ==> effects == Backoff(attempt - 1)
    {
      if Upper(httpMethod) != "GET" && Upper(httpMethod) != "POST" {
        return Unsupported(httpMethod), effects;
      }
      var outcome := attempts[attempt];
      if Succeeded(outcome) {
        assert FirstSuccess(attempts, retryCount) == Some(attempt);
        return Fetched(outcome.body), effects;
      }
      if attempt < retryCount - 1 {
        effects := effects + [Sleep(Pow2(attempt)), RotateUserAgent];
      }
      attempt := attempt + 1;
    }
    r := NoResponse;
  }

  /** One round of the scroll loop: scroll to the bottom, then wait a second. */
  function ScrollRounds(n: nat): (es: seq<Effect>)
    ensures |es| == 2 * n
    ensures forall i :: 0 <= i < |es| ==> es[i] == (if i % 2 == 0 then ScrollToBottom else Sleep(1))
  {
    if n == 0 then [] else ScrollRounds(n - 1) + [ScrollToBottom, Sleep(1)]
  }

  /** The page stops growing at some read: two consecutive heights agree. */
  predicate Stabilises(heights: seq<int>) {
    exists k :: 1 <= k < |heights| && heights[k] == heights[k - 1]
  }

  /** The scroll loop of `scrape_with_selenium`: wait three seconds, read the
      page height (`heights[0]`), then scroll, wait a second and read again
      (`heights[1]`, `heights[2]`, ...) until a read equals the previous one.
      The source has no bound on the rounds; the model requires the page to
      stabilise within the observations given. */
  method ScrollUntilStable(heights: seq<int>) returns (scrolls: nat, effects: seq<Effect>)
    requires Stabilises(heights)
    ensures 1 <= scrolls < |heights| && heights[scrolls] == heights[scrolls - 1]
    ensures forall k :: 1 <= k < scrolls ==> heights[k] != heights[k - 1]
    ensures effects == [Sleep(3)] + ScrollRounds(scrolls)
  {
    effects := [Sleep(3)];
    var lastHeight := heights[0];
    var k := 1;
    while true
      invariant 1 <= k < |heights| && lastHeight == heights[k - 1]
      invariant exists j :: k <= j < |heights| && heights[j] == heights[j - 1]
      invariant forall j :: 1 <= j < k ==> heights[j] != heights[j - 1]
      invariant effects == [Sleep(3)] + ScrollRounds(k - 1)
      decreases |heights| - k
    {
      effects := effects + [ScrollToBottom, Sleep(1)];
      var newHeight := heights[k];
      if newHeight == lastHeight {
        break;
      }
      lastHeight := newHeight;
      k := k + 1;
    }
    scrolls := k;
  }

  /** The first read, from read i on, at which the page stopped growing. */
  function FirstStableFrom(heights: seq<int>, i: nat): (k: nat)
    requires 1 <= i && exists j :: i <= j < |heights| && heights[j] == heights[j - 1]
    decreases |heights| - i
    ensures i <= k < |heights| && heights[k] == heights[k - 1]
    ensures forall j :: i <= j < k ==> heights[j] != heights[j - 1]
  {
    if heights[i] == heights[i - 1] then i else FirstStableFrom(heights, i + 1)
  }

  /** `scrape_with_selenium`: load the page (None: the driver raised, and the
      handler returns "" before any wait), then the scroll loop, then the
      page source. */
  method ScrapeWithSelenium(pageSource: Option<string>, heights: seq<int>) returns (html: string, effects: seq<Effect>)
    requires pageSource.Some? ==> Stabilises(heights)
    ensures pageSource.None? ==> html == "" && effects == []
    ensures pageSource.Some? ==> html == pageSource.value && effects == [Sleep(3)] + ScrollRounds(FirstStableFrom(heights, 1))
  {
    html, effects := "", [];
    if pageSource.Some? {
      var scrolls;
      scrolls, effects := ScrollUntilStable(heights);
      var first := FirstStableFrom(heights, 1);
      assert !(scrolls < first) && !(first < scrolls);
      html := pageSource.value;
    }
  }
}
