/** What both scrapers see of an HTTP session: one outcome per attempt, the
    status check of `raise_for_status`, the exponential backoff schedule, and
    the projections of an effect trace onto its sleeps and its User-Agent
    rotations. */
module Http {
  import opened Common

  /** What one attempt produced: a response with its status code and body, or
      a request exception (connection error, timeout, too many redirects). */
  datatype Attempt<B> = Response(status: int, body: B) | RequestError

  /** `raise_for_status` raises for every status in the 4xx and 5xx ranges,
      so an attempt counts only when it got a response outside them. */
  predicate Succeeded<B>(a: Attempt<B>) {
    a.Response? && !(400 <= a.status < 600)
  }

  /** The first successful attempt among the first n, if any. */
  function FirstSuccess<B>(attempts: seq<Attempt<B>>, n: nat): (r: Option<nat>)
    requires n <= |attempts|
    ensures r.None? <==> forall k :: 0 <= k < n ==> !Succeeded(attempts[k])
    ensures r.Some? ==> r.value < n && Succeeded(attempts[r.value])
    ensures r.Some? ==> forall k :: 0 <= k < r.value ==> !Succeeded(attempts[k])
  {
    if n == 0 then None
    else
      match FirstSuccess(attempts, n - 1)
      case Some(k) => Some(k)
      case None => if Succeeded(attempts[n - 1]) then Some(n - 1) else None
  }

  /** `2 ** j`. */
  function Pow2(j: nat): (p: nat)
    ensures p >= 1
  {
    if j == 0 then 1 else 2 * Pow2(j - 1)
  }

  /** The sleep durations of a trace, in order. */
  function Sleeps(es: seq<Effect>): (r: seq<nat>)
    ensures |r| <= |es|
  {
    if es == [] then []
    else Sleeps(es[..|es| - 1]) + (if es[|es| - 1].Sleep? then [es[|es| - 1].seconds] else [])
  }

  /** The number of User-Agent rotations in a trace. */
  function Rotations(es: seq<Effect>): (n: nat)
    ensures n <= |es|
  {
    if es == [] then 0
    else Rotations(es[..|es| - 1]) + (if es[|es| - 1].RotateUserAgent? then 1 else 0)
  }

  lemma {:induction false} SleepsAppend(a: seq<Effect>, b: seq<Effect>)
    ensures Sleeps(a + b) == Sleeps(a) + Sleeps(b)
    ensures Rotations(a + b) == Rotations(a) + Rotations(b)
  {
    if b != [] {
      var b' := b[..|b| - 1];
      assert (a + b)[..|a + b| - 1] == a + b';
      SleepsAppend(a, b');
    } else {
      assert a + b == a;
    }
  }

  /** The backoff schedule after k failures: 1, 2, 4, ... seconds. */
  function Schedule(k: nat): (r: seq<nat>)
    ensures |r| == k && forall j :: 0 <= j < k ==> r[j] == Pow2(j)
  {
    if k == 0 then [] else Schedule(k - 1) + [Pow2(k - 1)]
  }
}
