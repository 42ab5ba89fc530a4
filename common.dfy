/** Shared vocabulary of the scrapers: optional values, the observable side
    effects of a fetch session (sleeps, User-Agent rotations, scrolls), and the
    leftmost-position search that Python's `re.search` performs. */
module Common {

  datatype Option<+T> = None | Some(value: T) {
    function GetOr(default: T): T {
      match this
      case Some(v) => v
      case None => default
    }
  }

  /** An observable side effect of a fetch session: a requested `time.sleep`
      (in whole seconds), a fresh random User-Agent header, or a browser
      scroll to the bottom of the page. */
  datatype Effect = Sleep(seconds: nat) | RotateUserAgent | ScrollToBottom

  /** `n` sleeps of `delay` seconds. */
  function Pauses(n: nat, delay: nat): (es: seq<Effect>)
    ensures |es| == n && forall k :: 0 <= k < n ==> es[k] == Sleep(delay)
  {
    seq(n, k => Sleep(delay))
  }

  /** What a call guarded by a broad `except` did: returned a value, or
      raised (and the caller logged it and went on). */
  datatype Outcome<T> = Returned(value: T) | Raised

  /** The attempt at the smallest position in lo..hi that `at` accepts, with
      what it produced: the way `re.search` tries each start position from
      left to right and reports the first one where the pattern matches. */
  function Leftmost<T>(lo: nat, hi: nat, at: nat -> Option<T>): (r: Option<(nat, T)>)
    decreases hi + 1 - lo
    ensures r.None? <==> forall i :: lo <= i <= hi ==> at(i).None?
    ensures r.Some? ==> lo <= r.value.0 <= hi && at(r.value.0) == Some(r.value.1)
    ensures r.Some? ==> forall i :: lo <= i < r.value.0 ==> at(i).None?
  {
    if lo > hi then None
    else match at(lo)
      case Some(t) => Some((lo, t))
      case None => Leftmost(lo + 1, hi, at)
  }

  /** An accepted attempt with only rejected ones before it is the leftmost. */
  lemma LeftmostAt<T>(lo: nat, hi: nat, at: nat -> Option<T>, j: nat)
    requires lo <= j <= hi && at(j).Some?
    requires forall i :: lo <= i < j ==> at(i).None?
    ensures Leftmost(lo, hi, at) == Some((j, at(j).value))
  {
    var r := Leftmost(lo, hi, at);
    assert r.Some?;
    assert !(r.value.0 < j);
    assert !(j < r.value.0);
  }

  /** Python's `xs[:n]` for an integer n (a negative n drops |n| elements at the end). */
  function SliceTo<T>(xs: seq<T>, n: int): (r: seq<T>)
    ensures 0 <= n ==> r == xs[..if n <= |xs| then n else |xs|]
    ensures n < 0 ==> r == xs[..if |xs| + n >= 0 then |xs| + n else 0]
  {
    if n >= 0 then (if n <= |xs| then xs[..n] else xs)
    else if |xs| + n >= 0 then xs[..|xs| + n] else []
  }

  /** The concatenation of a sequence of sequences (Python's `sum(lists, [])`). */
  function Flatten<T>(xss: seq<seq<T>>): (r: seq<T>)
  {
    if xss == [] then [] else xss[0] + Flatten(xss[1..])
  }

  lemma {:induction false} FlattenAppend<T>(xss: seq<seq<T>>, ys: seq<T>)
    ensures Flatten(xss + [ys]) == Flatten(xss) + ys
  {
    if xss == [] {
      assert xss + [ys] == [ys];
    } else {
      assert (xss + [ys])[1..] == xss[1..] + [ys];
      FlattenAppend(xss[1..], ys);
    }
  }

  /** The concatenation of f's results over xs, in order (a loop that
      extends one list with each element's list). */
  function ConcatMap<T, U>(xs: seq<T>, f: T -> seq<U>): (r: seq<U>)
    ensures xs == [] ==> r == []
    ensures forall y :: y in r ==> exists x :: x in xs && y in f(x)
    ensures forall x, y :: x in xs && y in f(x) ==> y in r
  {
    if xs == [] then []
    else
      var init := xs[..|xs| - 1];
      assert forall x :: x in init ==> x in xs;
      assert forall x :: x in xs ==> x in init || x == xs[|xs| - 1];
      ConcatMap(init, f) + f(xs[|xs| - 1])
  }

  lemma ConcatMapSnoc<T, U>(xs: seq<T>, i: nat, f: T -> seq<U>)
    requires i < |xs|
    ensures ConcatMap(xs[..i + 1], f) == ConcatMap(xs[..i], f) + f(xs[i])
  {
    assert xs[..i + 1][..i] == xs[..i];
  }

  lemma {:induction false} ConcatMapAppend<T, U>(a: seq<T>, b: seq<T>, f: T -> seq<U>)
    ensures ConcatMap(a + b, f) == ConcatMap(a, f) + ConcatMap(b, f)
  {
    if b == [] {
      assert a + b == a;
    } else {
      var b' := b[..|b| - 1];
      ConcatMapAppend(a, b', f);
      assert (a + b)[..|a + b| - 1] == a + b';
      assert (a + b)[|a + b| - 1] == b[|b| - 1];
    }
  }

  /** f applied to each element, in order (a loop that appends one converted
      element per input element). */
  function Map<T, U>(xs: seq<T>, f: T -> U): (r: seq<U>)
    ensures |r| == |xs| && forall k :: 0 <= k < |xs| ==> r[k] == f(xs[k])
  {
    if xs == [] then [] else Map(xs[..|xs| - 1], f) + [f(xs[|xs| - 1])]
  }

  lemma MapAppend<T, U>(a: seq<T>, b: seq<T>, f: T -> U)
    ensures Map(a + b, f) == Map(a, f) + Map(b, f)
  {
    var l, r := Map(a + b, f), Map(a, f) + Map(b, f);
    assert |l| == |r|;
    forall k | 0 <= k < |l| ensures l[k] == r[k] {
      if k < |a| {
        assert (a + b)[k] == a[k];
      } else {
        assert (a + b)[k] == b[k - |a|];
      }
    }
  }

  lemma MapSnoc<T, U>(xs: seq<T>, i: nat, f: T -> U)
    requires i < |xs|
    ensures Map(xs[..i + 1], f) == Map(xs[..i], f) + [f(xs[i])]
  {
    assert xs[..i + 1][..i] == xs[..i];
  }

  /** The results of f that are present, in order (a loop that appends the
      converted element when the conversion succeeds and skips it otherwise). */
  function FilterMap<T, U>(xs: seq<T>, f: T -> Option<U>): (r: seq<U>)
    ensures |r| <= |xs|
  {
    if xs == [] then []
    else
      var y := f(xs[|xs| - 1]);
      FilterMap(xs[..|xs| - 1], f) + (if y.Some? then [y.value] else [])
  }

  lemma FilterMapSnoc<T, U>(xs: seq<T>, i: nat, f: T -> Option<U>)
    requires i < |xs|
    ensures FilterMap(xs[..i + 1], f) == FilterMap(xs[..i], f) + (if f(xs[i]).Some? then [f(xs[i]).value] else [])
  {
    assert xs[..i + 1][..i] == xs[..i];
  }

  lemma {:induction false} FilterMapAppend<T, U>(a: seq<T>, b: seq<T>, f: T -> Option<U>)
    ensures FilterMap(a + b, f) == FilterMap(a, f) + FilterMap(b, f)
  {
    if b == [] {
      assert a + b == a;
    } else {
      var b' := b[..|b| - 1];
      FilterMapAppend(a, b', f);
      assert (a + b)[..|a + b| - 1] == a + b';
      assert (a + b)[|a + b| - 1] == b[|b| - 1];
    }
  }

  /** Every present result is kept, and nothing else is. */
  lemma {:induction false} FilterMapMembers<T, U>(xs: seq<T>, f: T -> Option<U>)
    ensures forall x :: x in xs && f(x).Some? ==> f(x).value in FilterMap(xs, f)
    ensures forall y :: y in FilterMap(xs, f) ==> exists x :: x in xs && f(x) == Some(y)
  {
    if xs != [] {
      var init := xs[..|xs| - 1];
      FilterMapMembers(init, f);
      assert forall x :: x in init ==> x in xs;
      assert forall x :: x in xs ==> x in init || x == xs[|xs| - 1];
    }
  }
}
