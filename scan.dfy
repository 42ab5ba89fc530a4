/** The count patterns both scrapers run over a card's text with
    `re.search(..., re.I)`: a number group, optional whitespace, then one of
    several unit words, such as `(\d+)\s*(?:bed|br|bedroom)`.

    Backtracking worked out by hand: a unit word starts with a letter, so the
    number group can only end where its greedy run ends (a shorter group
    leaves a digit, comma or period where the unit should begin), and the
    unit can only start where the greedy `\s*` ends. So a match started at i
    is decided by one candidate group end and one unit position. */
module UnitScan {
  import opened Common
  import opened Text

  /** The shape of the number group. */
  datatype Shape =
    | Whole     // `(\d+)`
    | Decimal   // `(\d+(?:\.\d+)?)`
    | Grouped   // `([\d,]+)`

  /** One alternative of the unit group: a word (lower case, matched ignoring
      ASCII case), or `sq\s*ft`. */
  datatype Unit = Word(lit: string) | SqFt

  predicate IsGroupedChar(c: char) { IsDigit(c) || c == ',' }

  /** The characters a group of this shape may start with. */
  predicate StartsGroup(shape: Shape, c: char) {
    if shape.Grouped? then IsGroupedChar(c) else IsDigit(c)
  }

  /** The end of the greedy group started at i. For `\d+(?:\.\d+)?` the
      fraction is taken when a period and a digit follow the integer part. */
  function GroupEnd(s: string, i: nat, shape: Shape): (e: nat)
    requires i <= |s|
    ensures i <= e <= |s|
  {
    match shape
    case Whole => RunEnd(s, i, IsDigit)
    case Grouped => RunEnd(s, i, IsGroupedChar)
    case Decimal =>
      var d := RunEnd(s, i, IsDigit);
      if d + 1 < |s| && s[d] == '.' && IsDigit(s[d + 1]) then RunEnd(s, d + 1, IsDigit) else d
  }

  /** A group has its shape's characters: digits; digits with at most one
      inner period; digits and commas. */
  predicate HasShape(g: string, shape: Shape) {
    |g| >= 1 &&
    match shape
    case Whole => AllDigits(g)
    case Grouped => forall k :: 0 <= k < |g| ==> IsGroupedChar(g[k])
    case Decimal =>
      AllDigits(g) ||
      exists d :: 0 < d < |g| - 1 && g[d] == '.' && AllDigits(g[..d]) && AllDigits(g[d + 1..])
  }

  predicate UnitAt(s: string, p: nat, u: Unit) {
    match u
    case Word(lit) => OccursAtNoCase(s, p, lit)
    case SqFt => OccursAtNoCase(s, p, "sq") && OccursAtNoCase(s, SkipSpaces(s, p + 2), "ft")
  }

  predicate SomeUnitAt(s: string, p: nat, units: seq<Unit>) {
    exists k :: 0 <= k < |units| && UnitAt(s, p, units[k])
  }

  /** The pattern started at position i: the group's text, or None. */
  function CountAt(s: string, i: nat, shape: Shape, units: seq<Unit>): (r: Option<string>)
    ensures r.Some? <==> i < |s| && StartsGroup(shape, s[i]) && SomeUnitAt(s, SkipSpaces(s, GroupEnd(s, i, shape)), units)
    ensures r.Some? ==> OccursAt(s, i, r.value) && HasShape(r.value, shape)
    ensures r.Some? ==> i + |r.value| == GroupEnd(s, i, shape)
  {
    if i < |s| && StartsGroup(shape, s[i]) then
      var e := GroupEnd(s, i, shape);
      if SomeUnitAt(s, SkipSpaces(s, e), units) then
        GroupShape(s, i, shape);
        Some(s[i..e])
      else None
    else None
  }

  lemma GroupShape(s: string, i: nat, shape: Shape)
    requires i < |s| && StartsGroup(shape, s[i])
    ensures HasShape(s[i..GroupEnd(s, i, shape)], shape)
  {
    var g := s[i..GroupEnd(s, i, shape)];
    assert forall k :: 0 <= k < |g| ==> g[k] == s[i + k];
    if shape.Decimal? {
      var d := RunEnd(s, i, IsDigit);
      if d + 1 < |s| && s[d] == '.' && IsDigit(s[d + 1]) {
        var dd := d - i;
        assert g[dd] == '.';
        assert g[..dd] == s[i..d];
        assert g[dd + 1..] == s[d + 1..GroupEnd(s, i, shape)];
      }
    }
  }

  /** `re.search`: the group of the leftmost position where the pattern matches. */
  function FindCount(s: string, shape: Shape, units: seq<Unit>): (r: Option<string>)
    ensures r.None? <==> forall i :: 0 <= i <= |s| ==> CountAt(s, i, shape, units).None?
    ensures r.Some? ==>
      exists i :: 0 <= i < |s| && CountAt(s, i, shape, units) == r
        && (i == 0 || !StartsGroup(shape, s[i - 1]))
        && forall j :: 0 <= j < i ==> CountAt(s, j, shape, units).None?
  {
    var at := i => CountAt(s, i, shape, units);
    assert forall i :: at(i) == CountAt(s, i, shape, units);
    match Leftmost(0, |s|, at)
    case None => None
    case Some((i, g)) =>
      StartInsideGroup(s, i, shape, units);
      Some(g)
  }

  /** A group started one character further left, inside the same run, ends
      where this one ends; so the leftmost match starts at the beginning of
      its run and its group is maximal. */
  lemma StartInsideGroup(s: string, i: nat, shape: Shape, units: seq<Unit>)
    ensures 0 < i < |s| && StartsGroup(shape, s[i - 1]) && CountAt(s, i, shape, units).Some? ==>
      CountAt(s, i - 1, shape, units).Some?
  {
    if 0 < i < |s| && StartsGroup(shape, s[i - 1]) && CountAt(s, i, shape, units).Some? {
      if shape.Grouped? {
        assert RunEnd(s, i - 1, IsGroupedChar) == RunEnd(s, i, IsGroupedChar);
      } else {
        assert RunEnd(s, i - 1, IsDigit) == RunEnd(s, i, IsDigit);
      }
      assert GroupEnd(s, i - 1, shape) == GroupEnd(s, i, shape);
    }
  }
}
