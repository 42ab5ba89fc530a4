/** ASCII text primitives shared by both scrapers: the character classes the
    regular expressions use (`\d`, `\s`, `\w`, `[A-Z]`), Python's `lower`,
    `upper`, `strip`, `title`, `replace`, `split` and `in`, decimal digit
    strings, and the percent-encoding of `urllib.parse.quote`. Python's
    versions are Unicode-aware; these are their restriction to ASCII. */
module Text {

  predicate IsDigit(c: char) { '0' <= c <= '9' }
  predicate IsUpper(c: char) { 'A' <= c <= 'Z' }
  predicate IsLower(c: char) { 'a' <= c <= 'z' }
  predicate IsLetter(c: char) { IsUpper(c) || IsLower(c) }

  /** `\w`: the characters whose neighbours decide a `\b` word boundary. */
  predicate IsWordChar(c: char) { IsLetter(c) || IsDigit(c) || c == '_' }

  /** `\s` and `str.isspace()` on ASCII: tab, newline, vertical tab, form
      feed, carriage return, the four separators 0x1C-0x1F and space. */
  predicate IsSpace(c: char) { 9 <= c as int <= 13 || 28 <= c as int <= 32 }

  predicate AllDigits(s: string) { forall k :: 0 <= k < |s| ==> IsDigit(s[k]) }

  function ToLower(c: char): (d: char)
    ensures IsUpper(c) ==> IsLower(d) && d as int == c as int + 32
    ensures !IsUpper(c) ==> d == c
  {
    if IsUpper(c) then (c as int + 32) as char else c
  }

  function ToUpper(c: char): (d: char)
    ensures IsLower(c) ==> IsUpper(d) && d as int == c as int - 32
    ensures !IsLower(c) ==> d == c
  {
    if IsLower(c) then (c as int - 32) as char else c
  }

  function Lower(s: string): (r: string)
    ensures |r| == |s| && forall k :: 0 <= k < |s| ==> r[k] == ToLower(s[k])
  {
    seq(|s|, k requires 0 <= k < |s| => ToLower(s[k]))
  }

  function Upper(s: string): (r: string)
    ensures |r| == |s| && forall k :: 0 <= k < |s| ==> r[k] == ToUpper(s[k])
  {
    seq(|s|, k requires 0 <= k < |s| => ToUpper(s[k]))
  }

  /** `str.title()` on ASCII: a letter is upper-cased when the character before
      it is not a letter, and lower-cased otherwise. */
  function Title(s: string): (r: string)
    ensures |r| == |s|
    ensures forall k {:trigger r[k]} :: 0 <= k < |s| && (k == 0 || !IsLetter(s[k - 1])) ==> r[k] == ToUpper(s[k])
    ensures forall k {:trigger r[k]} :: 0 < k < |s| && IsLetter(s[k - 1]) ==> r[k] == ToLower(s[k])
  {
    seq(|s|, k requires 0 <= k < |s| =>
      if k == 0 || !IsLetter(s[k - 1]) then ToUpper(s[k]) else ToLower(s[k]))
  }

  /** `lit` occurs in `s` at position i. */
  predicate OccursAt(s: string, i: nat, lit: string) {
    i + |lit| <= |s| && s[i..i + |lit|] == lit
  }

  /** `lit` occurs in `s` at position i, ignoring ASCII case (`lit` is lower case). */
  predicate OccursAtNoCase(s: string, i: nat, lit: string) {
    i + |lit| <= |s| && forall k :: 0 <= k < |lit| ==> ToLower(s[i + k]) == lit[k]
  }

  /** Python's `lit in s`. */
  predicate Contains(s: string, lit: string) {
    exists i :: 0 <= i <= |s| && OccursAt(s, i, lit)
  }

  /** The first index at or after i whose character is not `\s` (or |s|). */
  function SkipSpaces(s: string, i: nat): (j: nat)
    requires i <= |s|
    decreases |s| - i
    ensures i <= j <= |s|
    ensures forall k :: i <= k < j ==> IsSpace(s[k])
    ensures j < |s| ==> !IsSpace(s[j])
  {
    if i < |s| && IsSpace(s[i]) then SkipSpaces(s, i + 1) else i
  }

  /** The end of the run of characters satisfying p that starts at i (a greedy `[...]*`). */
  function RunEnd(s: string, i: nat, p: char -> bool): (e: nat)
    requires i <= |s|
    decreases |s| - i
    ensures i <= e <= |s|
    ensures forall k :: i <= k < e ==> p(s[k])
    ensures e < |s| ==> !p(s[e])
  {
    if i < |s| && p(s[i]) then RunEnd(s, i + 1, p) else i
  }

  /** The run from i ends at e when everything before e satisfies p and the
      character at e does not. */
  lemma {:induction false} RunEndAt(s: string, i: nat, e: nat, p: char -> bool)
    requires i <= e <= |s|
    requires forall k :: i <= k < e ==> p(s[k])
    requires e == |s| || !p(s[e])
    decreases e - i
    ensures RunEnd(s, i, p) == e
  {
    if i < e {
      RunEndAt(s, i + 1, e, p);
    }
  }

  lemma {:induction false} SkipSpacesAt(s: string, i: nat, e: nat)
    requires i <= e <= |s|
    requires forall k :: i <= k < e ==> IsSpace(s[k])
    requires e == |s| || !IsSpace(s[e])
    decreases e - i
    ensures SkipSpaces(s, i) == e
  {
    if i < e {
      SkipSpacesAt(s, i + 1, e);
    }
  }

  /** The last index after which only `\s` characters follow, scanning down from j. */
  function TrimEnd(s: string, i: nat, j: nat): (e: nat)
    requires i <= j <= |s|
    decreases j
    ensures i <= e <= j
    ensures forall k :: e <= k < j ==> IsSpace(s[k])
    ensures e > i ==> !IsSpace(s[e - 1])
  {
    if j > i && IsSpace(s[j - 1]) then TrimEnd(s, i, j - 1) else j
  }

  /** `str.strip()`: `s` without its leading and trailing whitespace. */
  function Strip(s: string): (r: string)
    ensures r == [] || (!IsSpace(r[0]) && !IsSpace(r[|r| - 1]))
    ensures r == [] <==> forall k :: 0 <= k < |s| ==> IsSpace(s[k])
    ensures exists i :: 0 <= i <= |s| - |r| && OccursAt(s, i, r)
                        && (forall k :: 0 <= k < i ==> IsSpace(s[k]))
                        && (forall k :: i + |r| <= k < |s| ==> IsSpace(s[k]))
  {
    var i := SkipSpaces(s, 0);
    var e := TrimEnd(s, i, |s|);
    assert OccursAt(s, i, s[i..e]);
    s[i..e]
  }

  /** Text without blanks at either end is its own strip. */
  lemma StripIdentity(s: string)
    requires s == [] || (!IsSpace(s[0]) && !IsSpace(s[|s| - 1]))
    ensures Strip(s) == s
  {
    if s != [] {
      assert SkipSpaces(s, 0) == 0;
      assert TrimEnd(s, 0, |s|) == |s|;
    }
  }

  /** `s.replace(c, repl)` for a one-character pattern. */
  function Replace(s: string, c: char, repl: string): (r: string)
    ensures c !in repl ==> c !in r
    ensures |repl| == 1 ==>
      |r| == |s| && forall k :: 0 <= k < |s| ==> r[k] == (if s[k] == c then repl[0] else s[k])
  {
    if s == [] then []
    else (if s[0] == c then repl else [s[0]]) + Replace(s[1..], c, repl)
  }

  /** One character becomes the replacement when it is c and stays
      otherwise; with `ReplaceAppend` this fixes the whole result. */
  lemma ReplaceOne(x: char, c: char, repl: string)
    ensures Replace([x], c, repl) == (if x == c then repl else [x])
  {
    assert [x][1..] == [];
  }

  /** Text without the pattern is left as it is. */
  lemma {:induction false} ReplaceAbsent(s: string, c: char, repl: string)
    requires c !in s
    ensures Replace(s, c, repl) == s
  {
    if s != [] {
      assert c !in s[1..];
      ReplaceAbsent(s[1..], c, repl);
      assert [s[0]] + s[1..] == s;
    }
  }

  lemma {:induction false} ReplaceAppend(a: string, b: string, c: char, repl: string)
    ensures Replace(a + b, c, repl) == Replace(a, c, repl) + Replace(b, c, repl)
  {
    if a != [] {
      var head := if a[0] == c then repl else [a[0]];
      calc {
        Replace(a + b, c, repl);
        { assert (a + b)[0] == a[0]; assert (a + b)[1..] == a[1..] + b; }
        head + Replace(a[1..] + b, c, repl);
        { ReplaceAppend(a[1..], b, c, repl); }
        head + (Replace(a[1..], c, repl) + Replace(b, c, repl));
        (head + Replace(a[1..], c, repl)) + Replace(b, c, repl);
        Replace(a, c, repl) + Replace(b, c, repl);
      }
    } else {
      assert a + b == b;
    }
  }

  /** `s.split(c)`: the pieces between occurrences of c. */
  function Split(s: string, c: char): (parts: seq<string>)
    ensures |parts| >= 1
    ensures forall p :: p in parts ==> c !in p
  {
    if s == [] then [""]
    else
      var rest := Split(s[1..], c);
      if s[0] == c then [""] + rest
      else
        assert c !in rest[0];
        [[s[0]] + rest[0]] + rest[1..]
  }

  /** Text without the separator splits into itself. */
  lemma {:induction false} SplitWithout(s: string, c: char)
    requires c !in s
    ensures Split(s, c) == [s]
  {
    if s != [] {
      assert c !in s[1..];
      SplitWithout(s[1..], c);
      assert [s[0]] + s[1..] == s;
    }
  }

  /** `c.join(parts)`, the inverse of Split. */
  function Join(parts: seq<string>, c: char): string
    requires |parts| >= 1
  {
    if |parts| == 1 then parts[0] else parts[0] + [c] + Join(parts[1..], c)
  }

  lemma {:induction false} JoinSplit(s: string, c: char)
    ensures Join(Split(s, c), c) == s
  {
    if s != [] {
      JoinSplit(s[1..], c);
      var rest := Split(s[1..], c);
      assert Join(rest, c) == s[1..];
      if s[0] != c {
        var parts := [[s[0]] + rest[0]] + rest[1..];
        assert Split(s, c) == parts;
        if |rest| > 1 {
          assert parts[1..] == rest[1..];
          assert Join(rest, c) == rest[0] + [c] + Join(rest[1..], c);
          assert Join(parts, c) == [s[0]] + (rest[0] + [c] + Join(rest[1..], c));
        } else {
          assert Join(parts, c) == [s[0]] + rest[0];
        }
        assert [s[0]] + s[1..] == s;
      } else {
        assert ([""] + rest)[1..] == rest;
        assert Join([""] + rest, c) == "" + [c] + Join(rest, c);
        assert [c] + s[1..] == s;
      }
    }
  }

  function DigitValue(c: char): (d: nat)
    requires IsDigit(c)
    ensures d < 10
  {
    c as int - '0' as int
  }

  function DigitChar(d: nat): (c: char)
    requires d < 10
    ensures IsDigit(c) && DigitValue(c) == d
  {
    ('0' as int + d) as char
  }

  /** Python's default `sys.flags.int_max_str_digits`: `int(ds)` raises
      ValueError for a string of more decimal digits than this, and `str(n)`
      for a number that has more. */
  const MaxIntDigits := 4300

  /** Python's `int(ds)` for a string of decimal digits (within `MaxIntDigits`). */
  function DecimalValue(ds: string): nat
    requires AllDigits(ds)
  {
    if ds == [] then 0 else DecimalValue(ds[..|ds| - 1]) * 10 + DigitValue(ds[|ds| - 1])
  }

  /** Python's `str(n)` for n >= 0: decimal digits without leading zeros. */
  function DecimalString(n: nat): (ds: string)
    ensures |ds| >= 1 && AllDigits(ds)
    ensures |ds| > 1 ==> ds[0] != '0'
  {
    if n < 10 then [DigitChar(n)] else DecimalString(n / 10) + [DigitChar(n % 10)]
  }

  lemma {:induction false} DecimalRoundTrip(n: nat)
    ensures DecimalValue(DecimalString(n)) == n
  {
    if n >= 10 {
      DecimalRoundTrip(n / 10);
      var ds := DecimalString(n);
      assert ds[..|ds| - 1] == DecimalString(n / 10);
    }
  }

  /** Python's `str(n)` for any integer. */
  function IntString(n: int): (s: string)
    ensures n >= 0 ==> s == DecimalString(n)
    ensures n < 0 ==> s == "-" + DecimalString(-n)
  {
    if n >= 0 then DecimalString(n) else "-" + DecimalString(-n)
  }

  /** `re.sub(r'[^\d]', '', s)`: the digits of s, in order. */
  function KeepDigits(s: string): (ds: string)
    ensures AllDigits(ds) && |ds| <= |s|
    ensures ds == [] <==> forall k :: 0 <= k < |s| ==> !IsDigit(s[k])
  {
    if s == [] then []
    else (if IsDigit(s[0]) then [s[0]] else []) + KeepDigits(s[1..])
  }

  lemma {:induction false} KeepDigitsAppend(a: string, b: string)
    ensures KeepDigits(a + b) == KeepDigits(a) + KeepDigits(b)
  {
    if a != [] {
      assert (a + b)[1..] == a[1..] + b;
      KeepDigitsAppend(a[1..], b);
    } else {
      assert a + b == b;
    }
  }

  lemma {:induction false} KeepDigitsOfDigits(ds: string)
    requires AllDigits(ds)
    ensures KeepDigits(ds) == ds
  {
    if ds != [] {
      KeepDigitsOfDigits(ds[1..]);
    }
  }

  // ---------------------------------------------------------------------------
  // Percent-encoding (`urllib.parse.quote` with its default safe set "/")

  /** The unreserved characters of section 2.3 of RFC 3986, which `quote` never encodes. */
  predicate IsUnreserved(c: char) {
    IsLetter(c) || IsDigit(c) || c == '-' || c == '.' || c == '_' || c == '~'
  }

  predicate KeptByQuote(c: char) { IsUnreserved(c) || c == '/' }

  predicate IsHexUpper(c: char) { IsDigit(c) || 'A' <= c <= 'F' }

  function HexDigit(d: nat): (c: char)
    requires d < 16
    ensures IsHexUpper(c)
  {
    if d < 10 then DigitChar(d) else ('A' as int + d - 10) as char
  }

  function HexValue(c: char): (d: nat)
    requires IsHexUpper(c)
    ensures d < 16
  {
    if IsDigit(c) then DigitValue(c) else c as int - 'A' as int + 10
  }

  lemma HexRoundTrip(d: nat)
    requires d < 16
    ensures HexValue(HexDigit(d)) == d
  {
  }

  /** The bytes of a character's UTF-8 encoding. */
  function Utf8(c: char): (bytes: seq<nat>)
    ensures 1 <= |bytes| <= 4 && forall k :: 0 <= k < |bytes| ==> bytes[k] < 256
    ensures c as int < 128 ==> bytes == [c as int]
  {
    var n := c as int;
    if n < 0x80 then [n]
    else if n < 0x800 then [0xC0 + n / 64, 0x80 + n % 64]
    else if n < 0x10000 then [0xE0 + n / 4096, 0x80 + (n / 64) % 64, 0x80 + n % 64]
    else [0xF0 + n / 262144, 0x80 + (n / 4096) % 64, 0x80 + (n / 64) % 64, 0x80 + n % 64]
  }

  /** "%XY" for each byte, with upper-case hexadecimal digits (section 2.1 of RFC 3986). */
  function PercentBytes(bytes: seq<nat>): (r: string)
    requires forall k :: 0 <= k < |bytes| ==> bytes[k] < 256
    ensures |r| == 3 * |bytes| && forall k :: 0 <= k < |r| ==> r[k] == '%' || IsHexUpper(r[k])
  {
    if bytes == [] then []
    else ['%', HexDigit(bytes[0] / 16), HexDigit(bytes[0] % 16)] + PercentBytes(bytes[1..])
  }

  function QuoteChar(c: char): string {
    if KeptByQuote(c) then [c] else PercentBytes(Utf8(c))
  }

  /** `urllib.parse.quote(s)`: every character outside the unreserved set and
      "/" becomes the percent-encoding of its UTF-8 bytes. */
  function Quote(s: string): (r: string)
    ensures forall k :: 0 <= k < |r| ==> KeptByQuote(r[k]) || r[k] == '%'
  {
    if s == [] then [] else QuoteChar(s[0]) + Quote(s[1..])
  }

  /** A blank and a comma are always encoded. */
  lemma QuoteEncodes(s: string)
    ensures ' ' !in Quote(s) && ',' !in Quote(s)
  {
    var r := Quote(s);
    assert forall k :: 0 <= k < |r| ==> r[k] != ' ' && r[k] != ',';
  }

  /** Percent-decoding of single bytes: each "%XY" becomes the character with
      code 0xXY. On the output of Quote over ASCII text it inverts Quote. */
  function UnquoteAscii(s: string): string {
    if s == [] then []
    else if |s| >= 3 && s[0] == '%' && IsHexUpper(s[1]) && IsHexUpper(s[2])
    then [(HexValue(s[1]) * 16 + HexValue(s[2])) as char] + UnquoteAscii(s[3..])
    else [s[0]] + UnquoteAscii(s[1..])
  }

  predicate IsAscii(s: string) { forall k :: 0 <= k < |s| ==> s[k] as int < 128 }

  lemma {:induction false} ReplaceAscii(s: string, c: char, repl: string)
    requires IsAscii(s) && IsAscii(repl)
    ensures IsAscii(Replace(s, c, repl))
  {
    if s != [] {
      ReplaceAscii(s[1..], c, repl);
      var head := if s[0] == c then repl else [s[0]];
      var r := Replace(s, c, repl);
      assert r == head + Replace(s[1..], c, repl);
      assert forall k :: 0 <= k < |head| ==> r[k] == head[k];
      assert forall k :: |head| <= k < |r| ==> r[k] == Replace(s[1..], c, repl)[k - |head|];
    }
  }

  /** Text made only of kept characters is left as it is. */
  lemma {:induction false} QuoteKept(s: string)
    requires forall k :: 0 <= k < |s| ==> KeptByQuote(s[k])
    ensures Quote(s) == s
  {
    if s != [] {
      QuoteKept(s[1..]);
    }
  }

  lemma {:induction false} QuoteRoundTrip(s: string)
    requires IsAscii(s)
    ensures UnquoteAscii(Quote(s)) == s
  {
    if s != [] {
      QuoteRoundTrip(s[1..]);
      var c := s[0];
      var rest := Quote(s[1..]);
      if KeptByQuote(c) {
        assert Quote(s) == [c] + rest;
        assert (([c] + rest)[1..]) == rest;
      } else {
        var n := c as int;
        assert Utf8(c) == [n];
        var q := ['%', HexDigit(n / 16), HexDigit(n % 16)];
        assert PercentBytes([n]) == q + [] by {
          assert [n][1..] == [];
        }
        assert Quote(s) == q + rest;
        HexRoundTrip(n / 16);
        HexRoundTrip(n % 16);
        assert (q + rest)[3..] == rest;
      }
    }
  }
}
