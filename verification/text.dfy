/** String helpers shared by the Java and C# services: trimming, blank
    tests and decimal rendering of integers. */
module Text {
  import Wrappers

  /** What Java's `String.trim()` strips: every char up to U+0020. */
  predicate JavaTrimmable(c: char) {
    c <= ' '
  }

  /** .NET `char.IsWhiteSpace`, which `string.Trim()` strips and
      `string.IsNullOrWhiteSpace` tests. */
  predicate DotNetWhiteSpace(c: char) {
    var v := c as int;
    (0x09 <= v <= 0x0D) || v == 0x20 || v == 0x85 || v == 0xA0 || v == 0x1680 ||
    (0x2000 <= v <= 0x200A) || v == 0x2028 || v == 0x2029 || v == 0x202F ||
    v == 0x205F || v == 0x3000
  }

  /** Every char of `s` is one that `strip` removes (the empty string included). */
  predicate AllStripped(s: string, strip: char -> bool) {
    forall i :: 0 <= i < |s| ==> strip(s[i])
  }

  function TrimStart(s: string, strip: char -> bool): (r: string)
    ensures |r| <= |s| && r == s[|s| - |r|..]
    ensures r == [] || !strip(r[0])
    ensures AllStripped(s[..|s| - |r|], strip)
    decreases |s|
  {
    if |s| > 0 && strip(s[0]) then
      var r := TrimStart(s[1..], strip);
      assert s[1..][..|s| - 1 - |r|] == s[1..|s| - |r|];
      assert s[..|s| - |r|] == [s[0]] + s[1..|s| - |r|];
      assert s[|s| - |r|..] == s[1..][|s| - 1 - |r|..];
      r
    else s
  }

  function TrimEnd(s: string, strip: char -> bool): (r: string)
    ensures |r| <= |s| && r == s[..|r|]
    ensures r == [] || !strip(r[|r| - 1])
    ensures AllStripped(s[|r|..], strip)
    decreases |s|
  {
    if |s| > 0 && strip(s[|s| - 1]) then
      var r := TrimEnd(s[..|s| - 1], strip);
      assert s[..|s| - 1][|r|..] == s[|r|..|s| - 1];
      assert s[|r|..] == s[|r|..|s| - 1] + [s[|s| - 1]];
      assert s[..|r|] == s[..|s| - 1][..|r|];
      r
    else s
  }

  /** Removes the leading and trailing chars that `strip` selects; the
      result neither starts nor ends with such a char (`TrimSlice` says
      where in `s` it lies and what was cut away). */
  function Trim(s: string, strip: char -> bool): (r: string)
    ensures |r| <= |s|
    ensures r == [] || (!strip(r[0]) && !strip(r[|r| - 1]))
  {
    var t := TrimStart(s, strip);
    var r := TrimEnd(t, strip);
    assert r != [] ==> r[0] == t[0];
    r
  }

  /** The trimmed string is the contiguous slice of `s` that starts where
      `TrimStart` stopped. */
  lemma TrimSlice(s: string, strip: char -> bool)
    ensures var r := Trim(s, strip); var i := |s| - |TrimStart(s, strip)|;
      i + |r| <= |s| && r == s[i..i + |r|]
  {
    var t := TrimStart(s, strip);
    var r := TrimEnd(t, strip);
    assert Trim(s, strip) == r;
    PrefixOfSuffix(s, |s| - |t|, |r|);
  }

  lemma PrefixOfSuffix(s: string, i: nat, n: nat)
    requires i + n <= |s|
    ensures s[i..][..n] == s[i..i + n]
  {
  }

  lemma SuffixOfSuffix(s: string, i: nat, n: nat)
    requires i + n <= |s|
    ensures s[i..][n..] == s[i + n..]
  {
  }

  /** Everything `Trim` cuts off on either side of that slice is strippable. */
  lemma TrimCutStripped(s: string, strip: char -> bool)
    ensures var r := Trim(s, strip); var i := |s| - |TrimStart(s, strip)|;
      i + |r| <= |s| && AllStripped(s[..i], strip) && AllStripped(s[i + |r|..], strip)
  {
    var t := TrimStart(s, strip);
    var r := TrimEnd(t, strip);
    assert Trim(s, strip) == r;
    SuffixOfSuffix(s, |s| - |t|, |r|);
  }

  function JavaTrim(s: string): string {
    Trim(s, JavaTrimmable)
  }

  function DotNetTrim(s: string): string {
    Trim(s, DotNetWhiteSpace)
  }

  /** `s.trim().isEmpty()` holds exactly for strings made only of strippable chars. */
  lemma {:induction false} TrimEmptyIffAllStripped(s: string, strip: char -> bool)
    ensures Trim(s, strip) == [] <==> AllStripped(s, strip)
  {
    var t := TrimStart(s, strip);
    if !AllStripped(s, strip) {
      var k :| 0 <= k < |s| && !strip(s[k]);
      assert t != [] by {
        assert s[..|s|] == s;
      }
      assert !strip(t[0]);
    }
  }

  /** Trimming twice is trimming once. */
  lemma {:induction false} TrimIdempotent(s: string, strip: char -> bool)
    ensures Trim(Trim(s, strip), strip) == Trim(s, strip)
  {
    var r := Trim(s, strip);
    assert TrimStart(r, strip) == r;
    assert TrimEnd(r, strip) == r;
  }

  /** `string.IsNullOrWhiteSpace` for a non-null string. */
  predicate IsWhiteSpaceOnly(s: string) {
    AllStripped(s, DotNetWhiteSpace)
  }

  /** `string.IsNullOrWhiteSpace`: null, empty, or white space only. */
  predicate IsNullOrWhiteSpace(s: Wrappers.Option<string>) {
    s.None? || IsWhiteSpaceOnly(s.value)
  }

  // ---------------------------------------------------------------------
  // Decimal rendering

  function DigitChar(d: int): char
    requires 0 <= d < 10
  {
    ('0' as int + d) as char
  }

  /** The decimal digits of a natural number, most significant first. */
  function NatDigits(n: nat): (s: string)
    ensures |s| >= 1
    ensures forall i :: 0 <= i < |s| ==> '0' <= s[i] <= '9'
    ensures n < 10 <==> |s| == 1
  {
    if n < 10 then [DigitChar(n)] else NatDigits(n / 10) + [DigitChar(n % 10)]
  }

  /** `Integer.toString` / string concatenation of an int. */
  function IntToString(n: int): (s: string)
    ensures |s| >= 1
    ensures s[0] == '-' <==> n < 0
  {
    if n < 0 then "-" + NatDigits(-n) else NatDigits(n)
  }

  function DigitsValue(s: string): nat
    requires forall i :: 0 <= i < |s| ==> '0' <= s[i] <= '9'
  {
    if s == [] then 0 else DigitsValue(s[..|s| - 1]) * 10 + (s[|s| - 1] as int - '0' as int)
  }

  /** Reading the digits back gives the number. */
  lemma {:induction false} NatDigitsRoundTrip(n: nat)
    ensures DigitsValue(NatDigits(n)) == n
  {
    if n >= 10 {
      var s := NatDigits(n);
      assert s[..|s| - 1] == NatDigits(n / 10);
      NatDigitsRoundTrip(n / 10);
    }
  }

  lemma {:induction false} NatDigitsInjective(a: nat, b: nat)
    requires NatDigits(a) == NatDigits(b)
    ensures a == b
  {
    NatDigitsRoundTrip(a);
    NatDigitsRoundTrip(b);
  }

  /** Different numbers render differently. */
  lemma {:induction false} IntToStringInjective(m: int, n: int)
    requires IntToString(m) == IntToString(n)
    ensures m == n
  {
    if m < 0 {
      assert n < 0;
      assert NatDigits(-m) == NatDigits(-n) by {
        assert NatDigits(-m) == IntToString(m)[1..];
        assert NatDigits(-n) == IntToString(n)[1..];
      }
      NatDigitsInjective(-m, -n);
    } else {
      assert n >= 0;
      NatDigitsInjective(m, n);
    }
  }

  // ---------------------------------------------------------------------
  // Blank tests, splitting and joining

  /** Java's `Character.isWhitespace`: the space, line and paragraph
      separators other than the no-break spaces, and the ASCII controls
      TAB to CR and FS to US. */
  predicate JavaWhitespace(c: char) {
    var v := c as int;
    (0x09 <= v <= 0x0D) || (0x1C <= v <= 0x20) || v == 0x1680 ||
    (0x2000 <= v <= 0x2006) || (0x2008 <= v <= 0x200A) || v == 0x2028 || v == 0x2029 ||
    v == 0x205F || v == 0x3000
  }

  /** `String.isBlank()`. */
  predicate JavaBlank(s: string) {
    AllStripped(s, JavaWhitespace)
  }

  /** Spring's `StringUtils.hasText` for a non-null string. */
  predicate HasText(s: string) {
    !JavaBlank(s)
  }

  /** The position of the first `c` in `s`. */
  function IndexOf(s: string, c: char): (i: nat)
    requires c in s
    ensures i < |s| && s[i] == c && c !in s[..i]
  {
    if s[0] == c then 0
    else
      var i := IndexOf(s[1..], c);
      assert s[..i + 1] == [s[0]] + s[1..][..i];
      i + 1
  }

  /** The fields of `s` between occurrences of `c`, empty fields included. */
  function Split(s: string, c: char): (r: seq<string>)
    ensures |r| >= 1
    ensures forall k :: 0 <= k < |r| ==> c !in r[k]
    decreases |s|
  {
    if c !in s then [s]
    else
      var i := IndexOf(s, c);
      [s[..i]] + Split(s[i + 1..], c)
  }

  /** The fields joined with `c` between neighbours. */
  function Join(fields: seq<string>, c: char): string {
    if fields == [] then []
    else if |fields| == 1 then fields[0]
    else fields[0] + [c] + Join(fields[1..], c)
  }

  /** The first separator after a field without one is the one right
      after it. */
  lemma IndexOfAfterField(head: string, c: char, rest: string)
    requires c !in head
    ensures c in head + [c] + rest && IndexOf(head + [c] + rest, c) == |head|
  {
    var s := head + [c] + rest;
    assert s[|head|] == c;
    var i := IndexOf(s, c);
    assert forall j :: 0 <= j < |head| ==> s[j] == head[j];
    assert forall j :: 0 <= j < i ==> s[..i][j] == s[j];
  }

  /** Splitting a join gives back the fields, provided none contains the
      separator. */
  lemma {:induction false} SplitJoin(fields: seq<string>, c: char)
    requires |fields| >= 1
    requires forall k :: 0 <= k < |fields| ==> c !in fields[k]
    ensures Split(Join(fields, c), c) == fields
  {
    if |fields| > 1 {
      var head := fields[0];
      var rest := Join(fields[1..], c);
      var s := head + [c] + rest;
      assert Join(fields, c) == s;
      IndexOfAfterField(head, c, rest);
      assert s[..|head|] == head && s[|head| + 1..] == rest;
      assert Split(s, c) == [head] + Split(rest, c);
      SplitJoin(fields[1..], c);
      assert fields == [head] + fields[1..];
    }
  }

  lemma {:induction false} JoinAppend(fields: seq<string>, f: string, c: char)
    requires fields != []
    ensures Join(fields + [f], c) == Join(fields, c) + [c] + f
  {
    if |fields| > 1 {
      assert (fields + [f])[1..] == fields[1..] + [f];
      JoinAppend(fields[1..], f, c);
    }
  }

  /** A join of non-empty fields starts with the first field's first char
      and ends with the last field's last char. */
  lemma {:induction false} JoinEnds(fields: seq<string>, c: char)
    requires |fields| >= 1
    requires forall k :: 0 <= k < |fields| ==> fields[k] != []
    ensures var j := Join(fields, c);
      |j| >= 1 && j[0] == fields[0][0] && j[|j| - 1] == fields[|fields| - 1][|fields[|fields| - 1]| - 1]
  {
    if |fields| > 1 {
      JoinEnds(fields[1..], c);
    }
  }

  /** A string that neither starts nor ends with a strippable char is its own trim. */
  lemma TrimNoop(s: string, strip: char -> bool)
    requires IsTrimmed(s, strip)
    ensures Trim(s, strip) == s
  {
  }

  /** Neither the first nor the last char is one `strip` removes. */
  predicate IsTrimmed(s: string, strip: char -> bool) {
    s == [] || (!strip(s[0]) && !strip(s[|s| - 1]))
  }

  /** A string is its own trim exactly when it is trimmed. */
  lemma TrimmedIff(s: string, strip: char -> bool)
    ensures IsTrimmed(s, strip) <==> Trim(s, strip) == s
  {
  }

  /** Concatenation regrouped. */
  lemma ConcatAssoc(a: string, b: string, c: string)
    ensures (a + b) + c == a + (b + c)
  {
  }
}
