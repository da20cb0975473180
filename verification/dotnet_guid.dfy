/** `System.Guid` as the C# validators and services use it: 32 hex digits,
    written in the hyphenated 8-4-4-4-12 form (the "D" format) by
    `ToString()` and read back by `Guid.Parse` / `Guid.TryParse`. */
module DotNetGuid {
  import opened Wrappers
  import opened Text

  predicate IsNibbles(s: seq<int>) {
    |s| == 32 && forall i :: 0 <= i < |s| ==> 0 <= s[i] < 16
  }

  /** The 32 hex digits of a GUID, in the order they are written. */
  type Guid = s: seq<int> | IsNibbles(s) witness [0, 0, 0, 0, 0, 0, 0, 0, 0, 0, 0, 0, 0, 0, 0, 0, 0, 0, 0, 0, 0, 0, 0, 0, 0, 0, 0, 0, 0, 0, 0, 0]

  /** `Guid.Empty`, all zeros. */
  const Empty: Guid := [0, 0, 0, 0, 0, 0, 0, 0, 0, 0, 0, 0, 0, 0, 0, 0, 0, 0, 0, 0, 0, 0, 0, 0, 0, 0, 0, 0, 0, 0, 0, 0]

  predicate IsHexChar(c: char) {
    '0' <= c <= '9' || 'a' <= c <= 'f' || 'A' <= c <= 'F'
  }

  /** The value of a hex digit, upper or lower case. */
  function NibbleOf(c: char): (n: int)
    requires IsHexChar(c)
    ensures 0 <= n < 16
  {
    if '0' <= c <= '9' then c as int - '0' as int
    else if 'a' <= c <= 'f' then c as int - 'a' as int + 10
    else c as int - 'A' as int + 10
  }

  /** The lower-case digit `ToString()` writes. */
  function NibbleChar(n: int): (c: char)
    requires 0 <= n < 16
    ensures IsHexChar(c) && NibbleOf(c) == n && !DotNetWhiteSpace(c) && c != '-'
  {
    "0123456789abcdef"[n]
  }

  function HexText(s: seq<int>): (t: string)
    requires forall i :: 0 <= i < |s| ==> 0 <= s[i] < 16
    ensures |t| == |s| && forall i :: 0 <= i < |t| ==> t[i] == NibbleChar(s[i])
  {
    seq(|s|, i requires 0 <= i < |s| => NibbleChar(s[i]))
  }

  /** `ToString()`: "xxxxxxxx-xxxx-xxxx-xxxx-xxxxxxxxxxxx" in lower case. */
  function Format(g: Guid): (t: string)
    ensures |t| == 36
  {
    HexText(g[..8]) + "-" + HexText(g[8..12]) + "-" + HexText(g[12..16]) + "-" +
    HexText(g[16..20]) + "-" + HexText(g[20..])
  }

  /** The digits of a 36-char text once its four hyphens are taken out. */
  function DigitsOf(t: string): (d: string)
    requires |t| == 36
    ensures |d| == 32
  {
    t[..8] + t[9..13] + t[14..18] + t[19..23] + t[24..]
  }

  /** A 36-char text with hyphens at 8, 13, 18 and 23 and hex digits elsewhere. */
  predicate IsHyphenated(t: string) {
    |t| == 36 && t[8] == '-' && t[13] == '-' && t[18] == '-' && t[23] == '-' &&
    forall i :: 0 <= i < 32 ==> IsHexChar(DigitsOf(t)[i])
  }

  /** `Guid.TryParse` for the hyphenated form: surrounding white space is
      ignored, and a null or malformed text gives no GUID. */
  function TryParse(s: Option<string>): (r: Option<Guid>)
    ensures r.Some? ==> s.Some? && IsHyphenated(DotNetTrim(s.value))
  {
    if s.None? then None
    else
      var t := DotNetTrim(s.value);
      if IsHyphenated(t) then
        var d := DigitsOf(t);
        Some(seq(32, i requires 0 <= i < 32 => NibbleOf(d[i])))
      else None
  }

  /** The hyphenated layout of five digit groups of the right lengths. */
  lemma {:induction false} Layout(a: string, b: string, c: string, d: string, e: string)
    requires |a| == 8 && |b| == 4 && |c| == 4 && |d| == 4 && |e| == 12
    ensures var t := a + "-" + b + "-" + c + "-" + d + "-" + e;
      |t| == 36 && t[8] == '-' && t[13] == '-' && t[18] == '-' && t[23] == '-' &&
      DigitsOf(t) == a + b + c + d + e && t[0] == a[0] && t[35] == e[11]
  {
    var t := a + "-" + b + "-" + c + "-" + d + "-" + e;
    assert t[..8] == a;
    assert t[9..13] == b;
    assert t[14..18] == c;
    assert t[19..23] == d;
    assert t[24..] == e;
  }

  /** The digit groups of a GUID, written one after the other, are its digits. */
  lemma GroupsConcat(g: Guid)
    ensures HexText(g[..8]) + HexText(g[8..12]) + HexText(g[12..16]) + HexText(g[16..20]) + HexText(g[20..])
      == HexText(g)
  {
  }

  /** Reading the written digits gives the digits back. */
  lemma ReadDigits(g: Guid)
    ensures seq(32, i requires 0 <= i < 32 => NibbleOf(HexText(g)[i])) == g
  {
  }

  /** Every written GUID reads back as itself, so `ToString()` is never
      empty and never loses information. */
  lemma ParseFormat(g: Guid)
    ensures Format(g) != []
    ensures TryParse(Some(Format(g))) == Some(g)
  {
    var t := Format(g);
    Layout(HexText(g[..8]), HexText(g[8..12]), HexText(g[12..16]), HexText(g[16..20]), HexText(g[20..]));
    GroupsConcat(g);
    assert DigitsOf(t) == HexText(g);
    assert IsTrimmed(t, DotNetWhiteSpace);
    TrimNoop(t, DotNetWhiteSpace);
    assert IsHyphenated(t);
    ReadDigits(g);
  }

  /** Two GUIDs with the same text are the same GUID. */
  lemma FormatInjective(g: Guid, h: Guid)
    requires Format(g) == Format(h)
    ensures g == h
  {
    ParseFormat(g);
    ParseFormat(h);
  }

  /** Blank text never parses. */
  lemma BlankDoesNotParse(s: string)
    requires IsWhiteSpaceOnly(s)
    ensures TryParse(Some(s)).None?
  {
    TrimEmptyIffAllStripped(s, DotNetWhiteSpace);
  }
}
