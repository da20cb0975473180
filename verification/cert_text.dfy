/** The text files the certificate service writes next to the generated
    keys: PEM armour around base64 text (section 2 of RFC 7468), and a C
    header that lists the DER bytes as a `unsigned char` array for the
    device firmware.  The base64 encoder (section 4 of RFC 4648) is a
    library call, so its output is a parameter here. */
module CertText {
  import opened Text

  /** A Java `byte`: a signed 8-bit value. */
  type JByte = x: int | -128 <= x < 128

  // ---------------------------------------------------------------------
  // PEM

  const PemLineWidth: nat := 64

  /** The base64 text cut into consecutive lines of 64 chars, only the last
      one possibly shorter; no line is empty. */
  function Chunks(s: string): (r: seq<string>)
    ensures forall k :: 0 <= k < |r| ==> 0 < |r[k]| <= PemLineWidth
    ensures forall k :: 0 <= k < |r| - 1 ==> |r[k]| == PemLineWidth
    decreases |s|
  {
    if s == [] then []
    else if |s| <= PemLineWidth then [s]
    else [s[..PemLineWidth]] + Chunks(s[PemLineWidth..])
  }

  function Flatten(pieces: seq<string>): string {
    if pieces == [] then [] else pieces[0] + Flatten(pieces[1..])
  }

  /** Gluing the lines back together gives the text, and there are
      ceil(|s| / 64) of them. */
  lemma {:induction false} ChunksRoundTrip(s: string)
    ensures Flatten(Chunks(s)) == s
    ensures |Chunks(s)| == (|s| + PemLineWidth - 1) / PemLineWidth
    decreases |s|
  {
    if |s| > PemLineWidth {
      ChunksRoundTrip(s[PemLineWidth..]);
      assert Chunks(s)[1..] == Chunks(s[PemLineWidth..]);
      assert s[..PemLineWidth] + s[PemLineWidth..] == s;
    }
  }

  /** Every char of a line is a char of the text. */
  lemma {:induction false} ChunkWithin(s: string, k: nat)
    requires k < |Chunks(s)|
    ensures forall x :: x in Chunks(s)[k] ==> x in s
    decreases |s|
  {
    if |s| > PemLineWidth && k > 0 {
      assert Chunks(s)[k] == Chunks(s[PemLineWidth..])[k - 1];
      ChunkWithin(s[PemLineWidth..], k - 1);
    }
  }

  function BeginLine(pemType: string): string {
    "-----BEGIN " + pemType + "-----"
  }

  function EndLine(pemType: string): string {
    "-----END " + pemType + "-----"
  }

  /** Each body line followed by its line feed. */
  function PemBody(lines: seq<string>): string {
    if lines == [] then [] else lines[0] + "\n" + PemBody(lines[1..])
  }

  /** The PEM text `writePem` produces for the base64 text of the DER bytes. */
  function Pem(pemType: string, base64: string): string {
    BeginLine(pemType) + "\n" + PemBody(Chunks(base64)) + EndLine(pemType) + "\n"
  }

  /** `writePem` without the file write: the text builder, 64 chars at a time. */
  method WritePem(pemType: string, base64: string) returns (text: string)
    ensures text == Pem(pemType, base64)
  {
    var sb := "-----BEGIN " + pemType + "-----\n";
    var index := 0;
    while index < |base64|
      invariant 0 <= index <= |base64|
      invariant sb + PemBody(Chunks(base64[index..])) ==
        BeginLine(pemType) + "\n" + PemBody(Chunks(base64))
      decreases |base64| - index
    {
      var end := if index + 64 < |base64| then index + 64 else |base64|;
      ghost var rest := base64[index..];
      assert base64[index..end] == rest[..end - index];
      assert base64[end..] == rest[end - index..];
      sb := sb + base64[index..end] + "\n";
      index := end;
    }
    assert base64[index..] == [];
    sb := sb + "-----END " + pemType + "-----\n";
    text := sb;
  }

  /** The body lines `PemBody` writes are the fields between line feeds. */
  lemma {:induction false} PemBodyJoin(lines: seq<string>, last: seq<string>)
    requires last != []
    ensures PemBody(lines) + Join(last, '\n') == Join(lines + last, '\n')
    decreases |lines|
  {
    if lines != [] {
      PemBodyJoin(lines[1..], last);
      var all := lines + last;
      assert all[0] == lines[0] && all[1..] == lines[1..] + last && |all| > 1;
      assert Join(all, '\n') == lines[0] + "\n" + Join(all[1..], '\n');
      var head := lines[0] + "\n";
      assert PemBody(lines) == head + PemBody(lines[1..]);
      assert (head + PemBody(lines[1..])) + Join(last, '\n') == head + (PemBody(lines[1..]) + Join(last, '\n'));
    } else {
      assert lines + last == last;
    }
  }

  /** No line of a PEM text holds a line feed of its own. */
  lemma PemFieldsClean(pemType: string, base64: string)
    requires '\n' !in pemType && '\n' !in base64
    ensures var fields := [BeginLine(pemType)] + Chunks(base64) + [EndLine(pemType), ""];
      forall k :: 0 <= k < |fields| ==> '\n' !in fields[k]
  {
    var body := Chunks(base64);
    forall k | 0 <= k < |body|
      ensures '\n' !in body[k]
    {
      ChunkWithin(base64, k);
    }
  }

  /** Read line by line, a PEM text is its BEGIN line, the base64 text in
      lines of 64 chars (the last one possibly shorter), the END line and
      the empty rest after the final line feed; the body lines put together
      give the base64 text back. */
  lemma PemLines(pemType: string, base64: string)
    requires '\n' !in pemType && '\n' !in base64
    ensures Split(Pem(pemType, base64), '\n') ==
      [BeginLine(pemType)] + Chunks(base64) + [EndLine(pemType), ""]
    ensures Flatten(Chunks(base64)) == base64
    ensures |Chunks(base64)| == (|base64| + 63) / 64
  {
    var body := Chunks(base64);
    var first := BeginLine(pemType);
    var tail := [EndLine(pemType), ""];
    var fields := [first] + body + tail;
    assert Join(fields, '\n') == Pem(pemType, base64) by {
      assert Join(tail, '\n') == EndLine(pemType) + "\n";
      PemBodyJoin([first] + body, tail);
      assert ([first] + body)[1..] == body;
      assert PemBody([first] + body) == first + "\n" + PemBody(body);
    }
    PemFieldsClean(pemType, base64);
    ChunksRoundTrip(base64);
    SplitJoin(fields, '\n');
  }

  // ---------------------------------------------------------------------
  // C header

  /** `data[i] & 0xff`: the unsigned value of a byte. */
  function Unsigned(b: JByte): (r: nat)
    ensures r < 256
    ensures b >= 0 ==> r == b
    ensures b < 0 ==> r == b + 256
  {
    b % 256
  }

  function HexDigit(d: nat): char
    requires d < 16
  {
    "0123456789abcdef"[d]
  }

  /** The value of a lowercase hex digit. */
  function HexValue(c: char): int {
    if '0' <= c <= '9' then c as int - '0' as int else c as int - 'a' as int + 10
  }

  /** `String.format("0x%02x", b & 0xff)`. */
  function HexByte(b: JByte): string {
    var u := Unsigned(b);
    "0x" + [HexDigit(u / 16), HexDigit(u % 16)]
  }

  /** A byte is written as `0x` and two lowercase hex digits that read back
      as its unsigned value. */
  lemma HexByteDecodes(b: JByte)
    ensures var h := HexByte(b);
      |h| == 4 && h[..2] == "0x" &&
      ('0' <= h[2] <= '9' || 'a' <= h[2] <= 'f') && ('0' <= h[3] <= '9' || 'a' <= h[3] <= 'f') &&
      16 * HexValue(h[2]) + HexValue(h[3]) == Unsigned(b)
  {
    var u := Unsigned(b);
    HexDigitValue(u / 16);
    HexDigitValue(u % 16);
  }

  lemma HexDigitValue(d: nat)
    requires d < 16
    ensures '0' <= HexDigit(d) <= '9' || 'a' <= HexDigit(d) <= 'f'
    ensures HexValue(HexDigit(d)) == d
  {
  }

  /** The indent that opens a row: written before the byte in column 0. */
  function Indent(col: nat): string {
    if col == 0 then "  " else ""
  }

  /** The column after `col` in a row of twelve. */
  function NextCol(col: nat): nat {
    if col == 11 then 0 else col + 1
  }

  /** The array text `writeCHdr` writes for the bytes `rest` when the next
      byte goes in column `col`: each byte is followed by `, ` unless it is
      the last, and by a line feed when it ends a row or the data. */
  function Tail(rest: seq<JByte>, col: nat): string
    requires col < 12
    decreases |rest|
  {
    if rest == [] then []
    else
      Indent(col) + HexByte(rest[0]) + (if |rest| > 1 then ", " else "") +
      (if col == 11 || |rest| == 1 then "\n" else "") + Tail(rest[1..], NextCol(col))
  }

  /** The array text for all the bytes, the first in column 0. */
  function ArrayBody(data: seq<JByte>): string {
    Tail(data, 0)
  }

  /** The C header `writeCHdr` produces. */
  function CHeader(headerGuard: string, varName: string, data: seq<JByte>): string {
    "#ifndef " + headerGuard + "\n" + "#define " + headerGuard + "\n\n" +
    "unsigned char " + varName + "[] = {\n" + ArrayBody(data) + "};\n\n" + "#endif\n"
  }

  /** Byte `i`'s column is `i % 12`, and the next byte's column follows it. */
  lemma ColStep(i: nat)
    ensures i % 12 < 12 && (i + 1) % 12 == NextCol(i % 12)
  {
  }

  /** The body of one iteration of the loop in `writeCHdr`: what it writes
      for byte `i`, followed by the text for the bytes after it, is the
      text for the bytes from `i` on. */
  method EmitPiece(data: seq<JByte>, i: nat) returns (piece: string)
    requires i < |data|
    ensures piece + Tail(data[i + 1..], (i + 1) % 12) == Tail(data[i..], i % 12)
  {
    piece := "";
    if i % 12 == 0 {
      piece := "  ";
    }
    piece := piece + HexByte(data[i]);
    if i < |data| - 1 {
      piece := piece + ", ";
    }
    if i % 12 == 11 || i == |data| - 1 {
      piece := piece + "\n";
    }
    ColStep(i);
    assert data[i..][1..] == data[i + 1..];
  }

  /** `writeCHdr` without the file write. */
  method WriteCHdr(headerGuard: string, varName: string, data: seq<JByte>) returns (text: string)
    ensures text == CHeader(headerGuard, varName, data)
  {
    var sb := "#ifndef " + headerGuard + "\n";
    sb := sb + "#define " + headerGuard + "\n\n";
    sb := sb + "unsigned char " + varName + "[] = {\n";
    ghost var head := sb;
    assert data[0..] == data;
    for i := 0 to |data|
      invariant sb + Tail(data[i..], i % 12) == head + ArrayBody(data)
    {
      var piece := EmitPiece(data, i);
      ConcatAssoc(sb, piece, Tail(data[i + 1..], (i + 1) % 12));
      sb := sb + piece;
    }
    assert data[|data|..] == [];
    sb := sb + "};\n\n";
    sb := sb + "#endif\n";
    text := sb;
  }

  // The same text described row by row.

  /** The hex forms of `row` separated by `, `. */
  function Listed(row: seq<JByte>): string {
    if row == [] then []
    else if |row| == 1 then HexByte(row[0])
    else HexByte(row[0]) + ", " + Listed(row[1..])
  }

  /** The bytes in rows of twelve, each row indented by two spaces and
      ended by a line feed; a row that is not the last keeps the `, `
      after its last byte, so its line ends in `, `. */
  function Rows(data: seq<JByte>): string
    decreases |data|
  {
    if data == [] then []
    else if |data| <= 12 then "  " + Listed(data) + "\n"
    else "  " + Listed(data[..12]) + ", \n" + Rows(data[12..])
  }

  /** From column `col`, the bytes that fit in the row go on it, and the
      next row starts afresh. */
  lemma {:induction false} TailInRow(d: seq<JByte>, col: nat)
    requires col < 12 && d != []
    ensures |d| > 12 - col ==>
      Tail(d, col) == Indent(col) + Listed(d[..12 - col]) + ", \n" + Tail(d[12 - col..], 0)
    ensures |d| <= 12 - col ==> Tail(d, col) == Indent(col) + Listed(d) + "\n"
    decreases 12 - col
  {
    if |d| == 1 {
      LastByte(d, col);
    } else if col == 11 {
      RowLastColumn(d);
    } else {
      var rest := d[1..];
      TailInRow(rest, col + 1);
      if |d| > 12 - col {
        assert |rest| > 12 - (col + 1);
        RowContinues(d, col);
      } else {
        assert |rest| <= 12 - (col + 1);
        RowEnds(d, col);
      }
    }
  }

  /** The last byte ends its row with a line feed and no `, `. */
  lemma LastByte(d: seq<JByte>, col: nat)
    requires col < 12 && |d| == 1
    ensures Tail(d, col) == Indent(col) + Listed(d) + "\n"
  {
    assert Tail(d, col) == Indent(col) + HexByte(d[0]) + "" + "\n" + [];
  }

  /** A byte in the last column, with more to come, ends its row with `, `
      and a line feed; the next byte opens a new row. */
  lemma RowLastColumn(d: seq<JByte>)
    requires |d| > 1
    ensures Tail(d, 11) == Indent(11) + Listed(d[..1]) + ", \n" + Tail(d[1..], 0)
  {
    var hex, after := HexByte(d[0]), Tail(d[1..], 0);
    assert Listed(d[..1]) == hex;
    assert Tail(d, 11) == "" + hex + ", " + "\n" + after;
    RowBreak("" + hex, after);
  }

  lemma RowBreak(entry: string, after: string)
    ensures entry + ", " + "\n" + after == entry + ", \n" + after
  {
    assert ", " + "\n" == ", \n";
    ConcatAssoc(entry, ", ", "\n");
  }

  /** A byte that is neither last nor ends the row is followed by `, ` and
      the text for the bytes after it. */
  lemma TailMidRow(d: seq<JByte>, col: nat)
    requires col < 11 && |d| > 1
    ensures Tail(d, col) == (((Indent(col) + HexByte(d[0])) + ", ") + "") + Tail(d[1..], col + 1)
  {
  }

  /** The step of `TailInRow` when the row fills up before the bytes end. */
  lemma RowContinues(d: seq<JByte>, col: nat)
    requires col < 11 && |d| > 12 - col
    requires Tail(d[1..], col + 1) ==
      Indent(col + 1) + Listed(d[1..][..11 - col]) + ", \n" + Tail(d[1..][11 - col..], 0)
    ensures Tail(d, col) == Indent(col) + Listed(d[..12 - col]) + ", \n" + Tail(d[12 - col..], 0)
  {
    var hex, rest := HexByte(d[0]), d[1..];
    var indent, next := Indent(col), Tail(rest, col + 1);
    TailMidRow(d, col);
    var row, after := d[..12 - col], Tail(d[12 - col..], 0);
    assert row[1..] == rest[..11 - col] && rest[11 - col..] == d[12 - col..];
    var listed := Listed(rest[..11 - col]);
    assert Listed(row) == (hex + ", ") + listed;
    assert next == (("" + listed) + ", \n") + after;
    ConcatAssoc("" + listed, ", \n", after);
    Regroup(indent, hex, listed, ", \n" + after);
    ConcatAssoc(indent + Listed(row), ", \n", after);
  }

  /** The step of `TailInRow` when the bytes end within the row. */
  lemma RowEnds(d: seq<JByte>, col: nat)
    requires col < 11 && 1 < |d| <= 12 - col
    requires Tail(d[1..], col + 1) == Indent(col + 1) + Listed(d[1..]) + "\n"
    ensures Tail(d, col) == Indent(col) + Listed(d) + "\n"
  {
    var hex, rest := HexByte(d[0]), d[1..];
    TailMidRow(d, col);
    var listed := Listed(rest);
    assert Listed(d) == (hex + ", ") + listed;
    assert Tail(rest, col + 1) == ("" + listed) + "\n";
    Regroup(Indent(col), hex, listed, "\n");
  }

  lemma Regroup(indent: string, hex: string, listed: string, after: string)
    ensures (((indent + hex) + ", ") + "") + (("" + listed) + after) == (indent + ((hex + ", ") + listed)) + after
  {
    assert ((indent + hex) + ", ") + "" == (indent + hex) + ", ";
    assert "" + listed == listed;
    ConcatAssoc((indent + hex) + ", ", listed, after);
    ConcatAssoc(indent + hex, ", ", listed);
    ConcatAssoc(indent, hex + ", ", listed);
    ConcatAssoc(indent, hex, ", ");
  }

  /** The array text is its rows: twelve bytes to a row, the last row
      possibly shorter, entries separated by `, ` and none after the last. */
  lemma {:induction false} ArrayBodyRows(data: seq<JByte>)
    ensures ArrayBody(data) == Rows(data)
    decreases |data|
  {
    if data != [] {
      TailInRow(data, 0);
      if |data| > 12 {
        ArrayBodyRows(data[12..]);
      }
    }
  }
}
