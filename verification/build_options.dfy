/** The build options of an IoT project, edited as text with one
    `key=value` per line and stored as an insertion-ordered map.  A
    malformed line is the `IllegalArgumentException` the parser throws,
    here a `Failure` carrying its message. */
module BuildOptions {
  import opened Wrappers
  import opened Text

  /** One map entry; a null value is `None`. */
  datatype Entry = Entry(key: string, value: Option<string>)

  /** A `LinkedHashMap<String, String>`: entries in insertion order. */
  type Options = seq<Entry>

  predicate DistinctKeys(m: Options) {
    forall i, j :: 0 <= i < j < |m| ==> m[i].key != m[j].key
  }

  predicate HasKey(m: Options, k: string) {
    exists i :: 0 <= i < |m| && m[i].key == k
  }

  /** Where `k` sits in `m`: the index of its first entry, or `|m|` when
      no entry has it. */
  function KeyIndex(m: Options, k: string): (i: nat)
    ensures i <= |m|
    ensures i < |m| ==> m[i].key == k
    ensures forall j :: 0 <= j < i ==> m[j].key != k
    ensures HasKey(m, k) <==> i < |m|
  {
    if m == [] then 0
    else if m[0].key == k then 0
    else
      var i := 1 + KeyIndex(m[1..], k);
      assert forall j :: 1 <= j < i ==> m[j] == m[1..][j - 1];
      i
  }

  /** `put(k, v)`: an existing key keeps its place and takes the new value;
      a new key goes to the end. */
  function Put(m: Options, k: string, v: Option<string>): (r: Options)
    ensures HasKey(m, k) ==> |r| == |m|
    ensures !HasKey(m, k) ==> r == m + [Entry(k, v)]
    ensures DistinctKeys(m) ==> DistinctKeys(r)
    ensures DistinctKeys(m) ==>
      forall i :: 0 <= i < |r| ==> r[i] == (if i < |m| && m[i].key != k then m[i] else Entry(k, v))
  {
    var i := KeyIndex(m, k);
    if i < |m| then m[i := Entry(k, v)] else m + [Entry(k, v)]
  }

  const InvalidLinePrefix: string := "Invalid build option line: '"
  const InvalidLineSuffix: string := "'. Use key=value format."

  function InvalidLineMessage(line: string): string {
    InvalidLinePrefix + line + InvalidLineSuffix
  }

  /** One trailing `\r`, removed when it belongs to a `\r\n` separator. */
  function DropCr(s: string): string {
    if |s| > 0 && s[|s| - 1] == '\r' then s[..|s| - 1] else s
  }

  /** `text.split("\\r?\\n")`: the pieces between line feeds, each without
      the carriage return that preceded its line feed.  Java also drops
      trailing empty pieces; those are blank lines, which the parser skips,
      so they are kept here. */
  function Lines(text: string): (r: seq<string>)
    ensures |r| == |Split(text, '\n')|
  {
    var parts := Split(text, '\n');
    seq(|parts|, i requires 0 <= i < |parts| => if i < |parts| - 1 then DropCr(parts[i]) else parts[i])
  }

  /** One line: blank lines leave the map alone, a line without `=` fails,
      any other line puts its trimmed key and value, split at the first `=`. */
  function ParseLine(acc: Options, line: string): Result<Options, string> {
    var trimmed := JavaTrim(line);
    if trimmed == [] then Success(acc)
    else if '=' !in trimmed then Failure(InvalidLineMessage(line))
    else
      var i := IndexOf(trimmed, '=');
      Success(Put(acc, JavaTrim(trimmed[..i]), Some(JavaTrim(trimmed[i + 1..]))))
  }

  /** The lines parsed in order into `acc`, stopping at the first bad line. */
  function ParseLines(lines: seq<string>, acc: Options): Result<Options, string>
    decreases |lines|
  {
    if lines == [] then Success(acc)
    else
      match ParseLine(acc, lines[0])
      case Failure(e) => Failure(e)
      case Success(next) => ParseLines(lines[1..], next)
  }

  /** What `parseBuildOptions` returns for a text: an empty map for a null
      or blank text, else the parsed lines. */
  function BuildOptionsOf(text: Option<string>): Result<Options, string> {
    if text.None? || JavaTrim(text.value) == [] then Success([])
    else ParseLines(Lines(text.value), [])
  }

  method ParseBuildOptions(text: Option<string>) returns (r: Result<Options, string>)
    ensures r == BuildOptionsOf(text)
  {
    var options: Options := [];
    if text.None? || JavaTrim(text.value) == [] {
      return Success(options);
    }
    var lines := Lines(text.value);
    var n := 0;
    while n < |lines|
      invariant 0 <= n <= |lines|
      invariant ParseLines(lines[n..], options) == ParseLines(lines, [])
    {
      var line := lines[n];
      assert lines[n..][1..] == lines[n + 1..];
      var trimmed := JavaTrim(line);
      if trimmed == [] {
        n := n + 1;
        continue;
      }
      if '=' !in trimmed {
        return Failure(InvalidLineMessage(line));
      }
      var i := IndexOf(trimmed, '=');
      options := Put(options, JavaTrim(trimmed[..i]), Some(JavaTrim(trimmed[i + 1..])));
      n := n + 1;
    }
    return Success(options);
  }

  /** The line `mapToText` writes for an entry; a null value prints as nothing. */
  function EntryLine(e: Entry): string {
    e.key + "=" + e.value.GetOr("") + "\n"
  }

  /** The entry lines in map order. */
  function Rendered(m: Options): string {
    if m == [] then [] else Rendered(m[..|m| - 1]) + EntryLine(m[|m| - 1])
  }

  /** What `mapToText` returns: nothing for a null or empty map, else the
      entry lines trimmed as a whole. */
  function TextOf(m: Option<Options>): string {
    if m.None? || m.value == [] then [] else JavaTrim(Rendered(m.value))
  }

  method MapToText(m: Option<Options>) returns (text: string)
    ensures text == TextOf(m)
  {
    if m.None? || m.value == [] {
      return "";
    }
    var sb := "";
    var i := 0;
    while i < |m.value|
      invariant 0 <= i <= |m.value|
      invariant sb == Rendered(m.value[..i])
    {
      var e := m.value[i];
      assert m.value[..i + 1][..i] == m.value[..i];
      sb := sb + e.key + "=" + (if e.value.None? then "" else e.value.value) + "\n";
      i := i + 1;
    }
    assert m.value[..i] == m.value;
    text := JavaTrim(sb);
  }

  // ---------------------------------------------------------------------
  // Properties

  /** Putting a key twice keeps the later value, in the place the first
      put gave it. */
  lemma PutTwice(m: Options, k: string, v1: Option<string>, v2: Option<string>)
    ensures Put(Put(m, k, v1), k, v2) == Put(m, k, v2)
  {
    var i := KeyIndex(m, k);
    var once := Put(m, k, v1);
    assert |once| > i && once[i].key == k;
    assert forall j :: 0 <= j < i ==> once[j] == m[j];
    var i' := KeyIndex(once, k);
    assert i' == i;
    if i < |m| {
      assert once[i := Entry(k, v2)] == m[i := Entry(k, v2)];
    } else {
      assert once[i := Entry(k, v2)] == m + [Entry(k, v2)];
    }
  }

  /** A line that is neither blank nor holds an `=`. */
  predicate BadLine(line: string) {
    JavaTrim(line) != [] && '=' !in JavaTrim(line)
  }

  /** One line fails exactly when it is bad, and the message quotes it. */
  lemma ParseLineFails(acc: Options, line: string)
    ensures ParseLine(acc, line).Failure? <==> BadLine(line)
    ensures ParseLine(acc, line).Failure? ==> ParseLine(acc, line).error == InvalidLineMessage(line)
  {
  }

  /** Past a good first line, the bad lines are those of the rest. */
  lemma ShiftBad(lines: seq<string>)
    requires lines != [] && !BadLine(lines[0])
    ensures (exists k :: 0 <= k < |lines| && BadLine(lines[k])) <==>
      (exists k :: 0 <= k < |lines| - 1 && BadLine(lines[1..][k]))
  {
    if exists k :: 0 <= k < |lines| && BadLine(lines[k]) {
      var k :| 0 <= k < |lines| && BadLine(lines[k]);
      assert k != 0 && lines[1..][k - 1] == lines[k];
    }
    if exists k :: 0 <= k < |lines| - 1 && BadLine(lines[1..][k]) {
      var k :| 0 <= k < |lines| - 1 && BadLine(lines[1..][k]);
      assert lines[k + 1] == lines[1..][k];
    }
  }

  /** The parse fails exactly when some line is bad. */
  lemma {:induction false} ParseFailsIffBadLine(lines: seq<string>, acc: Options)
    ensures ParseLines(lines, acc).Failure? <==> exists k :: 0 <= k < |lines| && BadLine(lines[k])
    decreases |lines|
  {
    if lines != [] {
      ParseLineFails(acc, lines[0]);
      var step := ParseLine(acc, lines[0]);
      if step.Success? {
        ParseFailsIffBadLine(lines[1..], step.value);
        ShiftBad(lines);
      }
    }
  }

  /** Line `k` is bad and no line before it is. */
  predicate FirstBadAt(lines: seq<string>, k: int) {
    0 <= k < |lines| && BadLine(lines[k]) && forall j :: 0 <= j < k ==> !BadLine(lines[j])
  }

  /** Past a good first line, the first bad line is one further on. */
  lemma ShiftFirstBad(lines: seq<string>, k: int)
    requires lines != [] && !BadLine(lines[0]) && FirstBadAt(lines[1..], k)
    ensures FirstBadAt(lines, k + 1) && lines[k + 1] == lines[1..][k]
  {
    forall j | 0 < j < k + 1
      ensures !BadLine(lines[j])
    {
      assert lines[j] == lines[1..][j - 1];
    }
  }

  /** A failed parse quotes its first bad line. */
  lemma {:induction false} ParseFailsAtFirstBadLine(lines: seq<string>, acc: Options)
    requires ParseLines(lines, acc).Failure?
    ensures exists k :: FirstBadAt(lines, k) && ParseLines(lines, acc).error == InvalidLineMessage(lines[k])
    decreases |lines|
  {
    ParseLineFails(acc, lines[0]);
    var step := ParseLine(acc, lines[0]);
    if step.Failure? {
      assert FirstBadAt(lines, 0);
      assert ParseLines(lines, acc).error == InvalidLineMessage(lines[0]);
    } else {
      var rest := lines[1..];
      assert ParseLines(lines, acc) == ParseLines(rest, step.value);
      ParseFailsAtFirstBadLine(rest, step.value);
      var k :| FirstBadAt(rest, k) && ParseLines(rest, step.value).error == InvalidLineMessage(rest[k]);
      ShiftFirstBad(lines, k);
      assert FirstBadAt(lines, k + 1);
    }
  }

  /** The value is everything after the first `=`, so it may hold more. */
  lemma ValueKeepsLaterEquals()
    ensures ParseLine([], "a=b=c") == Success([Entry("a", Some("b=c"))])
  {
    var e := Entry("a", Some("b=c"));
    assert CleanEntry(e);
    assert Line(e) == "a=b=c";
    ParseCleanLine([], e);
    assert KeyIndex([], e.key) == 0;
    assert Put([], e.key, e.value) == [e];
  }

  /** The line an entry with a value is written as, before the line feed. */
  function Line(e: Entry): string
    requires e.value.Some?
  {
    e.key + "=" + e.value.value
  }

  /** An entry `mapToText` writes so that parsing reads it back: a value,
      a key and a value that are their own trims (`TrimmedIff`), no `=` in
      the key and no line feed in either. */
  predicate CleanEntry(e: Entry) {
    e.value.Some? && IsTrimmed(e.key, JavaTrimmable) && IsTrimmed(e.value.value, JavaTrimmable) &&
    '=' !in e.key && '\n' !in e.key && '\n' !in e.value.value
  }

  predicate Clean(m: Options) {
    DistinctKeys(m) && forall i :: 0 <= i < |m| ==> CleanEntry(m[i])
  }

  function LinesOf(m: Options): (r: seq<string>)
    requires forall i :: 0 <= i < |m| ==> m[i].value.Some?
    ensures |r| == |m|
  {
    seq(|m|, i requires 0 <= i < |m| => Line(m[i]))
  }

  /** A clean entry's line is its own trim, has no line feed and does not
      end in a carriage return. */
  lemma CleanLine(e: Entry)
    requires CleanEntry(e)
    ensures var l := Line(e);
      l != [] && IsTrimmed(l, JavaTrimmable) && '\n' !in l && DropCr(l) == l
  {
    var k, v := e.key, e.value.value;
    var l := Line(e);
    assert l[|k|] == '=';
    if k != [] {
      assert l[0] == k[0];
    }
    if v != [] {
      assert l[|l| - 1] == v[|v| - 1];
    }
    assert forall i :: 0 <= i < |l| ==> l[i] == '=' || (i < |k| && l[i] == k[i]) || (i > |k| && l[i] == v[i - |k| - 1]);
  }

  /** The rendered lines are the entry lines joined by line feeds, plus a
      final line feed. */
  lemma {:induction false} RenderedJoin(m: Options)
    requires m != []
    requires forall i :: 0 <= i < |m| ==> m[i].value.Some?
    ensures Rendered(m) == Join(LinesOf(m), '\n') + "\n"
    decreases |m|
  {
    var last := m[|m| - 1];
    var init := m[..|m| - 1];
    assert EntryLine(last) == Line(last) + "\n";
    if init == [] {
      assert LinesOf(m) == [Line(last)];
    } else {
      RenderedJoin(init);
      assert LinesOf(m) == LinesOf(init) + [Line(last)];
      JoinAppend(LinesOf(init), Line(last), '\n');
    }
  }

  /** The text of a non-empty clean map is its lines joined by line feeds:
      the final line feed is the only char the trim removes. */
  lemma TextOfClean(m: Options)
    requires Clean(m) && m != []
    ensures TextOf(Some(m)) == Join(LinesOf(m), '\n')
    ensures JavaTrim(TextOf(Some(m))) == TextOf(Some(m)) != []
  {
    var lines := LinesOf(m);
    forall i | 0 <= i < |lines|
      ensures lines[i] != [] && IsTrimmed(lines[i], JavaTrimmable)
    {
      CleanLine(m[i]);
    }
    JoinEnds(lines, '\n');
    var j := Join(lines, '\n');
    RenderedJoin(m);
    var t := j + "\n";
    assert TrimStart(t, JavaTrimmable) == t;
    assert t[..|t| - 1] == j;
    assert TrimEnd(t, JavaTrimmable) == TrimEnd(j, JavaTrimmable);
    TrimNoop(j, JavaTrimmable);
  }

  /** Splitting the text of a clean map into lines gives its entry lines. */
  lemma LinesOfClean(m: Options)
    requires Clean(m) && m != []
    ensures Lines(Join(LinesOf(m), '\n')) == LinesOf(m)
  {
    var lines := LinesOf(m);
    forall i | 0 <= i < |lines|
      ensures '\n' !in lines[i] && DropCr(lines[i]) == lines[i]
    {
      CleanLine(m[i]);
    }
    SplitJoin(lines, '\n');
  }

  /** Parsing the line of a clean entry puts exactly that entry. */
  lemma ParseCleanLine(acc: Options, e: Entry)
    requires CleanEntry(e)
    ensures ParseLine(acc, Line(e)) == Success(Put(acc, e.key, e.value))
  {
    var k, v := e.key, e.value.value;
    var l := Line(e);
    CleanLine(e);
    TrimNoop(l, JavaTrimmable);
    assert l[|k|] == '=';
    var i := IndexOf(l, '=');
    assert i == |k| by {
      assert forall j :: 0 <= j < |k| ==> l[j] == k[j];
      assert forall j :: 0 <= j < i ==> l[..i][j] == l[j];
    }
    assert l[..i] == k && l[i + 1..] == v;
    TrimNoop(k, JavaTrimmable);
    TrimNoop(v, JavaTrimmable);
  }

  /** With distinct keys, entry `j`'s key is new to the entries before it,
      so putting it extends them by that entry. */
  lemma KeyNewAt(m: Options, j: nat)
    requires DistinctKeys(m) && j < |m|
    ensures !HasKey(m[..j], m[j].key)
    ensures m[..j] + [m[j]] == m[..j + 1]
  {
  }

  /** Parsing the lines of a clean map from entry `j` on, into its first
      `j` entries, rebuilds the whole map. */
  lemma {:induction false} ParseCleanLines(m: Options, j: nat)
    requires Clean(m) && j <= |m|
    ensures ParseLines(LinesOf(m)[j..], m[..j]) == Success(m)
    decreases |m| - j
  {
    if j == |m| {
      assert m[..j] == m;
    } else {
      var lines := LinesOf(m)[j..];
      assert lines[0] == Line(m[j]) && lines[1..] == LinesOf(m)[j + 1..];
      ParseCleanLine(m[..j], m[j]);
      KeyNewAt(m, j);
      assert Put(m[..j], m[j].key, m[j].value) == m[..j + 1];
      ParseCleanLines(m, j + 1);
    }
  }

  /** Writing a clean map out and parsing the text gives the map back. */
  lemma RoundTrip(m: Options)
    requires Clean(m)
    ensures BuildOptionsOf(Some(TextOf(Some(m)))) == Success(m)
  {
    if m != [] {
      var text := TextOf(Some(m));
      assert text == Join(LinesOf(m), '\n') && JavaTrim(text) != [] by {
        TextOfClean(m);
      }
      assert Lines(text) == LinesOf(m) by {
        LinesOfClean(m);
      }
      assert ParseLines(LinesOf(m), []) == Success(m) by {
        ParseCleanLines(m, 0);
        assert LinesOf(m)[0..] == LinesOf(m) && m[..0] == [];
      }
    }
  }
}
