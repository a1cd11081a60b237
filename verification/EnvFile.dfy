/** The credential env file: printing quoted assignments and parsing them back. */
module EnvFile {
  import opened Text

  datatype Result<+T> = Ok(value: T) | MalformedAssignment(line: string)

  type Entry = (string, string)

  // ---- printing -----------------------------------------------------------------------------------

  const QUOTE := '\''
  const ESCAPED := ['\'', '\\', '\'', '\'']

  /** Every quote becomes the escape sequence. */
  function Escape(value: string): string {
    if value == [] then [] else (if value[0] == QUOTE then ESCAPED else [value[0]]) + Escape(value[1..])
  }

  function Assignment(e: Entry): string {
    e.0 + "='" + Escape(e.1) + "'"
  }

  function Assignments(entries: seq<Entry>): seq<string> {
    seq(|entries|, i requires 0 <= i < |entries| => Assignment(entries[i]))
  }

  function SerializeEnv(entries: seq<Entry>): string {
    Join(Assignments(entries), "\n") + "\n"
  }

  // ---- parsing ------------------------------------------------------------------------------------

  predicate IsNameChar(c: char) {
    'A' <= c <= 'Z' || '0' <= c <= '9' || c == '_'
  }

  predicate IsName(name: string) {
    name != [] && forall c | c in name :: IsNameChar(c)
  }

  /** str::replace of the escape sequence by a quote: left to right, without overlap. */
  function Unescape(s: string): string {
    if s == [] then []
    else if ESCAPED <= s then [QUOTE] + Unescape(s[4..])
    else [s[0]] + Unescape(s[1..])
  }

  predicate Quoted(s: string, q: char) {
    |s| >= 2 && s[0] == q && s[|s| - 1] == q
  }

  function Unquote(value: string): string {
    var v := Trim(value);
    if Quoted(v, QUOTE) || Quoted(v, '"') then Unescape(v[1..|v| - 1]) else v
  }

  function ParseLine(values: map<string, string>, raw: string): Result<map<string, string>> {
    var line := Trim(raw);
    if line == [] || line[0] == '#' then Ok(values)
    else
      var i := IndexOf(line, '=');
      if i == |line| || !IsName(line[..i]) then MalformedAssignment(line)
      else Ok(values[line[..i] := Unquote(line[i + 1..])])
  }

  function ParseLines(lines: seq<string>): Result<map<string, string>> {
    if lines == [] then Ok(map[])
    else
      var front := ParseLines(lines[..|lines| - 1]);
      if front.Ok? then ParseLine(front.value, lines[|lines| - 1]) else front
  }

  function ParseEnv(contents: string): Result<map<string, string>> {
    ParseLines(Lines(contents))
  }

  lemma {:induction false} FirstErrorStays(lines: seq<string>, n: nat)
    requires n <= |lines| && !ParseLines(lines[..n]).Ok?
    ensures ParseLines(lines) == ParseLines(lines[..n])
  {
    if n < |lines| {
      assert lines[..|lines| - 1][..n] == lines[..n];
      FirstErrorStays(lines[..|lines| - 1], n);
    } else {
      assert lines[..n] == lines;
    }
  }

  /** The loop of parse_env, which stops at the first malformed line. */
  method ParseEnvLoop(contents: string) returns (result: Result<map<string, string>>)
    ensures result == ParseEnv(contents)
  {
    var lines := Lines(contents);
    var values: map<string, string> := map[];
    for n := 0 to |lines|
      invariant ParseLines(lines[..n]) == Ok(values)
    {
      assert lines[..n + 1][..n] == lines[..n];
      var line := Trim(lines[n]);
      if line == [] || line[0] == '#' { continue; }
      var i := IndexOf(line, '=');
      if i == |line| || !IsName(line[..i]) {
        FirstErrorStays(lines, n + 1);
        return MalformedAssignment(line);
      }
      values := values[line[..i] := Unquote(line[i + 1..])];
    }
    assert lines[..|lines|] == lines;
    return Ok(values);
  }

  // ---- unescaping stays aligned -------------------------------------------------------------------

  /** Read left to right, the escape sequence matches exactly the escape blocks. */
  lemma {:induction false} UnescapeEscape(value: string)
    ensures Unescape(Escape(value)) == value
  {
    if value != [] {
      var rest := Escape(value[1..]);
      UnescapeEscape(value[1..]);
      if value[0] == QUOTE {
        assert Escape(value) == ESCAPED + rest;
        assert (ESCAPED + rest)[4..] == rest;
      } else {
        assert Escape(value) == [value[0]] + rest;
        assert ([value[0]] + rest)[1..] == rest;
      }
    }
  }

  // ---- lines --------------------------------------------------------------------------------------

  lemma FirstNewline(line: string, rest: string)
    requires '\n' !in line
    ensures IndexOf(line + "\n" + rest, '\n') == |line|
  {
    var s := line + "\n" + rest;
    assert s[|line|] == '\n';
    forall k | 0 <= k < |line| ensures s[k] != '\n' { assert s[k] == line[k]; assert line[k] in line; }
  }

  predicate PlainLine(line: string) {
    '\n' !in line && (line == [] || line[|line| - 1] != '\r')
  }

  lemma FirstLine(line: string, rest: string)
    requires PlainLine(line)
    ensures Lines(line + "\n" + rest) == [line] + Lines(rest)
  {
    var s := line + "\n" + rest;
    FirstNewline(line, rest);
    assert s[..|line|] == line && s[|line| + 1..] == rest;
  }

  /** A line may as well end with a carriage return and a newline. */
  lemma FirstWindowsLine(line: string, rest: string)
    requires '\n' !in line
    ensures Lines(line + "\r\n" + rest) == [line] + Lines(rest)
  {
    var s := line + "\r\n" + rest;
    assert '\n' !in line + "\r";
    FirstNewline(line + "\r", rest);
    assert s == line + "\r" + "\n" + rest;
    assert s[..|line| + 1] == line + "\r" && s[|line| + 2..] == rest;
  }

  lemma {:induction false} LinesOfJoin(lines: seq<string>)
    requires forall i | 0 <= i < |lines| :: PlainLine(lines[i])
    ensures Lines(Join(lines, "\n") + "\n") == if lines == [] then [""] else lines
  {
    if lines == [] {
      FirstLine("", "");
      assert "" + "\n" + "" == "\n";
    } else if |lines| == 1 {
      FirstLine(lines[0], "");
      assert Join(lines, "\n") + "\n" == lines[0] + "\n" + "";
    } else {
      JoinFirst(lines, "\n");
      FirstLine(lines[0], Join(lines[1..], "\n") + "\n");
      assert Join(lines, "\n") + "\n" == lines[0] + "\n" + (Join(lines[1..], "\n") + "\n");
      LinesOfJoin(lines[1..]);
    }
  }

  // ---- one assignment -----------------------------------------------------------------------------

  lemma {:induction false} EscapeKeepsNewlines(value: string)
    ensures '\n' in Escape(value) <==> '\n' in value
  {
    if value != [] { EscapeKeepsNewlines(value[1..]); }
  }

  predicate ValidEntry(e: Entry) {
    IsName(e.0) && '\n' !in e.1
  }

  lemma NameHasNo(name: string, c: char)
    requires IsName(name) && !IsNameChar(c)
    ensures c !in name
  {
  }

  lemma AssignmentIsPlain(e: Entry)
    requires ValidEntry(e)
    ensures PlainLine(Assignment(e)) && IsTrimmed(Assignment(e)) && Assignment(e)[0] != '#'
  {
    EscapeKeepsNewlines(e.1);
    NameHasNo(e.0, '\n');
    assert e.0[0] in e.0;
    assert Assignment(e)[0] == e.0[0];
    assert Assignment(e)[|Assignment(e)| - 1] == QUOTE;
  }

  lemma AssignmentSplits(e: Entry)
    requires IsName(e.0)
    ensures var line := Assignment(e);
            var i := IndexOf(line, '=');
            i < |line| && line[..i] == e.0 && line[i + 1..] == "'" + Escape(e.1) + "'"
  {
    var line := Assignment(e);
    assert line[|e.0|] == '=';
    forall k | 0 <= k < |e.0| ensures line[k] != '=' { assert line[k] == e.0[k]; assert e.0[k] in e.0; }
    assert IndexOf(line, '=') == |e.0|;
  }

  lemma UnquoteQuoted(value: string)
    ensures Unquote("'" + Escape(value) + "'") == value
  {
    var quoted := "'" + Escape(value) + "'";
    TrimOfTrimmed(quoted);
    assert quoted[1..|quoted| - 1] == Escape(value);
    UnescapeEscape(value);
  }

  lemma ParseAssignment(values: map<string, string>, e: Entry)
    requires ValidEntry(e)
    ensures ParseLine(values, Assignment(e)) == Ok(values[e.0 := e.1])
  {
    AssignmentIsPlain(e);
    TrimOfTrimmed(Assignment(e));
    AssignmentSplits(e);
    UnquoteQuoted(e.1);
  }

  // ---- other lines --------------------------------------------------------------------------------

  lemma SplitsAtName(name: string, rest: string)
    requires IsName(name)
    ensures var line := name + "=" + rest;
            var i := IndexOf(line, '=');
            i == |name| && line[..i] == name && line[i + 1..] == rest
  {
    var line := name + "=" + rest;
    assert line[|name|] == '=';
    forall k | 0 <= k < |name| ensures line[k] != '=' { assert line[k] == name[k]; assert name[k] in name; }
  }

  lemma NameStartsLine(name: string, rest: string)
    requires IsName(name) && (rest == [] || !IsWhitespace(rest[|rest| - 1]))
    ensures var line := name + "=" + rest; Trim(line) == line && line[0] != '#'
  {
    var line := name + "=" + rest;
    assert name[0] in name && line[0] == name[0];
    assert line[|line| - 1] == if rest == [] then '=' else rest[|rest| - 1];
    TrimOfTrimmed(line);
  }

  lemma BlankPrefix(pad: string, value: string)
    requires IsBlank(pad) && IsTrimmed(value)
    ensures Trim(pad + value) == value
  {
    if pad == [] {
      assert pad + value == value;
      TrimOfTrimmed(value);
    } else {
      assert (pad + value)[1..] == pad[1..] + value;
      BlankPrefix(pad[1..], value);
    }
  }

  /** An assignment is read as the name before the equals sign and the value behind it without its quotes. */
  lemma ParsesAssignment(values: map<string, string>, name: string, rest: string)
    requires IsName(name) && (rest == [] || !IsWhitespace(rest[|rest| - 1]))
    ensures ParseLine(values, name + "=" + rest) == Ok(values[name := Unquote(rest)])
  {
    NameStartsLine(name, rest);
    SplitsAtName(name, rest);
  }

  /** Whitespace behind the equals sign does not belong to the value. */
  lemma ParsesPadded(values: map<string, string>, name: string, pad: string, value: string)
    requires IsName(name) && IsBlank(pad) && IsTrimmed(value)
    ensures ParseLine(values, name + "=" + (pad + value)) == ParseLine(values, name + "=" + value)
  {
    assert (pad + value)[|pad + value| - 1] == value[|value| - 1];
    ParsesAssignment(values, name, pad + value);
    ParsesAssignment(values, name, value);
    BlankPrefix(pad, value);
    TrimOfTrimmed(value);
  }

  /** A value without quotes around it is taken as it stands. */
  lemma ParsesUnquoted(values: map<string, string>, name: string, value: string)
    requires IsName(name) && (value == [] || IsTrimmed(value))
    requires |value| < 2 || value[0] != value[|value| - 1] || (value[0] != '"' && value[0] != '\'')
    ensures ParseLine(values, name + "=" + value) == Ok(values[name := value])
  {
    ParsesAssignment(values, name, value);
    TrimOfTrimmed(value);
  }

  lemma {:induction false} UnescapePlain(value: string)
    requires '\'' !in value
    ensures Unescape(value) == value
  {
    if value != [] {
      assert value[0] in value;
      UnescapePlain(value[1..]);
    }
  }

  lemma UnquoteDouble(value: string)
    requires '\'' !in value
    ensures Unquote("\"" + value + "\"") == value
  {
    var quoted := "\"" + value + "\"";
    TrimOfTrimmed(quoted);
    assert quoted[1..|quoted| - 1] == value;
    UnescapePlain(value);
  }

  /** Double quotes around a value are taken off, too; no escape is known for a double quote within. */
  lemma ParsesDoubleQuoted(values: map<string, string>, name: string, value: string)
    requires IsName(name) && '\'' !in value
    ensures ParseLine(values, name + "=" + ("\"" + value + "\"")) == Ok(values[name := value])
  {
    ParsesAssignment(values, name, "\"" + value + "\"");
    UnquoteDouble(value);
  }

  /** Whitespace around a line does not matter. */
  lemma LinesAreTrimmed(values: map<string, string>, raw: string)
    ensures ParseLine(values, Trim(raw)) == ParseLine(values, raw)
  {
    TrimProperties(raw);
    TrimOfTrimmed(Trim(raw));
  }

  /** Blank lines and comments say nothing; any other line is malformed unless a name stands before its first equals
      sign. */
  lemma OtherLines(values: map<string, string>, raw: string)
    ensures var line := Trim(raw);
            if line == [] || line[0] == '#' then ParseLine(values, raw) == Ok(values)
            else ParseLine(values, raw) == MalformedAssignment(line)
                 <==> forall i | 0 <= i < |line| && line[i] == '=' :: !IsName(line[..i])
  {
    var line := Trim(raw);
    var first := IndexOf(line, '=');
    forall i | first < i < |line| ensures !IsName(line[..i]) {
      assert line[..i][first] == '=';
      assert line[..i][first] in line[..i];
    }
  }

  lemma NameCharacters(c: char)
    ensures IsNameChar(c) <==> c in "ABCDEFGHIJKLMNOPQRSTUVWXYZ0123456789_"
  {
    var upper, digits := "ABCDEFGHIJKLMNOPQRSTUVWXYZ", "0123456789";
    assert "ABCDEFGHIJKLMNOPQRSTUVWXYZ0123456789_" == upper + digits + "_";
    if 'A' <= c <= 'Z' { assert upper[c as int - 'A' as int] == c; }
    if '0' <= c <= '9' { assert digits[c as int - '0' as int] == c; }
    assert forall k | 0 <= k < 26 :: 'A' <= upper[k] <= 'Z';
  }

  // ---- the whole file -----------------------------------------------------------------------------

  function MapOf(entries: seq<Entry>): map<string, string> {
    if entries == [] then map[]
    else
      var (name, value) := entries[|entries| - 1];
      MapOf(entries[..|entries| - 1])[name := value]
  }

  lemma {:induction false} ParseAssignments(entries: seq<Entry>)
    requires forall e | e in entries :: ValidEntry(e)
    ensures ParseLines(Assignments(entries)) == Ok(MapOf(entries))
  {
    if entries != [] {
      var n := |entries| - 1;
      ParseAssignments(entries[..n]);
      assert Assignments(entries)[..n] == Assignments(entries[..n]);
      assert entries[n] in entries;
      ParseAssignment(MapOf(entries[..n]), entries[n]);
    }
  }

  lemma ValidRoundTrip(entries: seq<Entry>)
    requires forall e | e in entries :: ValidEntry(e)
    ensures ParseEnv(SerializeEnv(entries)) == Ok(MapOf(entries))
  {
    var lines := Assignments(entries);
    forall i | 0 <= i < |lines| ensures PlainLine(lines[i]) {
      assert entries[i] in entries;
      AssignmentIsPlain(entries[i]);
    }
    LinesOfJoin(lines);
    ParseAssignments(entries);
    if entries == [] { assert [""][..0] == [] && ParseLines([""]) == ParseLine(map[], ""); }
  }

  // ---- what a parse can produce -------------------------------------------------------------------

  lemma {:induction false} LinesHaveNoNewline(s: string, line: string)
    requires line in Lines(s)
    ensures '\n' !in line
    decreases |s|
  {
    if s != [] {
      var i := IndexOf(s, '\n');
      if i < |s| && line != StripCarriageReturn(s[..i]) { LinesHaveNoNewline(s[i + 1..], line); }
    }
  }

  lemma {:induction false} TrimStartKeepsOut(s: string, c: char)
    requires c !in s
    ensures c !in TrimStart(s)
  {
    if s != [] && IsWhitespace(s[0]) { TrimStartKeepsOut(s[1..], c); }
  }

  lemma TrimKeepsOut(s: string, c: char)
    requires c !in s
    ensures c !in Trim(s)
  {
    TrimStartKeepsOut(s, c);
    TrimEndProperties(TrimStart(s));
    assert forall i | 0 <= i < |Trim(s)| :: Trim(s)[i] == TrimStart(s)[i];
  }

  lemma {:induction false} UnescapeKeepsOut(s: string)
    requires '\n' !in s
    ensures '\n' !in Unescape(s)
    decreases |s|
  {
    if s != [] {
      if ESCAPED <= s { UnescapeKeepsOut(s[4..]); } else { UnescapeKeepsOut(s[1..]); }
    }
  }

  lemma UnquoteKeepsOut(value: string)
    requires '\n' !in value
    ensures '\n' !in Unquote(value)
  {
    var v := Trim(value);
    TrimKeepsOut(value, '\n');
    if Quoted(v, QUOTE) || Quoted(v, '"') { UnescapeKeepsOut(v[1..|v| - 1]); }
  }

  ghost predicate ValidMap(values: map<string, string>) {
    forall name | name in values :: ValidEntry((name, values[name]))
  }

  /** Whatever the file says, a parsed map has valid names and newline-free values. */
  lemma {:induction false} ParsedIsValid(lines: seq<string>)
    requires forall l | l in lines :: '\n' !in l
    ensures ParseLines(lines).Ok? ==> ValidMap(ParseLines(lines).value)
  {
    if lines != [] {
      var front, raw := lines[..|lines| - 1], lines[|lines| - 1];
      ParsedIsValid(front);
      assert raw in lines;
      TrimKeepsOut(raw, '\n');
      var line := Trim(raw);
      var i := IndexOf(line, '=');
      if i < |line| { UnquoteKeepsOut(line[i + 1..]); }
    }
  }

  predicate DistinctNames(entries: seq<Entry>) {
    forall i, j | 0 <= i < j < |entries| :: entries[i].0 != entries[j].0
  }

  lemma {:induction false} MapOfHas(entries: seq<Entry>, k: nat)
    requires DistinctNames(entries) && k < |entries|
    ensures entries[k].0 in MapOf(entries) && MapOf(entries)[entries[k].0] == entries[k].1
  {
    var n := |entries| - 1;
    if k < n {
      MapOfHas(entries[..n], k);
      assert entries[k].0 != entries[n].0;
    }
  }

  /**
   Printing and parsing is the identity on a map exactly if its names are valid and its values have no newline; quotes,
   backslashes and the escape sequence itself come back unchanged. The order of the entries does not matter.
   */
  lemma RoundTripIff(entries: seq<Entry>)
    requires DistinctNames(entries)
    ensures ParseEnv(SerializeEnv(entries)) == Ok(MapOf(entries)) <==> forall e | e in entries :: ValidEntry(e)
  {
    if forall e | e in entries :: ValidEntry(e) {
      ValidRoundTrip(entries);
    }
    if ParseEnv(SerializeEnv(entries)) == Ok(MapOf(entries)) {
      var lines := Lines(SerializeEnv(entries));
      forall l | l in lines ensures '\n' !in l { LinesHaveNoNewline(SerializeEnv(entries), l); }
      ParsedIsValid(lines);
      forall e | e in entries ensures ValidEntry(e) {
        var k :| 0 <= k < |entries| && entries[k] == e;
        MapOfHas(entries, k);
      }
    }
  }
}
