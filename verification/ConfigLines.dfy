/** The archived configuration's own reading of a line: comments cut outside strings, the rest trimmed and read as
    a section, an assignment or nothing. */
module ConfigLines {
  import opened Outcomes
  import opened TextLines
  import opened JsonStrings
  import opened ConfigObjects

  // ---- Comments -------------------------------------------------------------------------------------

  /** Where a scan of a line stands: inside a string, and right after a backslash. */
  datatype Scan = Scan(inString: bool, escaped: bool)

  const OUTSIDE := Scan(false, false)
  const INSIDE := Scan(true, false)

  function Next(at: Scan, c: char): Scan {
    if at.escaped then Scan(at.inString, false)
    else if c == '\\' then Scan(at.inString, true)
    else if c == '\"' then Scan(!at.inString, false)
    else at
  }

  predicate Cuts(at: Scan, c: char) {
    c == '#' && at == OUTSIDE
  }

  /** The length of a line before its comment. */
  function CutAt(line: string, at: Scan): (n: nat)
    ensures n <= |line|
  {
    if line == "" || Cuts(at, line[0]) then 0 else 1 + CutAt(line[1..], Next(at, line[0]))
  }

  function After(text: string, at: Scan): Scan {
    if text == "" then at else After(text[1..], Next(at, text[0]))
  }

  function WithoutComment(line: string): string {
    line[..CutAt(line, OUTSIDE)]
  }

  /** Text the scan crosses without finding a comment. */
  predicate Crosses(text: string, from: Scan, to: Scan) {
    CutAt(text, from) == |text| && After(text, from) == to
  }

  lemma {:induction false} CutLater(text: string, rest: string, from: Scan, to: Scan)
    requires Crosses(text, from, to)
    ensures CutAt(text + rest, from) == |text| + CutAt(rest, to)
    ensures After(text + rest, from) == After(rest, to)
  {
    if text == "" {
      assert text + rest == rest;
    } else {
      assert (text + rest)[1..] == text[1..] + rest;
      CutLater(text[1..], rest, Next(from, text[0]), to);
    }
  }

  lemma {:induction false} CrossesBoth(a: string, b: string, from: Scan, middle: Scan, to: Scan)
    requires Crosses(a, from, middle) && Crosses(b, middle, to)
    ensures Crosses(a + b, from, to)
  {
    CutLater(a, b, from, middle);
  }

  /** A number sign after balanced text starts a comment, whatever follows it. */
  lemma {:induction false} CommentIsCut(text: string, comment: string)
    requires Crosses(text, OUTSIDE, OUTSIDE)
    ensures WithoutComment(text + ("#" + comment)) == text
  {
    CutLater(text, "#" + comment, OUTSIDE, OUTSIDE);
  }

  /** Text without quotes, backslashes and number signs. */
  predicate Quiet(c: char) {
    c != '\\' && c != '\"' && c != '#'
  }

  lemma {:induction false} QuietCrosses(text: string)
    requires forall i :: 0 <= i < |text| ==> Quiet(text[i])
    ensures Crosses(text, OUTSIDE, OUTSIDE)
  {
    if text != "" {
      assert Quiet(text[0]);
      QuietCrosses(text[1..]);
    }
  }

  lemma {:induction false} OneCrosses(c: char, from: Scan)
    requires !Cuts(from, c)
    ensures Crosses([c], from, Next(from, c))
  {
    assert CutAt([c][1..], Next(from, c)) == 0;
    assert After([c][1..], Next(from, c)) == Next(from, c);
  }

  lemma {:induction false} EscapedCrosses(c: char)
    ensures Crosses(EscapeChar(c), INSIDE, INSIDE)
  {
    if Letter(c).Some? {
      BackslashCrosses(Letter(c).value);
    } else if c < ' ' {
      BackslashCrosses('u');
      HexIsQuiet(c as nat / 16);
      HexIsQuiet(c as nat % 16);
      FourCross('0', '0', HEX[c as nat / 16], HEX[c as nat % 16]);
      CrossesBoth(['\\', 'u'], ['0', '0', HEX[c as nat / 16], HEX[c as nat % 16]], INSIDE, INSIDE, INSIDE);
      assert EscapeChar(c) == ['\\', 'u'] + ['0', '0', HEX[c as nat / 16], HEX[c as nat % 16]];
    } else {
      OneCrosses(c, INSIDE);
    }
  }

  lemma {:induction false} BackslashCrosses(c: char)
    ensures Crosses(['\\', c], INSIDE, INSIDE)
  {
    OneCrosses('\\', INSIDE);
    OneCrosses(c, Scan(true, true));
    CrossesBoth(['\\'], [c], INSIDE, Scan(true, true), INSIDE);
    assert ['\\'] + [c] == ['\\', c];
  }

  lemma {:induction false} HexIsQuiet(n: nat)
    requires n < 16
    ensures Quiet(HEX[n])
  {
    HexReadsBack(n);
  }

  lemma {:induction false} FourCross(a: char, b: char, c: char, d: char)
    requires Quiet(a) && Quiet(b) && Quiet(c) && Quiet(d)
    ensures Crosses([a, b, c, d], INSIDE, INSIDE)
  {
    OneCrosses(a, INSIDE);
    OneCrosses(b, INSIDE);
    OneCrosses(c, INSIDE);
    OneCrosses(d, INSIDE);
    CrossesBoth([a], [b], INSIDE, INSIDE, INSIDE);
    CrossesBoth([c], [d], INSIDE, INSIDE, INSIDE);
    CrossesBoth([a] + [b], [c] + [d], INSIDE, INSIDE, INSIDE);
    assert [a] + [b] + ([c] + [d]) == [a, b, c, d];
  }

  lemma {:induction false} AllEscapedCross(s: string)
    ensures Crosses(EscapeAll(s), INSIDE, INSIDE)
  {
    if s != "" {
      AllEscapedCross(s[1..]);
      EscapedCrosses(s[0]);
      CrossesBoth(EscapeChar(s[0]), EscapeAll(s[1..]), INSIDE, INSIDE, INSIDE);
    }
  }

  /** A written string holds no comment, even when it holds number signs, quotes and backslashes. */
  lemma {:induction false} StringCrosses(s: string)
    ensures Crosses(JsonString(s), OUTSIDE, OUTSIDE)
  {
    OneCrosses('\"', OUTSIDE);
    OneCrosses('\"', INSIDE);
    AllEscapedCross(s);
    CrossesBoth(['\"'], EscapeAll(s), OUTSIDE, INSIDE, INSIDE);
    CrossesBoth(['\"'] + EscapeAll(s), ['\"'], OUTSIDE, INSIDE, OUTSIDE);
  }

  /** `stripTomlComment`. */
  method StripTomlComment(line: string) returns (kept: string)
    ensures kept == WithoutComment(line)
  {
    var inString, escaped := false, false;
    for i := 0 to |line|
      invariant CutAt(line, OUTSIDE) == i + CutAt(line[i..], Scan(inString, escaped))
    {
      var ch := line[i];
      if escaped {
        escaped := false;
        continue;
      }
      if ch == '\\' {
        escaped := true;
        continue;
      }
      if ch == '\"' {
        inString := !inString;
      }
      if ch == '#' && !inString {
        return line[..i];
      }
    }
    return line;
  }

  // ---- Trimming -------------------------------------------------------------------------------------

  /** The white space and line terminators `String.prototype.trim` removes. */
  predicate JsSpace(c: char) {
    || '\t' <= c <= '\r' || c == ' ' || c == '\U{a0}' || c == '\U{1680}' || '\U{2000}' <= c <= '\U{200a}'
    || c == '\U{2028}' || c == '\U{2029}' || c == '\U{202f}' || c == '\U{205f}' || c == '\U{3000}' || c == '\U{feff}'
  }

  function TrimStart(s: string): string {
    if s != "" && JsSpace(s[0]) then TrimStart(s[1..]) else s
  }

  function TrimEnd(s: string): string {
    if s != "" && JsSpace(s[|s| - 1]) then TrimEnd(s[..|s| - 1]) else s
  }

  function Trim(s: string): string {
    TrimEnd(TrimStart(s))
  }

  predicate Tight(s: string) {
    s == "" || (!JsSpace(s[0]) && !JsSpace(s[|s| - 1]))
  }

  lemma {:induction false} TrimLeadingSpace(s: string)
    requires Tight(s)
    ensures Trim(" " + s) == s && Trim(s) == s
  {
    assert (" " + s)[1..] == s;
    assert TrimStart(" " + s) == TrimStart(s);
  }

  lemma {:induction false} TrimTrailing(s: string, c: char)
    requires Tight(s) && s != "" && JsSpace(c)
    ensures Trim(s + [c]) == s
  {
    var longer := s + [c];
    assert longer[..|longer| - 1] == s && longer[0] == s[0] && longer[|longer| - 1] == c;
    assert TrimStart(longer) == longer && TrimEnd(longer) == TrimEnd(s);
  }

  // ---- The meaning of a line --------------------------------------------------------------------------

  datatype Meaning = Nothing | Section(path: seq<string>) | Assign(key: string, value: Json) | Broken

  predicate NameChar(c: char) {
    'a' <= c <= 'z' || 'A' <= c <= 'Z' || '0' <= c <= '9' || c == '_' || c == '.' || c == '-'
  }

  predicate IsHeader(line: string) {
    |line| > 2 && line[0] == '[' && line[|line| - 1] == ']' && forall i :: 1 <= i < |line| - 1 ==> NameChar(line[i])
  }

  function SplitAtDots(s: string): seq<string>
    decreases |s|
  {
    var at := FirstIndex(s, '.');
    if at == |s| then [s] else [s[..at]] + SplitAtDots(s[at + 1..])
  }

  /** `parseTomlValue`; a malformed JSON string throws. */
  function ValueOf(raw: string): Option<Json> {
    if raw == "true" then Some(JBool(true))
    else if raw == "false" then Some(JBool(false))
    else if raw != "" && raw[0] == '\"' && raw[|raw| - 1] == '\"' then
      var contents := Contents(raw[1..]);
      if contents.Some? then Some(JString(contents.value)) else None
    else Some(JString(raw))
  }

  function AssignmentOf(line: string, eq: nat): Meaning
    requires eq < |line|
  {
    var value := ValueOf(Trim(line[eq + 1..]));
    if value.None? then Broken else Assign(Trim(line[..eq]), value.value)
  }

  function MeaningOf(original: string): Meaning {
    var line := Trim(WithoutComment(original));
    if line == "" then Nothing
    else if IsHeader(line) then Section(SplitAtDots(line[1..|line| - 1]))
    else if FirstIndex(line, '=') == |line| then Nothing
    else AssignmentOf(line, FirstIndex(line, '='))
  }

  /** A comment after balanced text changes nothing a line says. */
  lemma {:induction false} CommentsSayNothing(text: string, comment: string)
    requires Crosses(text, OUTSIDE, OUTSIDE)
    ensures MeaningOf(text + ("#" + comment)) == MeaningOf(text)
  {
    CommentIsCut(text, comment);
    assert text[..|text|] == text;
  }

  // ---- The lines that are written ---------------------------------------------------------------------

  predicate WordChar(c: char) {
    'a' <= c <= 'z' || c == '_'
  }

  /** The words of the known keys and sections. */
  predicate Word(s: string) {
    s != "" && forall i :: 0 <= i < |s| ==> WordChar(s[i])
  }

  /** `parseTomlValue` reads what `tomlString` and the two flags write. */
  function ValueText(value: Json): string {
    if value.JBool? then if value.flag then "true" else "false"
    else if value.JString? then JsonString(value.text)
    else ""
  }

  function AssignmentText(key: string, value: Json): string {
    key + " = " + ValueText(value)
  }

  function Dotted(path: seq<string>): string
  {
    if path == [] then "" else if |path| == 1 then path[0] else path[0] + ['.'] + Dotted(path[1..])
  }

  function HeaderText(path: seq<string>): string {
    ['['] + Dotted(path) + [']']
  }

  predicate Words(path: seq<string>) {
    path != [] && forall i :: 0 <= i < |path| ==> Word(path[i])
  }

  lemma {:induction false} StringIsQuoted(s: string)
    ensures var raw := JsonString(s);
            |raw| >= 2 && raw[0] == '\"' && raw[|raw| - 1] == '\"' && raw[1..] == EscapeAll(s) + ['\"']
  {
  }

  lemma {:induction false} ValueIsRead(value: Json)
    requires value.JBool? || value.JString?
    ensures ValueOf(ValueText(value)) == Some(value)
  {
    if value.JString? {
      StringIsQuoted(value.text);
      ReadsBack(value.text);
      assert "true"[0] == 't' && "false"[0] == 'f';
    }
  }

  lemma {:induction false} ValueIsTight(value: Json)
    requires value.JBool? || value.JString?
    ensures ValueText(value) != "" && Tight(ValueText(value)) && Crosses(ValueText(value), OUTSIDE, OUTSIDE)
  {
    if value.JString? {
      StringIsQuoted(value.text);
      StringCrosses(value.text);
    } else {
      var text := ValueText(value);
      assert "true"[0] == 't' && "true"[3] == 'e' && "false"[0] == 'f' && "false"[4] == 'e';
      assert forall i :: 0 <= i < |text| ==> Quiet(text[i]);
      QuietCrosses(text);
    }
  }

  /** An assignment that was written is read as that assignment. */
  lemma {:induction false} AssignmentIsRead(key: string, value: Json)
    requires Word(key) && (value.JBool? || value.JString?)
    ensures MeaningOf(AssignmentText(key, value)) == Assign(key, value)
  {
    var text, line := ValueText(value), AssignmentText(key, value);
    ValueIsTight(value);
    ValueIsRead(value);
    KeyCrosses(key);
    CrossesBoth(key + " = ", text, OUTSIDE, OUTSIDE, OUTSIDE);
    TightLine(key, text);
    EqualsIsFound(key, text);
    TightIsRead(line, |key| + 1);
    TrimTrailing(key, ' ');
    TrimLeadingSpace(text);
  }

  lemma {:induction false} TightIsRead(line: string, eq: nat)
    requires Crosses(line, OUTSIDE, OUTSIDE) && Trim(line) == line && !IsHeader(line) && eq < |line| && FirstIndex(line, '=') == eq
    ensures MeaningOf(line) == AssignmentOf(line, eq)
  {
    assert WithoutComment(line) == line;
  }

  lemma {:induction false} EqualsIsFound(key: string, text: string)
    requires Word(key)
    ensures var line := key + " = " + text;
            FirstIndex(line, '=') == |key| + 1 && line[..|key| + 1] == key + [' '] && line[|key| + 2..] == " " + text
  {
    FirstIndexIs(key + [' '], '=', " " + text);
    assert key + " = " + text == (key + [' ']) + ['='] + (" " + text);
  }

  lemma {:induction false} KeyCrosses(key: string)
    requires Word(key)
    ensures Crosses(key + " = ", OUTSIDE, OUTSIDE)
  {
    assert forall i :: 0 <= i < |key| ==> WordChar(key[i]);
    QuietCrosses(key + " = ");
  }

  lemma {:induction false} TightLine(key: string, text: string)
    requires Word(key) && text != "" && Tight(text)
    ensures var line := key + " = " + text; Tight(line) && Trim(line) == line && !IsHeader(line)
  {
    var line := key + " = " + text;
    assert WordChar(key[0]) && line[0] == key[0] && line[|line| - 1] == text[|text| - 1];
    TrimLeadingSpace(line);
  }

  lemma {:induction false} DottedChars(path: seq<string>)
    requires Words(path)
    ensures Dotted(path) != "" && forall i :: 0 <= i < |Dotted(path)| ==> NameChar(Dotted(path)[i])
  {
    assert Word(path[0]);
    assert forall i :: 0 <= i < |path[0]| ==> WordChar(path[0][i]);
    if |path| > 1 {
      assert forall i :: 0 <= i < |path[1..]| ==> path[1..][i] == path[i + 1];
      DottedChars(path[1..]);
    }
  }

  lemma {:induction false} WordHasNoDot(s: string, rest: string)
    requires Word(s)
    ensures FirstIndex(s, '.') == |s| && FirstIndex(s + ['.'] + rest, '.') == |s|
  {
    assert forall i :: 0 <= i < |s| ==> WordChar(s[i]);
    FirstIndexFacts(s, '.');
    FirstIndexIs(s, '.', rest);
  }

  lemma {:induction false} DotsSplit(path: seq<string>)
    requires Words(path)
    ensures SplitAtDots(Dotted(path)) == path
  {
    assert Word(path[0]);
    if |path| == 1 {
      WordHasNoDot(path[0], "");
      assert path == [path[0]];
    } else {
      assert forall i :: 0 <= i < |path[1..]| ==> path[1..][i] == path[i + 1];
      DotsSplit(path[1..]);
      WordHasNoDot(path[0], Dotted(path[1..]));
      var s := path[0] + ['.'] + Dotted(path[1..]);
      assert s[..|path[0]|] == path[0] && s[|path[0]| + 1..] == Dotted(path[1..]);
      assert path == [path[0]] + path[1..];
    }
  }

  /** A section header that was written is read as that section. */
  lemma {:induction false} HeaderIsRead(path: seq<string>)
    requires Words(path)
    ensures MeaningOf(HeaderText(path)) == Section(path)
  {
    var line := HeaderText(path);
    DottedChars(path);
    DotsSplit(path);
    assert line[1..|line| - 1] == Dotted(path);
    forall i | 0 <= i < |line| ensures Quiet(line[i]) && (1 <= i < |line| - 1 ==> NameChar(line[i])) {
      if 1 <= i < |line| - 1 {
        assert line[i] == Dotted(path)[i - 1];
      }
    }
    QuietCrosses(line);
    TrimLeadingSpace(line);
    assert WithoutComment(line) == line && IsHeader(line);
  }

  lemma {:induction false} EmptyLineIsNothing()
    ensures MeaningOf("") == Nothing
  {
  }
}
