/** The archived configuration file as text: parsed line by line, serialised in sections, and written over. */
module ConfigCodec {
  import opened Outcomes
  import opened TextLines
  import opened ConfigObjects
  import opened ConfigSchema
  import opened JsonStrings
  import opened ConfigLines

  // ---- Text to lines ----------------------------------------------------------------------------------

  function DropReturn(line: string): string {
    if line != "" && line[|line| - 1] == '\r' then line[..|line| - 1] else line
  }

  /** `raw.split(/\r?\n/)`. */
  function SplitLines(s: string): seq<string>
    decreases |s|
  {
    var at := FirstIndex(s, '\n');
    if at == |s| then [s] else [DropReturn(s[..at])] + SplitLines(s[at + 1..])
  }

  predicate OnOneLine(s: string) {
    forall i :: 0 <= i < |s| ==> s[i] >= ' '
  }

  predicate EachOnOneLine(lines: seq<string>) {
    forall i :: 0 <= i < |lines| ==> OnOneLine(lines[i])
  }

  lemma {:induction false} SplitFirst(first: string, rest: string)
    requires OnOneLine(first)
    ensures SplitLines(first) == [first]
    ensures SplitLines(first + "\n" + rest) == [first] + SplitLines(rest)
  {
    FirstIndexFacts(first, '\n');
    FirstIndexIs(first, '\n', rest);
    var s := first + ['\n'] + rest;
    assert s[..|first|] == first && s[|first| + 1..] == rest;
    assert first != "" ==> first[|first| - 1] >= ' ';
  }

  lemma {:induction false} JoinedSplit(lines: seq<string>)
    requires lines != [] && EachOnOneLine(lines)
    ensures SplitLines(Join(lines)) == lines
  {
    assert OnOneLine(lines[0]);
    if |lines| == 1 {
      SplitFirst(lines[0], "");
    } else {
      assert forall i :: 0 <= i < |lines[1..]| ==> lines[1..][i] == lines[i + 1];
      JoinedSplit(lines[1..]);
      SplitFirst(lines[0], Join(lines[1..]));
      assert lines == [lines[0]] + lines[1..];
    }
  }

  // ---- Reading ----------------------------------------------------------------------------------------

  datatype Reading = Reading(section: seq<string>, result: Object)

  const START := Reading([], map[])

  /** One line read; none when its value is a malformed JSON string. */
  function ReadLine(at: Reading, line: string): Option<Reading> {
    match MeaningOf(line)
    case Nothing => Some(at)
    case Section(path) => Some(at.(section := path))
    case Assign(key, value) => Some(at.(result := SetPath(at.result, at.section + [key], value)))
    case Broken => None
  }

  function ReadLines(at: Reading, lines: seq<string>): Option<Reading> {
    if lines == [] then Some(at)
    else
      var before := ReadLines(at, lines[..|lines| - 1]);
      if before.None? then None else ReadLine(before.value, lines[|lines| - 1])
  }

  function ParsedToml(raw: string): Option<Object> {
    var read := ReadLines(START, SplitLines(raw));
    if read.None? then None else Some(read.value.result)
  }

  lemma {:induction false} ReadMore(at: Reading, a: seq<string>, line: string)
    requires ReadLines(at, a).Some?
    ensures ReadLines(at, a + [line]) == ReadLine(ReadLines(at, a).value, line)
  {
    assert (a + [line])[..|a|] == a;
  }

  lemma {:induction false} ReadNext(at: Reading, lines: seq<string>, i: nat)
    requires i < |lines| && ReadLines(at, lines[..i]).Some?
    ensures ReadLines(at, lines[..i + 1]) == ReadLine(ReadLines(at, lines[..i]).value, lines[i])
  {
    assert lines[..i + 1] == lines[..i] + [lines[i]];
    ReadMore(at, lines[..i], lines[i]);
  }

  lemma {:induction false} BrokenStaysBroken(at: Reading, lines: seq<string>, n: nat)
    requires n <= |lines| && ReadLines(at, lines[..n]).None?
    ensures ReadLines(at, lines).None?
    decreases |lines| - n
  {
    if n < |lines| {
      assert lines[..n + 1][..n] == lines[..n];
      BrokenStaysBroken(at, lines, n + 1);
    } else {
      assert lines[..n] == lines;
    }
  }

  /** What a line says to the loop of `parseTomlConfig`. */
  method ReadOriginal(original: string) returns (meaning: Meaning)
    ensures meaning == MeaningOf(original)
  {
    var uncommented := StripTomlComment(original);
    var line := Trim(uncommented);
    if line == "" {
      return Nothing;
    }
    if IsHeader(line) {
      return Section(SplitAtDots(line[1..|line| - 1]));
    }
    var eq := FirstIndex(line, '=');
    if eq == |line| {
      return Nothing;
    }
    meaning := AssignmentOf(line, eq);
  }

  /** The body of the loop of `parseTomlConfig` for one line. */
  method ReadInto(section: seq<string>, result: Object, original: string) returns (next: Option<Reading>)
    ensures next == ReadLine(Reading(section, result), original)
  {
    var meaning := ReadOriginal(original);
    match meaning
    case Nothing => next := Some(Reading(section, result));
    case Section(path) => next := Some(Reading(path, result));
    case Assign(key, value) => next := Some(Reading(section, SetPath(result, section + [key], value)));
    case Broken => next := None;
  }

  /** `parseTomlConfig`; none when `JSON.parse` throws. */
  method ParseTomlConfig(raw: string) returns (parsed: Option<Object>)
    ensures parsed == ParsedToml(raw)
  {
    var lines := SplitLines(raw);
    var result: Object, section: seq<string> := map[], [];
    for i := 0 to |lines|
      invariant ReadLines(START, lines[..i]) == Some(Reading(section, result))
    {
      ReadNext(START, lines, i);
      var next := ReadInto(section, result, lines[i]);
      if next.None? {
        BrokenStaysBroken(START, lines, i + 1);
        return None;
      }
      section, result := next.value.section, next.value.result;
    }
    assert lines[..|lines|] == lines;
    return Some(result);
  }

  /** `parseConfigText` for a path that does not end in `.json`; JSON text is read by a given function. */
  function ReadText(raw: string, json: string -> Option<Object>): Option<Object> {
    var trimmed := Trim(raw);
    if trimmed == "" then Some(map[])
    else if trimmed[0] == '{' then json(trimmed)
    else ParsedToml(trimmed)
  }

  // ---- Writing ----------------------------------------------------------------------------------------

  function LineOf(pair: Assignment): string {
    AssignmentText(KeyOf(pair.key), pair.value)
  }

  function TextsOf(pairs: seq<Assignment>): seq<string> {
    if pairs == [] then [] else TextsOf(pairs[..|pairs| - 1]) + [LineOf(pairs[|pairs| - 1])]
  }

  function SectionAtEnd(pairs: seq<Assignment>): seq<string> {
    if pairs == [] then [] else SectionOf(pairs[|pairs| - 1].key)
  }

  function HeaderLines(before: seq<string>, section: seq<string>): seq<string> {
    (if before == [] then [] else [""]) + [HeaderText(section)]
  }

  /** A header, after an empty line, wherever the section changes. */
  function OwnHeader(before: seq<string>, section: seq<string>, k: Known): seq<string> {
    if SectionOf(k) == section then [] else HeaderLines(before, SectionOf(k))
  }

  function LinesOf(pairs: seq<Assignment>): seq<string> {
    if pairs == [] then []
    else
      var init, last := pairs[..|pairs| - 1], pairs[|pairs| - 1];
      LinesOf(init) + OwnHeader(LinesOf(init), SectionAtEnd(init), last.key) + [LineOf(last)]
  }

  function TextOf(pairs: seq<Assignment>): string {
    Join(LinesOf(pairs)) + "\n"
  }

  /** `serializeTomlConfig`. */
  function SerializedText(raw: Object): string {
    TextOf(Written(raw))
  }

  /** Settings a line can hold, those outside every section first. */
  predicate Writable(pairs: seq<Assignment>) {
    && (forall i {:trigger pairs[i]} :: 0 <= i < |pairs| ==> pairs[i].value.JBool? || pairs[i].value.JString?)
    && (forall i, j {:trigger pairs[i], pairs[j]} :: 0 <= i < j < |pairs| && SectionOf(pairs[j].key) == [] ==> SectionOf(pairs[i].key) == [])
  }

  lemma {:induction false} KeysAreWords(k: Known)
    ensures Word(KeyOf(k))
  {
    if k.ModelOf? {
      assert Word("claude") && Word("codex") && Word("cursor");
    } else {
      assert Word("update_notifier") && Word("auto_commit") && Word("default") && Word("sync_since") && Word("capture_since");
    }
  }

  lemma {:induction false} SectionsAreWords(k: Known)
    requires SectionOf(k) != []
    ensures Words(SectionOf(k))
  {
    assert Word("agent") && Word("models") && Word("automation");
  }

  lemma {:induction false} HeaderLinesAreRead(at: Reading, lines: seq<string>, k: Known)
    requires ReadLines(START, lines) == Some(at) && SectionOf(k) != []
    ensures ReadLines(START, lines + HeaderLines(lines, SectionOf(k))) == Some(at.(section := SectionOf(k)))
  {
    var header := HeaderText(SectionOf(k));
    SectionsAreWords(k);
    HeaderIsRead(SectionOf(k));
    if lines == [] {
      ReadMore(START, lines, header);
      assert HeaderLines(lines, SectionOf(k)) == [header];
    } else {
      EmptyLineIsNothing();
      ReadMore(START, lines, "");
      ReadMore(START, lines + [""], header);
      assert lines + HeaderLines(lines, SectionOf(k)) == lines + [""] + [header];
    }
  }

  lemma {:induction false} NextIsRead(at: Reading, lines: seq<string>, next: Assignment)
    requires ReadLines(START, lines) == Some(at) && (next.value.JBool? || next.value.JString?)
    requires SectionOf(next.key) != at.section ==> SectionOf(next.key) != []
    ensures ReadLines(START, lines + OwnHeader(lines, at.section, next.key) + [LineOf(next)]) ==
            Some(Reading(SectionOf(next.key), SetPath(at.result, PathOf(next.key), next.value)))
  {
    var section := SectionOf(next.key);
    var headed := lines + OwnHeader(lines, at.section, next.key);
    if section != at.section {
      HeaderLinesAreRead(at, lines, next.key);
    } else {
      assert headed == lines;
    }
    KeysAreWords(next.key);
    AssignmentIsRead(KeyOf(next.key), next.value);
    ReadMore(START, headed, LineOf(next));
  }

  /** Reading the written lines assigns the written settings, one by one and in order. */
  lemma {:induction false} LinesAreRead(pairs: seq<Assignment>)
    requires Writable(pairs)
    ensures ReadLines(START, LinesOf(pairs)) == Some(Reading(SectionAtEnd(pairs), Assigned(map[], pairs)))
  {
    if pairs != [] {
      var init := pairs[..|pairs| - 1];
      LinesAreRead(init);
      NextIsRead(Reading(SectionAtEnd(init), Assigned(map[], init)), LinesOf(init), pairs[|pairs| - 1]);
    }
  }

  // ---- Written lines in one text ----------------------------------------------------------------------

  predicate StartsALine(c: char) {
    WordChar(c) || c == '['
  }

  lemma {:induction false} LineFacts(pair: Assignment)
    requires pair.value.JBool? || pair.value.JString?
    ensures OnOneLine(LineOf(pair)) && Tight(LineOf(pair)) && LineOf(pair) != "" && StartsALine(LineOf(pair)[0])
  {
    var key, text := KeyOf(pair.key), ValueText(pair.value);
    KeysAreWords(pair.key);
    ValueIsTight(pair.value);
    TightLine(key, text);
    assert WordChar(key[0]) && LineOf(pair)[0] == key[0];
    ValueStaysOnLine(pair.value);
    BothOnOneLine(key, " = ");
    BothOnOneLine(key + " = ", text);
  }

  lemma {:induction false} BothOnOneLine(a: string, b: string)
    requires (Word(a) || OnOneLine(a)) && OnOneLine(b)
    ensures OnOneLine(a + b)
  {
    assert Word(a) ==> forall i :: 0 <= i < |a| ==> WordChar(a[i]);
  }

  lemma {:induction false} ValueStaysOnLine(value: Json)
    requires value.JBool? || value.JString?
    ensures OnOneLine(ValueText(value))
  {
    if value.JString? {
      StaysOnLine(value.text);
      BothOnOneLine(['\"'], EscapeAll(value.text));
      BothOnOneLine(['\"'] + EscapeAll(value.text), ['\"']);
    }
  }

  lemma {:induction false} HeaderStaysOnLine(k: Known)
    requires SectionOf(k) != []
    ensures OnOneLine(HeaderText(SectionOf(k)))
  {
    SectionsAreWords(k);
    DottedChars(SectionOf(k));
    var dotted := Dotted(SectionOf(k));
    assert forall i :: 0 <= i < |dotted| ==> NameChar(dotted[i]);
    assert OnOneLine(dotted);
    BothOnOneLine(['['], dotted);
    BothOnOneLine(['['] + dotted, [']']);
  }

  /** Lines that stay lines, the first of them not blank. */
  predicate Tidy(lines: seq<string>) {
    EachOnOneLine(lines) && (lines != [] ==> lines[0] != "" && StartsALine(lines[0][0]))
  }

  lemma {:induction false} TidyMore(lines: seq<string>, line: string)
    requires Tidy(lines) && OnOneLine(line) && (lines == [] ==> line != "" && StartsALine(line[0]))
    ensures Tidy(lines + [line])
  {
  }

  lemma {:induction false} HeaderLinesAreTidy(lines: seq<string>, k: Known)
    requires Tidy(lines) && SectionOf(k) != []
    ensures Tidy(lines + HeaderLines(lines, SectionOf(k)))
  {
    var header := HeaderText(SectionOf(k));
    HeaderStaysOnLine(k);
    if lines == [] {
      TidyMore(lines, header);
      assert HeaderLines(lines, SectionOf(k)) == [header];
    } else {
      TidyMore(lines, "");
      TidyMore(lines + [""], header);
      assert lines + HeaderLines(lines, SectionOf(k)) == lines + [""] + [header];
    }
  }

  lemma {:induction false} LinesAreTidy(pairs: seq<Assignment>)
    requires Writable(pairs)
    ensures Tidy(LinesOf(pairs))
  {
    if pairs != [] {
      var init, last := pairs[..|pairs| - 1], pairs[|pairs| - 1];
      LinesAreTidy(init);
      var headed := LinesOf(init) + OwnHeader(LinesOf(init), SectionAtEnd(init), last.key);
      if SectionOf(last.key) != SectionAtEnd(init) {
        HeaderLinesAreTidy(LinesOf(init), last.key);
      } else {
        assert headed == LinesOf(init);
      }
      LineFacts(last);
      TidyMore(headed, LineOf(last));
    }
  }

  lemma {:induction false} JoinEnds(lines: seq<string>)
    requires lines != [] && lines[0] != "" && lines[|lines| - 1] != ""
    ensures var text, last := Join(lines), lines[|lines| - 1];
            text != "" && text[0] == lines[0][0] && text[|text| - 1] == last[|last| - 1]
  {
    if |lines| > 1 {
      JoinLast(lines[..|lines| - 1], lines[|lines| - 1]);
      assert lines == lines[..|lines| - 1] + [lines[|lines| - 1]];
    }
  }

  lemma {:induction false} TextIsRead(pairs: seq<Assignment>, json: string -> Option<Object>)
    requires Writable(pairs)
    ensures ReadText(TextOf(pairs), json) == Some(Assigned(map[], pairs))
  {
    if pairs == [] {
      NothingIsRead(json);
    } else {
      var lines, text := LinesOf(pairs), Join(LinesOf(pairs));
      LinesAreTidy(pairs);
      LineFacts(pairs[|pairs| - 1]);
      assert lines[|lines| - 1] == LineOf(pairs[|pairs| - 1]);
      JoinEnds(lines);
      assert text[0] != '{' && Tight(text);
      TrimTrailing(text, '\n');
      assert text + "\n" == text + ['\n'];
      JoinedSplit(lines);
      LinesAreRead(pairs);
    }
  }

  lemma {:induction false} NothingIsRead(json: string -> Option<Object>)
    ensures ReadText("" + "\n", json) == Some(map[])
  {
    var line := "" + "\n";
    assert line == ['\n'] && line[1..] == "";
    assert TrimStart(line) == "";
  }

  // ---- What is written of an object -------------------------------------------------------------------

  predicate FlagsFirst(order: seq<Known>) {
    forall i, j {:trigger order[i], order[j]} :: 0 <= i < j < |order| && SectionOf(order[j]) == [] ==> SectionOf(order[i]) == []
  }

  lemma {:induction false} CollectedKeys(order: seq<Known>, value: Known -> Option<Json>)
    ensures forall i :: 0 <= i < |Collected(order, value)| ==> Collected(order, value)[i].key in order
  {
    if order != [] {
      CollectedKeys(order[..|order| - 1], value);
    }
  }

  lemma {:induction false} KeptIsWritable(order: seq<Known>, raw: Object)
    requires FlagsFirst(order)
    ensures Writable(Collected(order, KeptIn(raw)))
  {
    if order != [] {
      var init, last := order[..|order| - 1], order[|order| - 1];
      KeptIsWritable(init, raw);
      CollectedKeys(init, KeptIn(raw));
      forall k | k in init && SectionOf(last) == [] ensures SectionOf(k) == [] {
      }
    }
  }

  lemma {:induction false} WrittenIsWritable(raw: Object)
    ensures Writable(Written(raw))
  {
    KeptIsWritable(ORDER, raw);
  }

  /** Parsing what was serialised gives back every known setting as it was kept, for every text in it. */
  lemma {:induction false} RoundTrip(raw: Object, json: string -> Option<Object>)
    ensures ReadText(SerializedText(raw), json) == Some(Assigned(map[], Written(raw)))
    ensures KeepsOf(raw, ReadText(SerializedText(raw), json).value)
  {
    WrittenIsWritable(raw);
    TextIsRead(Written(raw), json);
    WrittenKeeps(raw);
  }

  /** The configuration read from the serialised text is the one read from the object exactly when the sync date does not
      come from the legacy key alone. */
  lemma {:induction false} ConfigRoundTrip(raw: Object, json: string -> Option<Object>, isDate: string -> bool)
    ensures var read := ReadText(SerializedText(raw), json);
            read.Some? && (Normalized(read.value, isDate) == Normalized(raw, isDate) <==> !LegacyOnly(raw, isDate))
  {
    RoundTrip(raw, json);
    WrittenIsRead(raw, ReadText(SerializedText(raw), json).value, isDate);
  }

  /** For instance an object whose only setting is a date under the legacy key. */
  lemma LegacyDateIsLost(date: string, json: string -> Option<Object>, isDate: string -> bool)
    requires isDate(date)
    ensures var read := ReadText(SerializedText(LegacyObject(date)), json);
            read.Some? && Normalized(read.value, isDate) != Normalized(LegacyObject(date), isDate)
    ensures Normalized(LegacyObject(date), isDate).syncSince == Some(date)
  {
    LegacyObjectIsRead(date, isDate);
    ConfigRoundTrip(LegacyObject(date), json, isDate);
  }
}
