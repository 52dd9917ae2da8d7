/** A config file as lines: what each line says to a line reader, and the edits that set one value. */
module TomlLines {
  import opened Outcomes

  // ---- Lines --------------------------------------------------------------------------------------

  /** What a line is to the editor: a table header, an assignment, nothing (blank or comment), or something it does not read. */
  datatype Kind = Header(text: string) | Assign(key: string, literal: string) | Nothing | Unread

  /** A line with what its text says; `TomlText` makes them from strings. */
  datatype Line = Line(text: string, kind: Kind, blank: bool)

  const BLANK := Line("", Nothing, true)

  /** Which table a line belongs to: the text of the last header before it, none at the top. */
  type Table = Option<string>

  datatype Setting = Setting(table: Table, key: string, literal: string)

  function TableAfter(lines: seq<Line>, table: Table): Table {
    if lines == [] then table
    else match lines[|lines| - 1].kind
      case Header(text) => Some(text)
      case _ => TableAfter(lines[..|lines| - 1], table)
  }

  function Settings(lines: seq<Line>, table: Table): seq<Setting> {
    if lines == [] then []
    else
      var init, last := lines[..|lines| - 1], lines[|lines| - 1];
      Settings(init, table)
      + match last.kind
        case Assign(key, literal) => [Setting(TableAfter(init, table), key, literal)]
        case _ => []
  }

  function Headers(lines: seq<Line>): seq<string> {
    if lines == [] then []
    else Headers(lines[..|lines| - 1]) + if lines[|lines| - 1].kind.Header? then [lines[|lines| - 1].kind.text] else []
  }

  lemma {:induction false} TableAfterBoth(a: seq<Line>, b: seq<Line>, table: Table)
    ensures TableAfter(a + b, table) == TableAfter(b, TableAfter(a, table))
  {
    if b == [] {
      assert a + b == a;
    } else {
      TableAfterBoth(a, b[..|b| - 1], table);
      assert (a + b)[..|a + b| - 1] == a + b[..|b| - 1];
    }
  }

  lemma {:induction false} SettingsOfBoth(a: seq<Line>, b: seq<Line>, table: Table)
    ensures Settings(a + b, table) == Settings(a, table) + Settings(b, TableAfter(a, table))
  {
    if b == [] {
      assert a + b == a;
    } else {
      SettingsOfBoth(a, b[..|b| - 1], table);
      TableAfterBoth(a, b[..|b| - 1], table);
      assert (a + b)[..|a + b| - 1] == a + b[..|b| - 1];
    }
  }

  lemma {:induction false} HeadersOfBoth(a: seq<Line>, b: seq<Line>)
    ensures Headers(a + b) == Headers(a) + Headers(b)
  {
    if b == [] {
      assert a + b == a;
    } else {
      HeadersOfBoth(a, b[..|b| - 1]);
      assert (a + b)[..|a + b| - 1] == a + b[..|b| - 1];
    }
  }

  lemma {:induction false} Concatenated(a: seq<Line>, b: seq<Line>, table: Table)
    ensures TableAfter(a + b, table) == TableAfter(b, TableAfter(a, table))
    ensures Settings(a + b, table) == Settings(a, table) + Settings(b, TableAfter(a, table))
    ensures Headers(a + b) == Headers(a) + Headers(b)
  {
    TableAfterBoth(a, b, table);
    SettingsOfBoth(a, b, table);
    HeadersOfBoth(a, b);
  }

  predicate Assigns(s: Setting, table: Table, key: string) {
    s.table == table && s.key == key
  }

  predicate Absent(settings: seq<Setting>, table: Table, key: string) {
    forall i {:trigger settings[i]} :: 0 <= i < |settings| ==> !Assigns(settings[i], table, key)
  }

  predicate UniqueSettings(settings: seq<Setting>) {
    forall i, j :: 0 <= i < j < |settings| ==> settings[i].table != settings[j].table || settings[i].key != settings[j].key
  }

  predicate Distinct(headers: seq<string>) {
    forall i, j :: 0 <= i < j < |headers| ==> headers[i] != headers[j]
  }

  /** Every line is one the editor reads, and blank lines say nothing. */
  predicate AllRead(lines: seq<Line>) {
    forall i {:trigger lines[i]} :: 0 <= i < |lines| ==> !lines[i].kind.Unread? && (lines[i].blank ==> lines[i].kind.Nothing?)
  }

  /** A body the editor understands: single-line assignments, each key once in its table, each table once. */
  predicate WellFormed(lines: seq<Line>) {
    AllRead(lines) && UniqueSettings(Settings(lines, None)) && Distinct(Headers(lines))
  }

  /** What a reader makes of the settings. */
  function Read(settings: seq<Setting>): map<(Table, string), string> {
    if settings == [] then map[]
    else
      var last := settings[|settings| - 1];
      Read(settings[..|settings| - 1])[(last.table, last.key) := last.literal]
  }

  /** Settings under a header name a table of that header or a later one. */
  lemma {:induction false} TablesAreHeaders(lines: seq<Line>, table: Table, i: nat)
    requires i < |Settings(lines, table)|
    ensures Settings(lines, table)[i].table == table || (Settings(lines, table)[i].table.Some? && Settings(lines, table)[i].table.value in Headers(lines))
  {
    var init, last := lines[..|lines| - 1], lines[|lines| - 1];
    if i < |Settings(init, table)| {
      TablesAreHeaders(init, table, i);
    } else {
      TableIsHeader(init, table);
    }
  }

  lemma {:induction false} TableIsHeader(lines: seq<Line>, table: Table)
    ensures TableAfter(lines, table) == table || (TableAfter(lines, table).Some? && TableAfter(lines, table).value in Headers(lines))
  {
    if lines != [] && !lines[|lines| - 1].kind.Header? {
      TableIsHeader(lines[..|lines| - 1], table);
    }
  }

  /** Under its first line, a header, a stretch of lines sets nothing in a table with no header there. */
  lemma {:induction false} NothingInOtherTables(lines: seq<Line>, before: Table, table: Table, key: string)
    requires lines != [] && lines[0].kind.Header? && (table.None? || table.value !in Headers(lines))
    ensures Absent(Settings(lines, before), table, key)
  {
    assert lines == [lines[0]] + lines[1..];
    Concatenated([lines[0]], lines[1..], before);
    var inner := Settings(lines[1..], TableAfter([lines[0]], before));
    assert Settings([lines[0]], before) == [] && Headers([lines[0]]) == [lines[0].kind.text];
    forall i | 0 <= i < |inner| ensures !Assigns(inner[i], table, key) {
      TablesAreHeaders(lines[1..], TableAfter([lines[0]], before), i);
    }
  }

  // ---- Edits --------------------------------------------------------------------------------------

  /** Kept lines, new lines, the line they take the place of if any, and kept lines. */
  datatype Edit = Edit(before: seq<Line>, inserted: seq<Line>, replaced: seq<Line>, after: seq<Line>)

  function NewLines(e: Edit): seq<Line> {
    e.before + e.inserted + e.after
  }

  function DropBlankTail(lines: seq<Line>): seq<Line> {
    if lines != [] && lines[|lines| - 1].blank then DropBlankTail(lines[..|lines| - 1]) else lines
  }

  function BlankHeadLength(lines: seq<Line>): (n: nat)
    ensures n <= |lines|
  {
    if lines != [] && lines[0].blank then 1 + BlankHeadLength(lines[1..]) else 0
  }

  function DropBlankHead(lines: seq<Line>): seq<Line> {
    lines[BlankHeadLength(lines)..]
  }

  /** A blank line to keep new lines apart from the lines before. */
  function Gap(before: seq<Line>): seq<Line> {
    if before != [] && !before[|before| - 1].blank then [BLANK] else []
  }

  /** `update_top_level_value` from some point on: at the key, before the first table, or on top. */
  function TopEdit(before: seq<Line>, rest: seq<Line>, key: string, replacement: Line): Edit
    decreases |rest|
  {
    if rest == [] then Edit([], [replacement], [], before)
    else match rest[0].kind
      case Header(_) => Edit(before, Gap(before) + [replacement, BLANK], [], rest)
      case Assign(k, _) =>
        if k == key then Edit(before, [replacement], [rest[0]], rest[1..]) else TopEdit(before + [rest[0]], rest[1..], key, replacement)
      case _ => TopEdit(before + [rest[0]], rest[1..], key, replacement)
  }

  /** `update_table_value` from some point on: at the key, at the end of its table, or as a new table at the end. */
  function TableEdit(before: seq<Line>, rest: seq<Line>, inTable: bool, header: Line, key: string, replacement: Line): Edit
    decreases |rest|
  {
    if rest == [] then
      if inTable then Edit(before, [replacement], [], []) else Edit(before, Gap(before) + [header, replacement], [], [])
    else match rest[0].kind
      case Header(text) =>
        if inTable then Edit(DropBlankTail(before), [replacement, BLANK], [], rest)
        else TableEdit(before + [rest[0]], rest[1..], text == header.text, header, key, replacement)
      case Assign(k, _) =>
        if inTable && k == key then Edit(before, [replacement], [rest[0]], rest[1..])
        else TableEdit(before + [rest[0]], rest[1..], inTable, header, key, replacement)
      case _ => TableEdit(before + [rest[0]], rest[1..], inTable, header, key, replacement)
  }

  /** One value to set: the header of its table, unless it is a top-level one, and the line that sets it. */
  datatype Change = Change(header: Option<Line>, replacement: Line)

  predicate Readable(c: Change) {
    c.replacement.kind.Assign? && !c.replacement.blank
    && (c.header.Some? ==> c.header.value.kind == Header(c.header.value.text) && !c.header.value.blank)
  }

  function TableOf(c: Change): Table {
    if c.header.Some? then Some(c.header.value.text) else None
  }

  function EditFor(lines: seq<Line>, c: Change): Edit
    requires Readable(c)
  {
    if c.header.None? then TopEdit([], lines, c.replacement.kind.key, c.replacement)
    else TableEdit([], lines, false, c.header.value, c.replacement.kind.key, c.replacement)
  }

  // ---- What an edit keeps and what it sets ----------------------------------------------------------

  predicate AllBlank(lines: seq<Line>) {
    forall i {:trigger lines[i]} :: 0 <= i < |lines| ==> lines[i].blank && lines[i].kind.Nothing?
  }

  /** The lines an edit drops from between the kept ones. */
  function Dropped(lines: seq<Line>, e: Edit): seq<Line>
    requires |e.before| + |e.after| <= |lines|
  {
    lines[|e.before|..|lines| - |e.after|]
  }

  /** Nothing but the replaced line, or blank lines, is dropped. */
  predicate Keeps(lines: seq<Line>, e: Edit) {
    && |e.before| + |e.after| <= |lines|
    && e.before == lines[..|e.before|] && e.after == lines[|lines| - |e.after|..]
    && (Dropped(lines, e) == e.replaced || (e.replaced == [] && AllBlank(Dropped(lines, e))))
  }

  /** The new lines set the one value where no kept line sets it, and leave the kept lines after them in their tables. */
  predicate Hits(e: Edit, table: Table, key: string, literal: string) {
    var here := TableAfter(e.before, None);
    && Settings(e.inserted, here) == [Setting(table, key, literal)]
    && Absent(Settings(e.before, None), table, key)
    && Absent(Settings(e.after, here), table, key)
    && (e.after == [] || e.after[0].kind.Header? || TableAfter(e.inserted, here) == here)
    && AllRead(e.inserted)
    && (Headers(e.inserted) == []
        || (e.after == [] && table.Some? && Headers(e.inserted) == [table.value] && table.value !in Headers(e.before)))
    && (e.replaced == [] || (|e.replaced| == 1 && here == table && e.replaced[0].kind.Assign? && e.replaced[0].kind.key == key))
  }

  lemma {:induction false} BlanksSayNothing(lines: seq<Line>, table: Table)
    requires AllBlank(lines)
    ensures Settings(lines, table) == [] && Headers(lines) == [] && TableAfter(lines, table) == table
  {
    if lines != [] {
      assert lines[|lines| - 1].blank;
      BlanksSayNothing(lines[..|lines| - 1], table);
    }
  }

  lemma {:induction false} BlankTailIsDropped(lines: seq<Line>)
    requires AllRead(lines)
    ensures |DropBlankTail(lines)| <= |lines|
    ensures DropBlankTail(lines) == lines[..|DropBlankTail(lines)|] && AllBlank(lines[|DropBlankTail(lines)|..])
  {
    if lines != [] && lines[|lines| - 1].blank {
      var init := lines[..|lines| - 1];
      BlankTailIsDropped(init);
      assert lines[|DropBlankTail(init)|..] == init[|DropBlankTail(init)|..] + [lines[|lines| - 1]];
    }
  }

  lemma {:induction false} One(line: Line, table: Table)
    ensures Settings([line], table) == (if line.kind.Assign? then [Setting(table, line.kind.key, line.kind.literal)] else [])
    ensures Headers([line]) == (if line.kind.Header? then [line.kind.text] else [])
    ensures TableAfter([line], table) == (if line.kind.Header? then Some(line.kind.text) else table)
  {
    assert [line][..0] == [];
  }

  lemma {:induction false} Added(lines: seq<Line>, line: Line, table: Table)
    ensures Settings(lines + [line], table)
            == Settings(lines, table) + (if line.kind.Assign? then [Setting(TableAfter(lines, table), line.kind.key, line.kind.literal)] else [])
    ensures Headers(lines + [line]) == Headers(lines) + (if line.kind.Header? then [line.kind.text] else [])
    ensures TableAfter(lines + [line], table) == (if line.kind.Header? then Some(line.kind.text) else TableAfter(lines, table))
  {
    assert (lines + [line])[..|lines|] == lines;
  }

  lemma AbsentAround(p: seq<Setting>, s: Setting, q: seq<Setting>)
    requires UniqueSettings(p + [s] + q)
    ensures Absent(p, s.table, s.key) && Absent(q, s.table, s.key)
  {
    var all := p + [s] + q;
    assert all[|p|] == s;
    assert forall i :: 0 <= i < |p| ==> all[i] == p[i];
    assert forall i :: 0 <= i < |q| ==> all[|p| + 1 + i] == q[i];
  }

  /** With each key set once, nothing else sets what the line at the cut sets. */
  lemma {:induction false} SetOnce(before: seq<Line>, line: Line, after: seq<Line>)
    requires line.kind.Assign? && UniqueSettings(Settings(before + [line] + after, None))
    ensures Absent(Settings(before, None), TableAfter(before, None), line.kind.key)
    ensures Absent(Settings(after, TableAfter(before, None)), TableAfter(before, None), line.kind.key)
  {
    var here := TableAfter(before, None);
    Added(before, line, None);
    Concatenated(before + [line], after, None);
    AbsentAround(Settings(before, None), Setting(here, line.kind.key, line.kind.literal), Settings(after, here));
  }

  /** A good edit keeps what it should, sets what it should, and swaps line for line when it found the key. */
  predicate Good(lines: seq<Line>, e: Edit, table: Table, replacement: Line)
    requires replacement.kind.Assign?
  {
    && Keeps(lines, e) && Hits(e, table, replacement.kind.key, replacement.kind.literal)
    && replacement in e.inserted && (e.replaced != [] ==> e.inserted == [replacement])
    && (e.before == [] ==> !e.inserted[0].blank)
  }

  /** The key was found: its line is replaced. */
  lemma {:induction false} MatchIsGood(before: seq<Line>, found: Line, after: seq<Line>, replacement: Line)
    requires replacement.kind.Assign? && !replacement.blank && found.kind.Assign? && found.kind.key == replacement.kind.key
    requires UniqueSettings(Settings(before + [found] + after, None))
    ensures Good(before + [found] + after, Edit(before, [replacement], [found], after), TableAfter(before, None), replacement)
  {
    var lines := before + [found] + after;
    SetOnce(before, found, after);
    One(replacement, TableAfter(before, None));
    assert lines[..|before|] == before && lines[|before|..|before| + 1] == [found] && lines[|before| + 1..] == after;
  }

  lemma {:induction false} TwoLines(a: Line, b: Line, table: Table)
    ensures Settings([a, b], table) == Settings([a], table) + Settings([b], TableAfter([a], table))
    ensures Headers([a, b]) == Headers([a]) + Headers([b]) && TableAfter([a, b], table) == TableAfter([b], TableAfter([a], table))
  {
    assert [a, b] == [a] + [b];
    Concatenated([a], [b], table);
  }

  lemma {:induction false} WithGap(before: seq<Line>, lines: seq<Line>, table: Table)
    ensures Settings(Gap(before) + lines, table) == Settings(lines, table) && TableAfter(Gap(before) + lines, table) == TableAfter(lines, table)
    ensures Headers(Gap(before) + lines) == Headers(lines)
  {
    One(BLANK, table);
    if Gap(before) == [] {
      assert Gap(before) + lines == lines;
    } else {
      Concatenated([BLANK], lines, table);
    }
  }

  /** The replacement and a blank line after it say one thing. */
  lemma {:induction false} ThenBlank(replacement: Line, table: Table)
    requires replacement.kind.Assign?
    ensures Settings([replacement, BLANK], table) == [Setting(table, replacement.kind.key, replacement.kind.literal)]
    ensures Headers([replacement, BLANK]) == [] && TableAfter([replacement, BLANK], table) == table
  {
    TwoLines(replacement, BLANK, table);
    One(replacement, table);
    One(BLANK, table);
  }

  lemma {:induction false} OnTopIsGood(lines: seq<Line>, replacement: Line)
    requires replacement.kind.Assign? && !replacement.blank && Absent(Settings(lines, None), None, replacement.kind.key)
    ensures Good(lines, Edit([], [replacement], [], lines), None, replacement)
  {
    One(replacement, None);
  }

  lemma {:induction false} NothingDropped(before: seq<Line>, rest: seq<Line>, inserted: seq<Line>)
    ensures Keeps(before + rest, Edit(before, inserted, [], rest))
  {
    var lines := before + rest;
    assert lines[..|before|] == before && lines[|before|..] == rest && lines[|before|..|before|] == [];
  }

  lemma {:induction false} BeforeTableHits(before: seq<Line>, rest: seq<Line>, replacement: Line)
    requires replacement.kind.Assign? && !replacement.blank && rest != [] && rest[0].kind.Header?
    requires TableAfter(before, None) == None && Absent(Settings(before, None), None, replacement.kind.key)
    ensures Hits(Edit(before, Gap(before) + [replacement, BLANK], [], rest), None, replacement.kind.key, replacement.kind.literal)
  {
    ThenBlank(replacement, None);
    WithGap(before, [replacement, BLANK], None);
    NothingInOtherTables(rest, None, None, replacement.kind.key);
  }

  lemma {:induction false} BeforeTableIsGood(before: seq<Line>, rest: seq<Line>, replacement: Line)
    requires replacement.kind.Assign? && !replacement.blank && rest != [] && rest[0].kind.Header?
    requires TableAfter(before, None) == None && Absent(Settings(before, None), None, replacement.kind.key)
    ensures Good(before + rest, Edit(before, Gap(before) + [replacement, BLANK], [], rest), None, replacement)
  {
    BeforeTableHits(before, rest, replacement);
    NothingDropped(before, rest, Gap(before) + [replacement, BLANK]);
    assert (Gap(before) + [replacement, BLANK])[|Gap(before)|] == replacement;
  }

  lemma {:induction false} TopEditIsGood(before: seq<Line>, rest: seq<Line>, replacement: Line)
    requires replacement.kind.Assign? && !replacement.blank && UniqueSettings(Settings(before + rest, None))
    requires TableAfter(before, None) == None && Absent(Settings(before, None), None, replacement.kind.key)
    ensures Good(before + rest, TopEdit(before, rest, replacement.kind.key, replacement), None, replacement)
    decreases |rest|
  {
    if rest == [] {
      assert before + rest == before;
      OnTopIsGood(before, replacement);
    } else if rest[0].kind.Header? {
      BeforeTableIsGood(before, rest, replacement);
    } else {
      assert before + rest == before + [rest[0]] + rest[1..];
      Added(before, rest[0], None);
      if rest[0].kind.Assign? && rest[0].kind.key == replacement.kind.key {
        MatchIsGood(before, rest[0], rest[1..], replacement);
      } else {
        TopEditIsGood(before + [rest[0]], rest[1..], replacement);
      }
    }
  }

  lemma {:induction false} InTableEndIsGood(before: seq<Line>, replacement: Line)
    requires replacement.kind.Assign? && !replacement.blank
    requires Absent(Settings(before, None), TableAfter(before, None), replacement.kind.key)
    ensures Good(before, Edit(before, [replacement], [], []), TableAfter(before, None), replacement)
  {
    assert before[|before|..|before|] == [] && before[..|before|] == before && before[|before|..] == [];
    One(replacement, TableAfter(before, None));
  }

  lemma {:induction false} NewTableIsGood(before: seq<Line>, header: Line, replacement: Line)
    requires replacement.kind.Assign? && !replacement.blank && header.kind == Header(header.text) && !header.blank
    requires header.text !in Headers(before) && Absent(Settings(before, None), Some(header.text), replacement.kind.key)
    ensures Good(before, Edit(before, Gap(before) + [header, replacement], [], []), Some(header.text), replacement)
  {
    var here := TableAfter(before, None);
    assert before[|before|..|before|] == [] && before[..|before|] == before && before[|before|..] == [];
    HeaderThenSetting(header, replacement, here);
    WithGap(before, [header, replacement], here);
    assert [header, replacement][1] == replacement;
  }

  lemma {:induction false} HeaderThenSetting(header: Line, replacement: Line, table: Table)
    requires replacement.kind.Assign? && header.kind == Header(header.text)
    ensures Settings([header, replacement], table) == [Setting(Some(header.text), replacement.kind.key, replacement.kind.literal)]
    ensures Headers([header, replacement]) == [header.text]
  {
    One(header, table);
    One(replacement, Some(header.text));
    TwoLines(header, replacement, table);
  }

  lemma {:induction false} TailIsCut(before: seq<Line>, rest: seq<Line>)
    requires AllRead(before)
    ensures var kept := DropBlankTail(before);
            && Keeps(before + rest, Edit(kept, [], [], rest))
            && TableAfter(kept, None) == TableAfter(before, None) && Settings(kept, None) == Settings(before, None)
            && Headers(kept) == Headers(before)
  {
    var kept, lines := DropBlankTail(before), before + rest;
    BlankTailIsDropped(before);
    var tail := before[|kept|..];
    assert before == kept + tail;
    Concatenated(kept, tail, None);
    BlanksSayNothing(tail, TableAfter(kept, None));
    assert lines[..|kept|] == kept && lines[|before|..] == rest && lines[|kept|..|before|] == tail;
  }

  lemma {:induction false} IntoTableIsGood(before: seq<Line>, rest: seq<Line>, header: Line, replacement: Line)
    requires replacement.kind.Assign? && !replacement.blank && rest != [] && rest[0].kind.Header? && AllRead(before)
    requires TableAfter(before, None) == Some(header.text) && header.text !in Headers(rest)
    requires Absent(Settings(before, None), Some(header.text), replacement.kind.key)
    ensures Good(before + rest, Edit(DropBlankTail(before), [replacement, BLANK], [], rest), Some(header.text), replacement)
  {
    TailIsCut(before, rest);
    ThenBlank(replacement, Some(header.text));
    NothingInOtherTables(rest, Some(header.text), Some(header.text), replacement.kind.key);
  }

  lemma {:induction false} AllReadMoves(before: seq<Line>, rest: seq<Line>)
    requires AllRead(before) && AllRead(rest) && rest != []
    ensures AllRead(before + [rest[0]]) && AllRead(rest[1..])
  {
  }

  lemma {:induction false} TableEditIsGood(before: seq<Line>, rest: seq<Line>, inTable: bool, header: Line, replacement: Line)
    requires replacement.kind.Assign? && !replacement.blank && header.kind == Header(header.text) && !header.blank
    requires AllRead(before) && AllRead(rest)
    requires UniqueSettings(Settings(before + rest, None)) && Distinct(Headers(before + rest))
    requires if inTable then TableAfter(before, None) == Some(header.text)
             else TableAfter(before, None) != Some(header.text) && header.text !in Headers(before)
    requires Absent(Settings(before, None), Some(header.text), replacement.kind.key)
    ensures Good(before + rest, TableEdit(before, rest, inTable, header, replacement.kind.key, replacement), Some(header.text), replacement)
    decreases |rest|
  {
    if rest == [] {
      assert before + rest == before;
      if inTable {
        InTableEndIsGood(before, replacement);
      } else {
        NewTableIsGood(before, header, replacement);
      }
    } else if rest[0].kind.Header? && inTable {
      Concatenated(before, rest, None);
      TableIsHeader(before, None);
      ApartHeaders(Headers(before), Headers(rest), header.text);
      IntoTableIsGood(before, rest, header, replacement);
    } else {
      assert before + rest == before + [rest[0]] + rest[1..];
      Added(before, rest[0], None);
      AllReadMoves(before, rest);
      if rest[0].kind.Assign? && inTable && rest[0].kind.key == replacement.kind.key {
        MatchIsGood(before, rest[0], rest[1..], replacement);
      } else {
        TableEditIsGood(before + [rest[0]], rest[1..], if rest[0].kind.Header? then rest[0].kind.text == header.text else inTable,
                        header, replacement);
      }
    }
  }

  lemma ApartHeaders(a: seq<string>, b: seq<string>, header: string)
    requires Distinct(a + b) && header in a
    ensures header !in b
  {
    var i :| 0 <= i < |a| && a[i] == header;
    assert (a + b)[i] == header;
    assert forall j :: 0 <= j < |b| ==> (a + b)[|a| + j] == b[j];
  }

  lemma {:induction false} EditIsGood(lines: seq<Line>, c: Change)
    requires WellFormed(lines) && Readable(c)
    ensures Good(lines, EditFor(lines, c), TableOf(c), c.replacement)
  {
    assert [] + lines == lines;
    if c.header.None? {
      TopEditIsGood([], lines, c.replacement);
    } else {
      TableEditIsGood([], lines, false, c.header.value, c.replacement);
    }
  }

  // ---- What the reader sees afterwards --------------------------------------------------------------

  lemma {:induction false} HeaderResets(lines: seq<Line>, a: Table, b: Table)
    requires lines != [] && lines[0].kind.Header?
    ensures Settings(lines, a) == Settings(lines, b)
  {
    assert lines == [lines[0]] + lines[1..];
    One(lines[0], a);
    One(lines[0], b);
    Concatenated([lines[0]], lines[1..], a);
    Concatenated([lines[0]], lines[1..], b);
  }

  lemma {:induction false} KeptApart(lines: seq<Line>, e: Edit)
    requires Keeps(lines, e)
    ensures lines == e.before + Dropped(lines, e) + e.after
  {
  }

  lemma {:induction false} DroppedSettings(lines: seq<Line>, e: Edit, table: Table, replacement: Line)
    requires replacement.kind.Assign? && Good(lines, e, table, replacement)
    ensures var here, mid := TableAfter(e.before, None), Dropped(lines, e);
            && Settings(mid, here) == (if e.replaced == [] then [] else [Setting(table, replacement.kind.key, e.replaced[0].kind.literal)])
            && TableAfter(mid, here) == here && Headers(mid) == []
  {
    var here, mid := TableAfter(e.before, None), Dropped(lines, e);
    if e.replaced == [] {
      BlanksSayNothing(mid, here);
    } else {
      assert mid == [e.replaced[0]];
      One(e.replaced[0], here);
    }
  }

  /** What the kept lines around an edit set, and what the dropped ones set. */
  lemma {:induction false} KeptSettings(lines: seq<Line>, e: Edit, table: Table, replacement: Line)
    requires replacement.kind.Assign? && Good(lines, e, table, replacement)
    ensures var here := TableAfter(e.before, None);
            var dropped := if e.replaced == [] then [] else [Setting(table, replacement.kind.key, e.replaced[0].kind.literal)];
            && Settings(lines, None) == Settings(e.before, None) + dropped + Settings(e.after, here)
            && Headers(lines) == Headers(e.before) + Headers(e.after)
  {
    KeptApart(lines, e);
    DroppedSettings(lines, e, table, replacement);
    QuietMiddle(lines, e.before, Dropped(lines, e), e.after);
  }

  /** Lines in the middle that change no table. */
  lemma {:induction false} QuietMiddle(lines: seq<Line>, a: seq<Line>, mid: seq<Line>, b: seq<Line>)
    requires lines == a + mid + b && TableAfter(mid, TableAfter(a, None)) == TableAfter(a, None) && Headers(mid) == []
    ensures Settings(lines, None) == Settings(a, None) + Settings(mid, TableAfter(a, None)) + Settings(b, TableAfter(a, None))
    ensures Headers(lines) == Headers(a) + Headers(b)
  {
    Three(a, mid, b);
  }

  lemma {:induction false} Three(a: seq<Line>, mid: seq<Line>, b: seq<Line>)
    ensures var here := TableAfter(a, None);
            && Settings(a + mid + b, None) == Settings(a, None) + Settings(mid, here) + Settings(b, TableAfter(mid, here))
            && Headers(a + mid + b) == Headers(a) + Headers(mid) + Headers(b)
  {
    Concatenated(a, mid, None);
    Concatenated(a + mid, b, None);
  }

  lemma {:induction false} NewSettings(lines: seq<Line>, e: Edit, table: Table, replacement: Line)
    requires replacement.kind.Assign? && Good(lines, e, table, replacement)
    ensures var new_ := [Setting(table, replacement.kind.key, replacement.kind.literal)];
            && Settings(NewLines(e), None) == Settings(e.before, None) + new_ + Settings(e.after, TableAfter(e.before, None))
            && Headers(NewLines(e)) == Headers(e.before) + Headers(e.inserted) + Headers(e.after)
  {
    var here := TableAfter(e.before, None);
    Three(e.before, e.inserted, e.after);
    if e.after != [] && e.after[0].kind.Header? {
      HeaderResets(e.after, here, TableAfter(e.inserted, here));
    }
  }

  lemma {:induction false} ReadBoth(a: seq<Setting>, b: seq<Setting>)
    ensures Read(a + b) == Read(a) + Read(b)
  {
    if b == [] {
      assert a + b == a;
    } else {
      assert (a + b)[..|a + b| - 1] == a + b[..|b| - 1];
      ReadBoth(a, b[..|b| - 1]);
    }
  }

  lemma {:induction false} AbsentIsUnread(settings: seq<Setting>, table: Table, key: string)
    requires Absent(settings, table, key)
    ensures (table, key) !in Read(settings)
  {
    if settings != [] {
      var last := |settings| - 1;
      assert !Assigns(settings[last], table, key);
      assert forall i :: 0 <= i < last ==> settings[..last][i] == settings[i];
      AbsentIsUnread(settings[..last], table, key);
    }
  }

  lemma {:induction false} ReadOne(s: Setting)
    ensures Read([s]) == map[(s.table, s.key) := s.literal]
  {
    assert [s][..0] == [];
  }

  lemma {:induction false} MergeUpdates<K, V>(a: map<K, V>, dropped: map<K, V>, k: K, v: V, b: map<K, V>)
    requires k !in b && dropped.Keys <= {k}
    ensures a + map[k := v] + b == (a + dropped + b)[k := v]
  {
  }

  /** Putting one setting in the place of its old value, or where there was none, is updating the map. */
  lemma {:induction false} ReadUpdates(p: seq<Setting>, dropped: seq<Setting>, s: Setting, q: seq<Setting>)
    requires Absent(p, s.table, s.key) && Absent(q, s.table, s.key)
    requires dropped == [] || (|dropped| == 1 && Assigns(dropped[0], s.table, s.key))
    ensures Read(p + [s] + q) == Read(p + dropped + q)[(s.table, s.key) := s.literal]
  {
    ReadBoth(p, [s]);
    ReadBoth(p + [s], q);
    ReadBoth(p, dropped);
    ReadBoth(p + dropped, q);
    AbsentIsUnread(q, s.table, s.key);
    ReadOne(s);
    DroppedKey(dropped, s.table, s.key);
    MergeUpdates(Read(p), Read(dropped), (s.table, s.key), s.literal, Read(q));
  }

  lemma {:induction false} DroppedKey(dropped: seq<Setting>, table: Table, key: string)
    requires dropped == [] || (|dropped| == 1 && Assigns(dropped[0], table, key))
    ensures Read(dropped).Keys <= {(table, key)}
  {
    if dropped != [] {
      ReadOne(dropped[0]);
      assert dropped == [dropped[0]];
    }
  }

  predicate Clash(a: Setting, b: Setting) {
    a.table == b.table && a.key == b.key
  }

  lemma {:induction false} UniqueAgain(p: seq<Setting>, dropped: seq<Setting>, s: Setting, q: seq<Setting>)
    requires UniqueSettings(p + dropped + q) && Absent(p, s.table, s.key) && Absent(q, s.table, s.key)
    ensures UniqueSettings(p + [s] + q)
  {
    var before, after := p + dropped + q, p + [s] + q;
    forall i, j | 0 <= i < j < |after| ensures !Clash(after[i], after[j]) {
      if i == |p| {
        assert after[j] == q[j - |p| - 1];
      } else if j == |p| {
        assert after[i] == p[i];
      } else {
        var i' := if i < |p| then i else i - 1 + |dropped|;
        var j' := if j < |p| then j else j - 1 + |dropped|;
        assert before[i'] == after[i] && before[j'] == after[j] && i' < j';
      }
    }
  }

  lemma {:induction false} DistinctAgain(a: seq<string>, new_: seq<string>, b: seq<string>)
    requires Distinct(a + b) && (new_ == [] || (b == [] && |new_| == 1 && new_[0] !in a))
    ensures Distinct(a + new_ + b)
  {
    if new_ == [] {
      assert a + new_ + b == a + b;
    } else {
      assert a + b == a && a + new_ + b == a + new_;
    }
  }

  lemma {:induction false} AllReadAgain(lines: seq<Line>, e: Edit)
    requires AllRead(lines) && Keeps(lines, e) && AllRead(e.inserted)
    ensures AllRead(NewLines(e))
  {
    var after := NewLines(e);
    forall i | 0 <= i < |after| ensures !after[i].kind.Unread? && (after[i].blank ==> after[i].kind.Nothing?) {
      if i < |e.before| {
        assert after[i] == lines[i];
      } else if i >= |e.before| + |e.inserted| {
        assert after[i] == lines[|lines| - |after| + i];
      } else {
        assert after[i] == e.inserted[i - |e.before|];
      }
    }
  }

  /** Editing keeps a body well formed, and what is read from it is what was read before with the one value updated. */
  lemma {:induction false} EditSetsValue(lines: seq<Line>, c: Change)
    requires WellFormed(lines) && Readable(c)
    ensures var after := NewLines(EditFor(lines, c));
            && WellFormed(after)
            && Read(Settings(after, None))
               == Read(Settings(lines, None))[(TableOf(c), c.replacement.kind.key) := c.replacement.kind.literal]
  {
    var e, table := EditFor(lines, c), TableOf(c);
    EditIsGood(lines, c);
    KeptSettings(lines, e, table, c.replacement);
    NewSettings(lines, e, table, c.replacement);
    var p, q := Settings(e.before, None), Settings(e.after, TableAfter(e.before, None));
    var dropped := if e.replaced == [] then [] else [Setting(table, c.replacement.kind.key, e.replaced[0].kind.literal)];
    var s := Setting(table, c.replacement.kind.key, c.replacement.kind.literal);
    ReadUpdates(p, dropped, s, q);
    UniqueAgain(p, dropped, s, q);
    AllReadAgain(lines, e);
    DistinctAgain(Headers(e.before), Headers(e.inserted), Headers(e.after));
  }

  function NonBlank(lines: seq<Line>): seq<Line> {
    if lines == [] then [] else NonBlank(lines[..|lines| - 1]) + if lines[|lines| - 1].blank then [] else [lines[|lines| - 1]]
  }

  lemma {:induction false} NonBlankBoth(a: seq<Line>, b: seq<Line>)
    ensures NonBlank(a + b) == NonBlank(a) + NonBlank(b)
  {
    if b == [] {
      assert a + b == a;
    } else {
      NonBlankBoth(a, b[..|b| - 1]);
      assert (a + b)[..|a + b| - 1] == a + b[..|b| - 1];
    }
  }

  lemma {:induction false} BlanksVanish(lines: seq<Line>)
    requires AllBlank(lines)
    ensures NonBlank(lines) == []
  {
    if lines != [] {
      assert lines[|lines| - 1].blank;
      BlanksVanish(lines[..|lines| - 1]);
    }
  }

  /** Every other line that is not blank stays, in its order: before the new lines or after them. */
  lemma {:induction false} EditKeepsOtherLines(lines: seq<Line>, c: Change)
    requires WellFormed(lines) && Readable(c)
    ensures var e := EditFor(lines, c);
            && NonBlank(lines) == NonBlank(e.before) + NonBlank(e.replaced) + NonBlank(e.after)
            && NonBlank(NewLines(e)) == NonBlank(e.before) + NonBlank(e.inserted) + NonBlank(e.after)
            && |e.replaced| <= 1
  {
    var e := EditFor(lines, c);
    EditIsGood(lines, c);
    KeepingKeepsNonBlank(lines, e);
    NonBlankBoth(e.before, e.inserted);
    NonBlankBoth(e.before + e.inserted, e.after);
  }

  lemma {:induction false} KeepingKeepsNonBlank(lines: seq<Line>, e: Edit)
    requires Keeps(lines, e)
    ensures NonBlank(lines) == NonBlank(e.before) + NonBlank(e.replaced) + NonBlank(e.after)
  {
    var mid := Dropped(lines, e);
    KeptApart(lines, e);
    NonBlankBoth(e.before, mid);
    NonBlankBoth(e.before + mid, e.after);
    if mid != e.replaced {
      BlanksVanish(mid);
    }
  }

  /** Where a line that already sets the value stands, the edit puts the same line again. */
  lemma {:induction false} EditFindsItsOwn(before: seq<Line>, after: seq<Line>, c: Change)
    requires WellFormed(before + [c.replacement] + after) && Readable(c) && TableAfter(before, None) == TableOf(c)
    ensures NewLines(EditFor(before + [c.replacement] + after, c)) == before + [c.replacement] + after
  {
    var lines, key := before + [c.replacement] + after, c.replacement.kind.key;
    var e := EditFor(lines, c);
    EditIsGood(lines, c);
    KeptApart(lines, e);
    OwnIsDropped(before, after, e, c);
    SamePlace(before, c.replacement, after, e.before, e.replaced[0], e.after);
  }

  lemma {:induction false} OwnIsDropped(before: seq<Line>, after: seq<Line>, e: Edit, c: Change)
    requires Readable(c) && TableAfter(before, None) == TableOf(c) && Good(before + [c.replacement] + after, e, TableOf(c), c.replacement)
    ensures e.replaced != []
  {
    var lines, key := before + [c.replacement] + after, c.replacement.kind.key;
    KeptSettings(lines, e, TableOf(c), c.replacement);
    Three(before, [c.replacement], after);
    One(c.replacement, TableOf(c));
    var i := |Settings(before, None)|;
    var p, q := Settings(e.before, None), Settings(e.after, TableAfter(e.before, None));
    var dropped := if e.replaced == [] then [] else [Setting(TableOf(c), key, e.replaced[0].kind.literal)];
    assert Settings(lines, None)[i] == Setting(TableOf(c), key, c.replacement.kind.literal);
    MustDrop(p, dropped, q, i, TableOf(c), key);
  }

  lemma {:induction false} MustDrop(p: seq<Setting>, dropped: seq<Setting>, q: seq<Setting>, i: nat, table: Table, key: string)
    requires Absent(p, table, key) && Absent(q, table, key) && i < |p + dropped + q| && Assigns((p + dropped + q)[i], table, key)
    ensures dropped != []
  {
    if dropped == [] {
      AbsentBoth(p, q, table, key);
      assert false;
    }
  }

  lemma {:induction false} AbsentBoth(p: seq<Setting>, q: seq<Setting>, table: Table, key: string)
    requires Absent(p, table, key) && Absent(q, table, key)
    ensures Absent(p + [] + q, table, key)
  {
    forall i | 0 <= i < |p + [] + q| ensures !Assigns((p + [] + q)[i], table, key) {
      assert i >= |p| ==> (p + [] + q)[i] == q[i - |p|];
    }
  }

  /** Two cuts of one text at lines that set the same key in the same table are the same cut. */
  lemma {:induction false} SamePlace(a: seq<Line>, x: Line, b: seq<Line>, a': seq<Line>, x': Line, b': seq<Line>)
    requires a + [x] + b == a' + [x'] + b' && x.kind.Assign? && x'.kind.Assign? && x.kind.key == x'.kind.key
    requires TableAfter(a, None) == TableAfter(a', None) && UniqueSettings(Settings(a + [x] + b, None))
    ensures a == a' && x == x' && b == b'
  {
    if |a| < |a'| {
      NotBefore(a, x, b, a', x', b');
    } else if |a'| < |a| {
      NotBefore(a', x', b', a, x, b);
    } else {
      var whole := a + [x] + b;
      assert a == whole[..|a|] && a' == (a' + [x'] + b')[..|a'|];
      assert whole[|a|] == x && (a' + [x'] + b')[|a'|] == x';
      assert b == whole[|a| + 1..] && b' == (a' + [x'] + b')[|a'| + 1..];
    }
  }

  lemma {:induction false} NotBefore(a: seq<Line>, x: Line, b: seq<Line>, a': seq<Line>, x': Line, b': seq<Line>)
    requires a + [x] + b == a' + [x'] + b' && x.kind.Assign? && x'.kind.Assign? && x.kind.key == x'.kind.key
    requires TableAfter(a, None) == TableAfter(a', None) && UniqueSettings(Settings(a + [x] + b, None))
    ensures |a| >= |a'|
  {
    if |a| < |a'| {
      var whole := a + [x] + b;
      assert a' == (a' + [x'] + b')[..|a'|] == whole[..|a'|];
      assert a' == a + [x] + a'[|a| + 1..];
      Added(a, x, None);
      Concatenated(a + [x], a'[|a| + 1..], None);
      var i := |Settings(a, None)|;
      assert Assigns(Settings(a', None)[i], TableAfter(a', None), x'.kind.key);
      SetOnce(a', x', b');
      assert false;
    }
  }
}
