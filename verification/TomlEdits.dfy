/** Setting values in the config file: each update refines a map update, whatever lines stand around it. */
module TomlEdits {
  import opened Outcomes
  import opened Text
  import opened TextLines
  import opened TomlLines
  import opened TomlText

  datatype Update = Update(table: Option<string>, key: string, literal: string)

  /** Bare keys and tables and a one-line scalar, as the config service writes them. */
  predicate ValidUpdate(u: Update) {
    && Trimmed(u.key) && PlainText(u.key) && u.key[0] != '[' && u.key[0] != '#' && '=' !in u.key
    && Trimmed(u.literal) && PlainText(u.literal)
    && (u.table.Some? ==> PlainText(u.table.value))
  }

  function ReplacementText(u: Update): string {
    u.key + " = " + u.literal
  }

  function HeaderText(table: string): string {
    "[" + table + "]"
  }

  function TableId(u: Update): Table {
    if u.table.Some? then Some(HeaderText(u.table.value)) else None
  }

  function ChangeFor(u: Update): Change {
    Change(if u.table.Some? then Some(Parse(HeaderText(u.table.value))) else None, Parse(ReplacementText(u)))
  }

  lemma {:induction false} ReplacementReadsBack(u: Update)
    requires ValidUpdate(u)
    ensures Trimmed(ReplacementText(u)) && PlainText(ReplacementText(u))
    ensures Parse(ReplacementText(u)) == Line(ReplacementText(u), Assign(u.key, u.literal), false)
  {
    var text := ReplacementText(u);
    StripKeeps(text);
    CutAtEquals(u.key, u.literal);
    StripOfSpaced(u.key);
    StripOfSpaced(u.literal);
  }

  lemma {:induction false} CutAtEquals(key: string, literal: string)
    requires '=' !in key
    ensures var text := key + " = " + literal;
            FirstIndex(text, '=') == |key| + 1 && text[..|key| + 1] == key + " " && text[|key| + 2..] == " " + literal
  {
    var text, left := key + " = " + literal, key + " ";
    assert text == left + ['='] + (" " + literal);
    forall i | 0 <= i < |left| ensures left[i] != '=' {
      assert i < |key| ==> left[i] == key[i] && key[i] in key;
    }
    FirstIndexIs(left, '=', " " + literal);
  }

  lemma {:induction false} StripOfSpaced(s: string)
    requires Trimmed(s)
    ensures Strip(s + " ") == s && Strip(" " + s) == s
  {
    StripKeeps(s);
    LStripSkips("", s + " ");
    assert "" + (s + " ") == s + " ";
    RStripStops(s, " ");
    LStripSkips(" ", s);
  }

  lemma {:induction false} HeaderReadsBack(table: string)
    ensures Trimmed(HeaderText(table)) && Parse(HeaderText(table)) == Line(HeaderText(table), Header(HeaderText(table)), false)
  {
    StripKeeps(HeaderText(table));
  }

  lemma {:induction false} ChangeIsReadable(u: Update)
    requires ValidUpdate(u)
    ensures Readable(ChangeFor(u)) && TableOf(ChangeFor(u)) == TableId(u)
    ensures ChangeFor(u).replacement.kind == Assign(u.key, u.literal)
  {
    ReplacementReadsBack(u);
    if u.table.Some? {
      HeaderReadsBack(u.table.value);
    }
  }

  function StartOf(body: string): seq<Line> {
    DropBlankHead(LinesOf(body))
  }

  /** `update_toml_value`. */
  function Updated(body: string, u: Update): string
    requires ValidUpdate(u)
  {
    ChangeIsReadable(u);
    WithTrailingNewline(NewLines(EditFor(StartOf(body), ChangeFor(u))))
  }

  /** What a reader gets from a body: values by table header and key. */
  function ReadBody(body: string): map<(Table, string), string> {
    Read(Settings(LinesOf(body), None))
  }

  // ---- Lines that come from text --------------------------------------------------------------------

  predicate Parsed(lines: seq<Line>) {
    forall i {:trigger lines[i]} :: 0 <= i < |lines| ==> lines[i] == Parse(lines[i].text) && PlainText(lines[i].text)
  }

  lemma {:induction false} LinesAreParsed(body: string)
    ensures Parsed(LinesOf(body))
  {
    SplitIsPlain(body);
  }

  lemma {:induction false} BlankHeadIsDropped(lines: seq<Line>)
    ensures var n := BlankHeadLength(lines);
            (forall i {:trigger lines[i]} :: 0 <= i < n ==> lines[i].blank) && (n < |lines| ==> !lines[n].blank)
  {
    if lines != [] && lines[0].blank {
      BlankHeadIsDropped(lines[1..]);
      var n := BlankHeadLength(lines[1..]);
      forall i | 0 <= i < n + 1 ensures lines[i].blank {
        assert i > 0 ==> lines[i] == lines[1..][i - 1];
      }
    }
  }

  lemma {:induction false} BlankIsNothing(lines: seq<Line>)
    requires AllRead(lines) && forall i :: 0 <= i < |lines| ==> lines[i].blank
    ensures AllBlank(lines)
  {
  }

  lemma {:induction false} ReadPart(lines: seq<Line>, lo: nat, hi: nat)
    requires AllRead(lines) && lo <= hi <= |lines|
    ensures AllRead(lines[lo..hi])
  {
  }

  lemma {:induction false} QuietAround(head: seq<Line>, lines: seq<Line>, tail: seq<Line>)
    requires AllBlank(head) && AllBlank(tail)
    ensures Settings(head + lines + tail, None) == Settings(lines, None) && Headers(head + lines + tail) == Headers(lines)
    ensures NonBlank(head + lines + tail) == NonBlank(lines)
  {
    BlanksSayNothing(head, None);
    BlanksSayNothing(tail, TableAfter(lines, None));
    Concatenated(head, lines, None);
    Concatenated(head + lines, tail, None);
    BlanksVanish(head);
    BlanksVanish(tail);
    NonBlankBoth(head, lines);
    NonBlankBoth(head + lines, tail);
  }

  /** Leading blank lines say nothing. */
  lemma {:induction false} HeadSaysNothing(lines: seq<Line>)
    requires AllRead(lines)
    ensures var rest := DropBlankHead(lines);
            && Settings(rest, None) == Settings(lines, None) && Headers(rest) == Headers(lines) && AllRead(rest)
            && NonBlank(rest) == NonBlank(lines)
  {
    var rest := DropBlankHead(lines);
    BlankHeadIsDropped(lines);
    var cut := BlankHeadLength(lines);
    ReadPart(lines, 0, cut);
    ReadPart(lines, cut, |lines|);
    BlankIsNothing(lines[0..cut]);
    QuietAround(lines[0..cut], rest, []);
    assert lines == lines[0..cut] + rest + [];
    assert rest == lines[cut..|lines|];
  }

  predicate SameKinds(a: seq<Line>, b: seq<Line>) {
    |a| == |b| && forall i {:trigger a[i]} {:trigger b[i]} :: 0 <= i < |a| ==> a[i].kind == b[i].kind && a[i].blank == b[i].blank
  }

  lemma {:induction false} SameKindsSayTheSame(a: seq<Line>, b: seq<Line>, table: Table)
    requires SameKinds(a, b)
    ensures Settings(a, table) == Settings(b, table) && Headers(a) == Headers(b) && TableAfter(a, table) == TableAfter(b, table)
  {
    if a != [] {
      var n := |a| - 1;
      assert a[n].kind == b[n].kind;
      SameKindsSayTheSame(a[..n], b[..n], table);
    }
  }

  /** The lines as they are read back after writing. */
  function AsWritten(lines: seq<Line>): seq<Line> {
    ParseAll(TrimEnd(Texts(lines)))
  }

  lemma {:induction false} TrimmedAt(lines: seq<Line>, i: nat)
    requires Parsed(lines) && i < |lines|
    ensures var t := AsWritten(lines);
            && |t| <= |lines|
            && (i < |t| - 1 ==> t[i] == lines[i])
            && (i == |t| - 1 ==> t[i] == Parse(RStrip(lines[i].text)) && t[i].kind == lines[i].kind && t[i].blank == lines[i].blank)
            && (|t| <= i ==> lines[i].blank)
  {
    ParsedIsPlain(lines);
    TrimEndFacts(Texts(lines));
    StripIgnoresEnd(lines[i].text);
    assert lines[i] == Parse(lines[i].text);
    assert Texts(lines)[i] == lines[i].text;
  }

  lemma {:induction false} ParsedIsPlain(lines: seq<Line>)
    requires Parsed(lines)
    ensures Plain(Texts(lines))
  {
  }

  lemma {:induction false} TrimmedFacts(lines: seq<Line>)
    requires Parsed(lines)
    ensures var t := AsWritten(lines);
            && |t| <= |lines|
            && (forall i :: 0 <= i < |t| - 1 ==> t[i] == lines[i])
            && (t != [] ==> t[|t| - 1] == Parse(RStrip(lines[|t| - 1].text))
                            && t[|t| - 1].kind == lines[|t| - 1].kind && t[|t| - 1].blank == lines[|t| - 1].blank)
            && (forall i :: |t| <= i < |lines| ==> lines[i].blank)
  {
    var t := AsWritten(lines);
    ParsedIsPlain(lines);
    TrimEndFacts(Texts(lines));
    forall i | 0 <= i < |lines|
      ensures i < |t| - 1 ==> t[i] == lines[i]
      ensures i == |t| - 1 ==> t[i] == Parse(RStrip(lines[i].text)) && t[i].kind == lines[i].kind && t[i].blank == lines[i].blank
      ensures |t| <= i ==> lines[i].blank
    {
      TrimmedAt(lines, i);
    }
  }

  /** Writing and reading back says the same. */
  lemma {:induction false} TrimmedSaysTheSame(lines: seq<Line>)
    requires Parsed(lines) && WellFormed(lines)
    ensures Settings(AsWritten(lines), None) == Settings(lines, None) && WellFormed(AsWritten(lines))
  {
    var t := AsWritten(lines);
    TrimmedFacts(lines);
    var kept := lines[0..|t|];
    BlankEndSaysNothing(lines, |t|);
    SameKindsSayTheSame(t, kept, None);
    SameKindsAreRead(t, kept);
  }

  lemma {:induction false} BlankEndSaysNothing(lines: seq<Line>, n: nat)
    requires WellFormed(lines) && n <= |lines| && forall i :: n <= i < |lines| ==> lines[i].blank
    ensures Settings(lines[0..n], None) == Settings(lines, None) && WellFormed(lines[0..n])
  {
    var kept, tail := lines[0..n], lines[n..|lines|];
    ReadPart(lines, 0, n);
    ReadPart(lines, n, |lines|);
    BlankIsNothing(tail);
    QuietAround([], kept, tail);
    assert lines == [] + kept + tail;
  }

  lemma {:induction false} SameKindsAreRead(a: seq<Line>, b: seq<Line>)
    requires SameKinds(a, b) && AllRead(b)
    ensures AllRead(a)
  {
    forall i | 0 <= i < |a| ensures !a[i].kind.Unread? && (a[i].blank ==> a[i].kind.Nothing?) {
      assert b[i].kind == a[i].kind;
    }
  }

  /** An edit of parsed lines leaves parsed lines, with something to write in them, and never a blank one on top. */
  lemma {:induction false} NewLinesAreParsed(lines: seq<Line>, u: Update)
    requires ValidUpdate(u) && Parsed(lines) && WellFormed(lines) && (lines == [] || !lines[0].blank)
    ensures Readable(ChangeFor(u))
    ensures var new_ := NewLines(EditFor(lines, ChangeFor(u)));
            Parsed(new_) && new_ != [] && !new_[0].blank && ChangeFor(u).replacement in EditFor(lines, ChangeFor(u)).inserted
  {
    var c := ChangeFor(u);
    ChangeIsReadable(u);
    EditIsGood(lines, c);
    var e := EditFor(lines, c);
    InsertedAreParsed(lines, u);
    KeptAreParsed(lines, e);
    var new_ := NewLines(e);
    if e.before == [] {
      assert new_[0] == e.inserted[0];
    } else {
      assert new_[0] == e.before[0] == lines[..|e.before|][0];
    }
  }

  lemma {:induction false} KeptAreParsed(lines: seq<Line>, e: Edit)
    requires Parsed(lines) && Parsed(e.inserted) && Keeps(lines, e)
    ensures Parsed(NewLines(e))
  {
    var new_ := NewLines(e);
    forall i | 0 <= i < |new_| ensures new_[i] == Parse(new_[i].text) && PlainText(new_[i].text) {
      if i < |e.before| {
        assert new_[i] == lines[i];
      } else if i < |e.before| + |e.inserted| {
        assert new_[i] == e.inserted[i - |e.before|];
      } else {
        assert new_[i] == lines[|lines| - |new_| + i];
      }
    }
  }

  lemma {:induction false} InsertedAreParsed(lines: seq<Line>, u: Update)
    requires ValidUpdate(u) && Readable(ChangeFor(u))
    ensures Parsed(EditFor(lines, ChangeFor(u)).inserted)
  {
    var c := ChangeFor(u);
    ReplacementReadsBack(u);
    assert BLANK == Parse("");
    assert Parse("") == Parse(BLANK.text) && PlainText(BLANK.text);
    if u.table.Some? {
      HeaderReadsBack(u.table.value);
      assert PlainText(HeaderText(u.table.value));
      TableInserts([], lines, false, c.header.value, c.replacement);
    } else {
      TopInserts([], lines, c.replacement);
    }
  }

  lemma {:induction false} TopInserts(before: seq<Line>, rest: seq<Line>, replacement: Line)
    requires replacement.kind.Assign? && Parsed([replacement]) && Parsed([BLANK])
    ensures Parsed(TopEdit(before, rest, replacement.kind.key, replacement).inserted)
    decreases |rest|
  {
    assert [replacement][0] == replacement && [BLANK][0] == BLANK;
    if rest != [] && !rest[0].kind.Header? && !(rest[0].kind.Assign? && rest[0].kind.key == replacement.kind.key) {
      TopInserts(before + [rest[0]], rest[1..], replacement);
    }
  }

  lemma {:induction false} TableInserts(before: seq<Line>, rest: seq<Line>, inTable: bool, header: Line, replacement: Line)
    requires replacement.kind.Assign? && Parsed([replacement]) && Parsed([BLANK]) && Parsed([header])
    ensures Parsed(TableEdit(before, rest, inTable, header, replacement.kind.key, replacement).inserted)
    decreases |rest|
  {
    assert [replacement][0] == replacement && [BLANK][0] == BLANK && [header][0] == header;
    if rest != [] && !(rest[0].kind.Header? && inTable) && !(rest[0].kind.Assign? && inTable && rest[0].kind.key == replacement.kind.key) {
      TableInserts(before + [rest[0]], rest[1..], if rest[0].kind.Header? then rest[0].kind.text == header.text else inTable, header, replacement);
    }
  }

  // ---- The laws -----------------------------------------------------------------------------------

  /** A body a line reader understands. */
  predicate GoodBody(body: string) {
    WellFormed(LinesOf(body))
  }

  lemma {:induction false} PartIsParsed(lines: seq<Line>, n: nat)
    requires Parsed(lines) && n <= |lines|
    ensures Parsed(lines[n..])
  {
  }

  lemma {:induction false} StartIsGood(body: string)
    requires GoodBody(body)
    ensures WellFormed(StartOf(body)) && Parsed(StartOf(body)) && (StartOf(body) == [] || !StartOf(body)[0].blank)
    ensures Settings(StartOf(body), None) == Settings(LinesOf(body), None)
  {
    LinesAreParsed(body);
    HeadSaysNothing(LinesOf(body));
    BlankHeadIsDropped(LinesOf(body));
    PartIsParsed(LinesOf(body), BlankHeadLength(LinesOf(body)));
  }

  function LinesAfter(body: string, u: Update): seq<Line>
    requires ValidUpdate(u)
  {
    ChangeIsReadable(u);
    NewLines(EditFor(StartOf(body), ChangeFor(u)))
  }

  /** Lines with something to write come back trimmed, and trimmed lines are written the same. */
  lemma {:induction false} WrittenLines(lines: seq<Line>)
    requires Parsed(lines) && lines != [] && !lines[0].blank
    ensures AsWritten(lines) != [] && !AsWritten(lines)[0].blank
    ensures LinesOf(WithTrailingNewline(lines)) == AsWritten(lines)
    ensures WithTrailingNewline(AsWritten(lines)) == WithTrailingNewline(lines)
  {
    TrimmedFacts(lines);
    ParsedIsPlain(lines);
    ReadBack(lines);
  }

  /** What stands in the updated body: the edited lines, trimmed at the end. */
  lemma {:induction false} UpdatedLines(body: string, u: Update)
    requires ValidUpdate(u) && GoodBody(body)
    ensures Parsed(LinesAfter(body, u))
    ensures LinesOf(Updated(body, u)) == AsWritten(LinesAfter(body, u)) == StartOf(Updated(body, u))
    ensures WithTrailingNewline(AsWritten(LinesAfter(body, u))) == Updated(body, u)
  {
    StartIsGood(body);
    NewLinesAreParsed(StartOf(body), u);
    WrittenLines(LinesAfter(body, u));
  }

  /** Setting a value in the text is updating the map a reader gets from it, and the text stays readable. */
  lemma {:induction false} UpdateSetsValue(body: string, u: Update)
    requires ValidUpdate(u) && GoodBody(body)
    ensures GoodBody(Updated(body, u))
    ensures ReadBody(Updated(body, u)) == ReadBody(body)[(TableId(u), u.key) := u.literal]
  {
    StartIsGood(body);
    ChangeIsReadable(u);
    EditSetsValue(StartOf(body), ChangeFor(u));
    UpdatedLines(body, u);
    TrimmedSaysTheSame(LinesAfter(body, u));
  }

  predicate ValidUpdates(updates: seq<Update>) {
    forall i :: 0 <= i < |updates| ==> ValidUpdate(updates[i])
  }

  function UpdatedAll(body: string, updates: seq<Update>): string
    requires ValidUpdates(updates)
  {
    if updates == [] then body else Updated(UpdatedAll(body, updates[..|updates| - 1]), updates[|updates| - 1])
  }

  function Folded(values: map<(Table, string), string>, updates: seq<Update>): map<(Table, string), string> {
    if updates == [] then values
    else
      var last := updates[|updates| - 1];
      Folded(values, updates[..|updates| - 1])[(TableId(last), last.key) := last.literal]
  }

  /** `set_values` is the fold of its updates over the map that was there. */
  lemma {:induction false} SetValuesFolds(body: string, updates: seq<Update>)
    requires ValidUpdates(updates) && GoodBody(body)
    ensures GoodBody(UpdatedAll(body, updates))
    ensures ReadBody(UpdatedAll(body, updates)) == Folded(ReadBody(body), updates)
  {
    if updates != [] {
      SetValuesFolds(body, updates[..|updates| - 1]);
      UpdateSetsValue(UpdatedAll(body, updates[..|updates| - 1]), updates[|updates| - 1]);
    }
  }

  /** Where the replacement stands among the edited lines, it stands in its own table. */
  lemma {:induction false} PlaceOfReplacement(e: Edit, c: Change, lines: seq<Line>) returns (i: nat)
    requires Readable(c) && Good(lines, e, TableOf(c), c.replacement)
    ensures i < |NewLines(e)| && NewLines(e)[i] == c.replacement
    ensures TableAfter(NewLines(e)[..i], None) == TableOf(c)
  {
    var here := TableAfter(e.before, None);
    var j :| 0 <= j < |e.inserted| && e.inserted[j] == c.replacement;
    OnlySetting(e.inserted, j, here, TableOf(c));
    i := |e.before| + j;
    CutInside(e.before, e.inserted, e.after, j);
    Concatenated(e.before, e.inserted[..j], None);
  }

  lemma CutInside(before: seq<Line>, inserted: seq<Line>, after: seq<Line>, j: nat)
    requires j < |inserted|
    ensures var all := before + inserted + after;
            all[..|before| + j] == before + inserted[..j] && all[|before| + j] == inserted[j]
  {
  }

  lemma {:induction false} OnlySetting(inserted: seq<Line>, j: nat, here: Table, table: Table)
    requires j < |inserted| && inserted[j].kind.Assign?
    requires |Settings(inserted, here)| == 1 && Settings(inserted, here)[0].table == table
    ensures TableAfter(inserted[..j], here) == table
  {
    assert inserted == inserted[..j] + [inserted[j]] + inserted[j + 1..];
    Concatenated(inserted[..j] + [inserted[j]], inserted[j + 1..], here);
    Added(inserted[..j], inserted[j], here);
  }

  /** The replacement is still there, unchanged, after trimming. */
  lemma {:induction false} ReplacementStays(lines: seq<Line>, u: Update, i: nat)
    requires ValidUpdate(u) && Parsed(lines) && i < |lines| && lines[i] == Parse(ReplacementText(u))
    ensures var t := AsWritten(lines); i < |t| && t[i] == lines[i] && t[..i] == lines[..i]
  {
    ReplacementReadsBack(u);
    RStripStops(ReplacementText(u), "");
    assert ReplacementText(u) + "" == ReplacementText(u);
    TrimmedFacts(lines);
  }

  /** After an update its line stands in the body, under its own table. */
  lemma {:induction false} UpdateIsThere(body: string, u: Update) returns (i: nat)
    requires ValidUpdate(u) && GoodBody(body)
    ensures var t := LinesOf(Updated(body, u));
            i < |t| && t[i] == ChangeFor(u).replacement && TableAfter(t[..i], None) == TableOf(ChangeFor(u))
  {
    ChangeIsReadable(u);
    StartIsGood(body);
    EditIsGood(StartOf(body), ChangeFor(u));
    UpdatedLines(body, u);
    i := PlaceOfReplacement(EditFor(StartOf(body), ChangeFor(u)), ChangeFor(u), StartOf(body));
    ReplacementStays(LinesAfter(body, u), u, i);
  }

  /** Setting the same value twice leaves the bytes of the first time. */
  lemma {:induction false} UpdateTwiceIsOnce(body: string, u: Update)
    requires ValidUpdate(u) && GoodBody(body)
    ensures Updated(Updated(body, u), u) == Updated(body, u)
  {
    ChangeIsReadable(u);
    UpdatedLines(body, u);
    UpdateSetsValue(body, u);
    var i := UpdateIsThere(body, u);
    FoundAgain(LinesOf(Updated(body, u)), i, ChangeFor(u));
  }

  lemma {:induction false} FoundAgain(lines: seq<Line>, i: nat, c: Change)
    requires WellFormed(lines) && Readable(c) && i < |lines| && lines[i] == c.replacement && TableAfter(lines[..i], None) == TableOf(c)
    ensures NewLines(EditFor(lines, c)) == lines
  {
    assert lines == lines[..i] + [c.replacement] + lines[i + 1..];
    EditFindsItsOwn(lines[..i], lines[i + 1..], c);
  }

  /** Every other line that says or comments something stays, in its order and with its words: what an update takes away
      is blank lines, spaces at the end, and at most the one line it replaces. */
  lemma {:induction false} UpdateKeepsOtherLines(body: string, u: Update)
    requires ValidUpdate(u) && GoodBody(body)
    ensures Readable(ChangeFor(u))
    ensures var e := EditFor(StartOf(body), ChangeFor(u));
            && Words(LinesOf(body)) == Words(e.before) + Words(e.replaced) + Words(e.after)
            && Words(LinesOf(Updated(body, u))) == Words(e.before) + Words(e.inserted) + Words(e.after)
            && |e.replaced| <= 1
  {
    ChangeIsReadable(u);
    StartIsGood(body);
    var e := EditFor(StartOf(body), ChangeFor(u));
    EditKeepsOtherLines(StartOf(body), ChangeFor(u));
    HeadSaysNothing(LinesOf(body));
    WordsOfNonBlank(LinesOf(body));
    WordsOfNonBlank(StartOf(body));
    EditIsGood(StartOf(body), ChangeFor(u));
    KeepingKeepsWords(StartOf(body), e);
    UpdatedLines(body, u);
    TrimmingKeepsWords(NewLines(e));
    WordsBoth(e.before, e.inserted);
    WordsBoth(e.before + e.inserted, e.after);
  }

  /** The stripped text of every line that is not blank. */
  function Words(lines: seq<Line>): seq<string> {
    if lines == [] then []
    else Words(lines[..|lines| - 1]) + if lines[|lines| - 1].blank then [] else [Strip(lines[|lines| - 1].text)]
  }

  function StripAll(lines: seq<Line>): seq<string> {
    seq(|lines|, i requires 0 <= i < |lines| => Strip(lines[i].text))
  }

  lemma {:induction false} WordsOfNonBlank(lines: seq<Line>)
    ensures Words(lines) == StripAll(NonBlank(lines))
  {
    if lines != [] {
      WordsOfNonBlank(lines[..|lines| - 1]);
    }
  }

  lemma {:induction false} WordsBoth(a: seq<Line>, b: seq<Line>)
    ensures Words(a + b) == Words(a) + Words(b)
  {
    if b == [] {
      assert a + b == a;
    } else {
      WordsBoth(a, b[..|b| - 1]);
      assert (a + b)[..|a + b| - 1] == a + b[..|b| - 1];
    }
  }

  lemma {:induction false} KeepingKeepsWords(lines: seq<Line>, e: Edit)
    requires Keeps(lines, e)
    ensures Words(lines) == Words(e.before) + Words(e.replaced) + Words(e.after)
  {
    var mid := Dropped(lines, e);
    KeptApart(lines, e);
    WordsBoth(e.before, mid);
    WordsBoth(e.before + mid, e.after);
    if mid != e.replaced {
      BlanksVanish(mid);
      WordsOfNonBlank(mid);
    }
  }

  lemma {:induction false} SameWords(a: seq<Line>, b: seq<Line>)
    requires |a| == |b|
    requires forall i {:trigger a[i]} {:trigger b[i]} :: 0 <= i < |a| ==> a[i].blank == b[i].blank && Strip(a[i].text) == Strip(b[i].text)
    ensures Words(a) == Words(b)
  {
    if a != [] {
      var n := |a| - 1;
      assert a[n].blank == b[n].blank;
      SameWords(a[..n], b[..n]);
    }
  }

  lemma {:induction false} TrimmingKeepsWords(lines: seq<Line>)
    requires Parsed(lines)
    ensures Words(AsWritten(lines)) == Words(lines)
  {
    var n := |AsWritten(lines)|;
    TrimmedFacts(lines);
    KeptWords(lines);
    assert lines == lines[..n] + lines[n..];
    WordsBoth(lines[..n], lines[n..]);
    AllBlankNoWords(lines[n..]);
  }

  lemma {:induction false} KeptWords(lines: seq<Line>)
    requires Parsed(lines)
    ensures |AsWritten(lines)| <= |lines| && Words(AsWritten(lines)) == Words(lines[..|AsWritten(lines)|])
  {
    var t := AsWritten(lines);
    TrimmedFacts(lines);
    var kept := lines[..|t|];
    forall i | 0 <= i < |t| ensures t[i].blank == kept[i].blank && Strip(t[i].text) == Strip(kept[i].text) {
      StripIgnoresEnd(lines[i].text);
    }
    SameWords(t, kept);
  }

  lemma {:induction false} AllBlankNoWords(lines: seq<Line>)
    requires forall i :: 0 <= i < |lines| ==> lines[i].blank
    ensures Words(lines) == []
  {
    if lines != [] {
      AllBlankNoWords(lines[..|lines| - 1]);
    }
  }

  // ---- The store ------------------------------------------------------------------------------------

  /** `strip_leading_blank_lines`. */
  method StripLeadingBlankLines(all: seq<Line>) returns (lines: seq<Line>)
    ensures lines == DropBlankHead(all)
  {
    lines := all;
    while lines != [] && lines[0].blank
      invariant DropBlankHead(lines) == DropBlankHead(all)
      decreases |lines|
    {
      lines := lines[1..];
    }
  }

  /** `update_top_level_value`. */
  method UpdateTopLevelValue(lines: seq<Line>, key: string, replacement: Line) returns (body: string)
    ensures body == WithTrailingNewline(NewLines(TopEdit([], lines, key, replacement)))
  {
    assert lines[..0] == [] && lines[0..] == lines;
    for i := 0 to |lines|
      invariant TopEdit([], lines, key, replacement) == TopEdit(lines[..i], lines[i..], key, replacement)
    {
      assert lines[i..][0] == lines[i] && lines[i..][1..] == lines[i + 1..] && lines[..i] + [lines[i]] == lines[..i + 1];
      if lines[i].kind.Header? {
        var prefix := lines[..i] + Gap(lines[..i]);
        assert lines[..i] + (Gap(lines[..i]) + [replacement, BLANK]) + lines[i..] == prefix + [replacement, BLANK] + lines[i..];
        return WithTrailingNewline(prefix + [replacement, BLANK] + lines[i..]);
      }
      if lines[i].kind.Assign? && lines[i].kind.key == key {
        assert lines[i := replacement] == lines[..i] + [replacement] + lines[i + 1..];
        return WithTrailingNewline(lines[i := replacement]);
      }
    }
    assert lines[..|lines|] == lines && lines[|lines|..] == [];
    assert [] + [replacement] + lines == [replacement] + lines;
    body := WithTrailingNewline([replacement] + lines);
  }

  /** `insert_into_table`: before the next table, after the last line of this one that is not blank. */
  method InsertIntoTable(lines: seq<Line>, index: nat, replacement: Line) returns (body: string)
    requires index <= |lines|
    ensures body == WithTrailingNewline(DropBlankTail(lines[..index]) + [replacement, BLANK] + lines[index..])
  {
    var prefix := lines[..index];
    while prefix != [] && prefix[|prefix| - 1].blank
      invariant DropBlankTail(prefix) == DropBlankTail(lines[..index])
      decreases |prefix|
    {
      prefix := prefix[..|prefix| - 1];
    }
    body := WithTrailingNewline(prefix + [replacement, BLANK] + lines[index..]);
  }

  /** `update_table_value`. */
  method UpdateTableValue(lines: seq<Line>, header: Line, key: string, replacement: Line) returns (body: string)
    ensures body == WithTrailingNewline(NewLines(TableEdit([], lines, false, header, key, replacement)))
  {
    var inTable := false;
    assert lines[..0] == [] && lines[0..] == lines;
    for i := 0 to |lines|
      invariant TableEdit([], lines, false, header, key, replacement) == TableEdit(lines[..i], lines[i..], inTable, header, key, replacement)
    {
      assert lines[i..][0] == lines[i] && lines[i..][1..] == lines[i + 1..] && lines[..i] + [lines[i]] == lines[..i + 1];
      if lines[i].kind.Header? {
        if inTable {
          body := InsertIntoTable(lines, i, replacement);
          return;
        }
        inTable := lines[i].kind.text == header.text;
        continue;
      }
      if inTable && lines[i].kind.Assign? && lines[i].kind.key == key {
        assert lines[i := replacement] == lines[..i] + [replacement] + lines[i + 1..];
        return WithTrailingNewline(lines[i := replacement]);
      }
    }
    assert lines[..|lines|] == lines && lines[|lines|..] == [];
    if inTable {
      assert lines + [replacement] + [] == lines + [replacement];
      return WithTrailingNewline(lines + [replacement]);
    }
    assert lines + (Gap(lines) + [header, replacement]) + [] == lines + Gap(lines) + [header, replacement];
    body := WithTrailingNewline(lines + Gap(lines) + [header, replacement]);
  }

  /** `update_toml_value`. */
  method UpdateTomlValue(body: string, u: Update) returns (updated: string)
    requires ValidUpdate(u)
    ensures updated == Updated(body, u)
  {
    var c := ChangeFor(u);
    ChangeIsReadable(u);
    var lines := StripLeadingBlankLines(LinesOf(body));
    if u.table.None? {
      updated := UpdateTopLevelValue(lines, u.key, c.replacement);
    } else {
      updated := UpdateTableValue(lines, c.header.value, u.key, c.replacement);
    }
  }

  class ConfigFile {
    /** The text on disk, if there is a file. */
    var body: Option<string>

    /** `set_values`: all updates in one write, and nothing written when the old text does not load or the new one is
        not a valid configuration. */
    method SetValues(updates: seq<Update>, loads: string -> bool, valid: string -> bool) returns (written: bool)
      requires ValidUpdates(updates)
      modifies this
      ensures var before := if old(body).Some? then old(body).value else "";
              && (written <==> (old(body).Some? ==> loads(before)) && valid(UpdatedAll(before, updates)))
              && body == if written then Some(UpdatedAll(before, updates)) else old(body)
    {
      var updated := if body.Some? then body.value else "";
      if body.Some? && !loads(updated) {
        return false;
      }
      ghost var before := updated;
      for i := 0 to |updates|
        invariant updated == UpdatedAll(before, updates[..i])
        invariant body == old(body)
      {
        assert updates[..i + 1][..i] == updates[..i];
        updated := UpdateTomlValue(updated, updates[i]);
      }
      assert updates[..|updates|] == updates;
      if !valid(updated) {
        return false;
      }
      body := Some(updated);
      written := true;
    }
  }
}
