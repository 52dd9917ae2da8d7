/** Where the edits of the configuration file put their line, and what it says: for every cut of the lines at the place
    the editor stops. */
module TomlPlaces {
  import opened Outcomes
  import opened Text
  import opened TextLines
  import opened TomlLines
  import opened TomlText
  import opened TomlEdits

  predicate SetsKey(line: Line, key: string) {
    line.kind.Assign? && line.kind.key == key
  }

  /** No table begins here, and the key is not set. */
  predicate Passes(lines: seq<Line>, key: string) {
    forall i :: 0 <= i < |lines| ==> !lines[i].kind.Header? && !SetsKey(lines[i], key)
  }

  /** An empty line, unless there is one already or nothing at all. */
  function EmptyAfter(lines: seq<Line>): seq<Line> {
    if lines != [] && !lines[|lines| - 1].blank then [BLANK] else []
  }

  lemma {:induction false} TopGoesOn(before: seq<Line>, passed: seq<Line>, rest: seq<Line>, key: string, replacement: Line)
    requires Passes(passed, key)
    ensures TopEdit(before, passed + rest, key, replacement) == TopEdit(before + passed, rest, key, replacement)
    decreases |passed|
  {
    if passed == [] {
      assert passed + rest == rest && before + passed == before;
    } else {
      assert (passed + rest)[1..] == passed[1..] + rest && (passed + rest)[0] == passed[0];
      assert forall i :: 0 <= i < |passed[1..]| ==> passed[1..][i] == passed[i + 1];
      TopGoesOn(before + [passed[0]], passed[1..], rest, key, replacement);
      assert before + [passed[0]] + passed[1..] == before + passed;
    }
  }

  /** Above the first table a key that is set is set anew in its place. */
  lemma {:induction false} TopKeyIsReplaced(before: seq<Line>, own: Line, after: seq<Line>, key: string, replacement: Line)
    requires Passes(before, key) && SetsKey(own, key)
    ensures NewLines(TopEdit([], before + [own] + after, key, replacement)) == before + [replacement] + after
  {
    assert before + [own] + after == before + ([own] + after) && ([own] + after)[1..] == after && [] + before == before;
    TopGoesOn([], before, [own] + after, key, replacement);
  }

  /** One that is not goes before the first table, between empty lines. */
  lemma {:induction false} TopKeyGoesBeforeTables(before: seq<Line>, header: Line, after: seq<Line>, key: string, replacement: Line)
    requires Passes(before, key) && header.kind.Header?
    ensures NewLines(TopEdit([], before + [header] + after, key, replacement)) ==
            before + EmptyAfter(before) + [replacement, BLANK] + ([header] + after)
  {
    assert before + [header] + after == before + ([header] + after) && [] + before == before;
    TopGoesOn([], before, [header] + after, key, replacement);
    assert before + (EmptyAfter(before) + [replacement, BLANK]) + ([header] + after) ==
           before + EmptyAfter(before) + [replacement, BLANK] + ([header] + after);
  }

  /** And on top where there are no tables. */
  lemma {:induction false} TopKeyGoesOnTop(lines: seq<Line>, key: string, replacement: Line)
    requires Passes(lines, key)
    ensures NewLines(TopEdit([], lines, key, replacement)) == [replacement] + lines
  {
    assert lines + [] == lines && [] + lines == lines;
    TopGoesOn([], lines, [], key, replacement);
  }

  // ---- In a table ---------------------------------------------------------------------------------

  predicate IsHeader(line: Line, header: Line) {
    line.kind.Header? && line.kind == Header(header.text)
  }

  /** The table does not begin here. */
  predicate HasNoHeader(lines: seq<Line>, header: Line) {
    forall i :: 0 <= i < |lines| ==> !IsHeader(lines[i], header)
  }

  lemma {:induction false} TableGoesOn(before: seq<Line>, passed: seq<Line>, rest: seq<Line>, header: Line, key: string, replacement: Line)
    requires HasNoHeader(passed, header)
    ensures TableEdit(before, passed + rest, false, header, key, replacement) == TableEdit(before + passed, rest, false, header, key, replacement)
    decreases |passed|
  {
    if passed == [] {
      assert passed + rest == rest && before + passed == before;
    } else {
      assert (passed + rest)[1..] == passed[1..] + rest && (passed + rest)[0] == passed[0];
      assert forall i :: 0 <= i < |passed[1..]| ==> passed[1..][i] == passed[i + 1];
      assert !IsHeader(passed[0], header);
      TableGoesOn(before + [passed[0]], passed[1..], rest, header, key, replacement);
      assert before + [passed[0]] + passed[1..] == before + passed;
    }
  }

  lemma {:induction false} InTableGoesOn(before: seq<Line>, passed: seq<Line>, rest: seq<Line>, header: Line, key: string, replacement: Line)
    requires Passes(passed, key)
    ensures TableEdit(before, passed + rest, true, header, key, replacement) == TableEdit(before + passed, rest, true, header, key, replacement)
    decreases |passed|
  {
    if passed == [] {
      assert passed + rest == rest && before + passed == before;
    } else {
      assert (passed + rest)[1..] == passed[1..] + rest && (passed + rest)[0] == passed[0];
      assert forall i :: 0 <= i < |passed[1..]| ==> passed[1..][i] == passed[i + 1];
      InTableGoesOn(before + [passed[0]], passed[1..], rest, header, key, replacement);
      assert before + [passed[0]] + passed[1..] == before + passed;
    }
  }

  /** The lines up to and into a table. */
  lemma {:induction false} ReachesTable(before: seq<Line>, own: Line, inside: seq<Line>, rest: seq<Line>, header: Line, key: string, replacement: Line)
    requires HasNoHeader(before, header) && IsHeader(own, header) && Passes(inside, key)
    ensures TableEdit([], before + [own] + inside + rest, false, header, key, replacement) ==
            TableEdit(before + [own] + inside, rest, true, header, key, replacement)
  {
    assert before + [own] + inside + rest == before + ([own] + (inside + rest)) && [] + before == before;
    assert ([own] + (inside + rest))[1..] == inside + rest;
    TableGoesOn([], before, [own] + (inside + rest), header, key, replacement);
    InTableGoesOn(before + [own], inside, rest, header, key, replacement);
  }

  /** In its table a key that is set is set anew in its place. */
  lemma {:induction false} TableKeyIsReplaced(before: seq<Line>, own: Line, inside: seq<Line>, set_: Line, after: seq<Line>, header: Line, key: string,
                           replacement: Line)
    requires HasNoHeader(before, header) && IsHeader(own, header) && Passes(inside, key) && SetsKey(set_, key)
    ensures NewLines(TableEdit([], before + [own] + inside + ([set_] + after), false, header, key, replacement)) ==
            before + [own] + inside + [replacement] + after
  {
    ReachesTable(before, own, inside, [set_] + after, header, key, replacement);
    assert ([set_] + after)[1..] == after;
  }

  /** One that is not goes to the end of its table, without the empty lines there, and before an empty line and the next table. */
  lemma {:induction false} TableKeyGoesToTheEnd(before: seq<Line>, own: Line, inside: seq<Line>, next: Line, after: seq<Line>, header: Line, key: string,
                             replacement: Line)
    requires HasNoHeader(before, header) && IsHeader(own, header) && Passes(inside, key) && next.kind.Header?
    ensures NewLines(TableEdit([], before + [own] + inside + ([next] + after), false, header, key, replacement)) ==
            DropBlankTail(before + [own] + inside) + [replacement, BLANK] + ([next] + after)
  {
    ReachesTable(before, own, inside, [next] + after, header, key, replacement);
  }

  /** Or to the end of all where its table is the last. */
  lemma {:induction false} LastTableKeyGoesToTheEnd(before: seq<Line>, own: Line, inside: seq<Line>, header: Line, key: string, replacement: Line)
    requires HasNoHeader(before, header) && IsHeader(own, header) && Passes(inside, key)
    ensures NewLines(TableEdit([], before + [own] + inside, false, header, key, replacement)) == before + [own] + inside + [replacement]
  {
    assert before + [own] + inside + [] == before + [own] + inside;
    ReachesTable(before, own, inside, [], header, key, replacement);
  }

  /** And a table that is not there is made at the end, after an empty line. */
  lemma {:induction false} NewTableGoesToTheEnd(lines: seq<Line>, header: Line, key: string, replacement: Line)
    requires HasNoHeader(lines, header)
    ensures NewLines(TableEdit([], lines, false, header, key, replacement)) == lines + EmptyAfter(lines) + [header, replacement]
  {
    assert lines + [] == lines && [] + lines == lines;
    TableGoesOn([], lines, [], header, key, replacement);
    assert lines + (EmptyAfter(lines) + [header, replacement]) + [] == lines + EmptyAfter(lines) + [header, replacement];
  }

  /** Lines whose blanks are dropped at the end: nothing else is, and none is left. */
  lemma {:induction false} OnlyBlanksAreDropped(lines: seq<Line>)
    ensures var kept := DropBlankTail(lines);
            && kept <= lines && (kept == [] || !kept[|kept| - 1].blank)
            && forall i :: |kept| <= i < |lines| ==> lines[i].blank
  {
    if lines != [] && lines[|lines| - 1].blank {
      OnlyBlanksAreDropped(lines[..|lines| - 1]);
    }
  }

  // ---- The text -----------------------------------------------------------------------------------

  /** The line that is written is the key, an equals sign between spaces, and the literal; a table it makes has the name between brackets;
      and both stand in the updated body as they are. */
  lemma {:induction false} LineIsWritten(body: string, u: Update)
    requires ValidUpdate(u) && GoodBody(body)
    ensures exists i :: 0 <= i < |LinesOf(Updated(body, u))| && LinesOf(Updated(body, u))[i].text == u.key + " = " + u.literal
                        && TableAfter(LinesOf(Updated(body, u))[..i], None) == if u.table.Some? then Some("[" + u.table.value + "]") else None
    ensures u.table.Some? ==> ChangeFor(u).header.Some? && ChangeFor(u).header.value.text == "[" + u.table.value + "]"
  {
    var i := UpdateIsThere(body, u);
    ReplacementReadsBack(u);
    if u.table.Some? {
      HeaderReadsBack(u.table.value);
    }
  }

  /** What a line is to the editor: nothing when it is blank or a comment, a header when it begins with a bracket, else an assignment of what
      stands before its first equals sign, if it has one. */
  lemma {:induction false} LineIsRead(text: string, key: string, rest: string)
    ensures Strip(text) == "" ==> Parse(text).kind == Nothing && Parse(text).blank
    ensures Strip(text) != "" && Strip(text)[0] == '#' ==> Parse(text).kind == Nothing && !Parse(text).blank
    ensures Strip(text) != "" && Strip(text)[0] == '[' ==> Parse(text).kind == Header(Strip(text)) && !Parse(text).blank
    ensures Strip(text) != "" && Strip(text)[0] != '#' && Strip(text)[0] != '[' && Strip(text) == key + "=" + rest && '=' !in key ==>
              Parse(text).kind == Assign(Strip(key), Strip(rest)) && !Parse(text).blank
    ensures Strip(text) != "" && Strip(text)[0] != '#' && Strip(text)[0] != '[' && '=' !in Strip(text) ==> Parse(text).kind == Unread
  {
    StripTrims(text);
    var stripped := Strip(text);
    if '=' !in key && stripped == key + "=" + rest {
      FirstIndexIs(key, '=', rest);
      assert stripped == key + ['='] + rest;
      assert stripped[..|key|] == key && stripped[|key| + 1..] == rest;
    }
    if '=' !in stripped {
      FirstIndexFacts(stripped, '=');
    }
  }
}
