/** The config file as text: lines split, read, edited and joined again, and the store that writes them.
    Lines end at line feeds only. */
module TomlText {
  import opened Outcomes
  import opened Text
  import opened TextLines
  import opened TomlLines

  // ---- From text to lines ---------------------------------------------------------------------------

  function KindOf(stripped: string): Kind {
    if stripped == "" then Nothing
    else if stripped[0] == '[' then Header(stripped)
    else if stripped[0] == '#' then Nothing
    else
      var at := FirstIndex(stripped, '=');
      if at == |stripped| then Unread else Assign(Strip(stripped[..at]), Strip(stripped[at + 1..]))
  }

  function Parse(text: string): Line {
    Line(text, KindOf(Strip(text)), Strip(text) == "")
  }

  function Split(body: string): seq<string>
    decreases |body|
  {
    if body == "" then []
    else
      var at := FirstIndex(body, '\n');
      [body[..at]] + if at < |body| then Split(body[at + 1..]) else []
  }

  function ParseAll(texts: seq<string>): seq<Line> {
    seq(|texts|, i requires 0 <= i < |texts| => Parse(texts[i]))
  }

  function LinesOf(body: string): seq<Line> {
    ParseAll(Split(body))
  }

  function Texts(lines: seq<Line>): seq<string> {
    seq(|lines|, i requires 0 <= i < |lines| => lines[i].text)
  }

  function WithTrailingNewline(lines: seq<Line>): string {
    RStrip(Join(Texts(lines))) + "\n"
  }

  predicate PlainText(s: string) {
    forall i :: 0 <= i < |s| ==> s[i] != '\n'
  }

  predicate Plain(texts: seq<string>) {
    forall i {:trigger texts[i]} :: 0 <= i < |texts| ==> PlainText(texts[i])
  }

  lemma {:induction false} SplitIsPlain(body: string)
    ensures Plain(Split(body))
    decreases |body|
  {
    if body != "" {
      var at := FirstIndex(body, '\n');
      FirstIndexFacts(body, '\n');
      if at < |body| {
        SplitIsPlain(body[at + 1..]);
      }
    }
  }

  lemma {:induction false} SplitOne(text: string, rest: string)
    requires PlainText(text)
    ensures Split(text + "\n" + rest) == [text] + Split(rest)
  {
    var body := text + "\n" + rest;
    FirstIndexIs(text, '\n', rest);
    assert body[..|text|] == text && body[|text| + 1..] == rest;
  }

  /** Splitting what was joined gives the lines back. */
  lemma {:induction false} SplitJoin(texts: seq<string>)
    requires Plain(texts) && texts != []
    ensures Split(Join(texts) + "\n") == texts
  {
    assert PlainText(texts[0]);
    if |texts| == 1 {
      SplitOne(texts[0], "");
      assert Join(texts) + "\n" == texts[0] + "\n" + "";
      assert texts == [texts[0]] + [];
    } else {
      assert forall i :: 0 <= i < |texts[1..]| ==> texts[1..][i] == texts[i + 1];
      SplitJoin(texts[1..]);
      SplitOne(texts[0], Join(texts[1..]) + "\n");
      assert Join(texts) + "\n" == texts[0] + "\n" + (Join(texts[1..]) + "\n");
      assert texts == [texts[0]] + texts[1..];
    }
  }

  /** What survives stripping the end of a whole text: no blank last lines, and no spaces after the last word. */
  function TrimEnd(texts: seq<string>): seq<string> {
    if texts == [] then []
    else
      var init, last := texts[..|texts| - 1], texts[|texts| - 1];
      if Strip(last) == "" then TrimEnd(init) else init + [RStrip(last)]
  }

  lemma {:induction false} TrimEndFacts(texts: seq<string>)
    requires Plain(texts)
    ensures Plain(TrimEnd(texts)) && |TrimEnd(texts)| <= |texts|
    ensures forall i :: 0 <= i < |TrimEnd(texts)| - 1 ==> TrimEnd(texts)[i] == texts[i]
    ensures TrimEnd(texts) != [] ==> var n := |TrimEnd(texts)| - 1; TrimEnd(texts)[n] == RStrip(texts[n]) && Strip(texts[n]) != ""
    ensures forall i :: |TrimEnd(texts)| <= i < |texts| ==> Strip(texts[i]) == ""
  {
    if texts != [] {
      var init, last := texts[..|texts| - 1], texts[|texts| - 1];
      if Strip(last) == "" {
        TrimEndFacts(init);
      } else {
        RStripFacts(last);
        assert PlainText(last);
      }
    }
  }

  /** Stripping the joined text is joining the trimmed lines. */
  lemma {:induction false} StripJoin(texts: seq<string>)
    requires TrimEnd(texts) != []
    ensures RStrip(Join(texts)) == Join(TrimEnd(texts))
  {
    var init, last := texts[..|texts| - 1], texts[|texts| - 1];
    assert texts == init + [last];
    StripTrims(last);
    if Strip(last) == "" {
      JoinLast(init, last);
      BlankLineIsBlank(last);
      assert Join(texts) == Join(init) + ("\n" + last);
      RStripForgets(Join(init), "\n" + last);
      StripJoin(init);
    } else if init == [] {
      assert [] + [RStrip(last)] == [RStrip(last)];
    } else {
      JoinLast(init, last);
      JoinLast(init, RStrip(last));
      RStripLastPart(Join(init) + "\n", last);
    }
  }

  lemma {:induction false} BlankLineIsBlank(text: string)
    requires Strip(text) == ""
    ensures Blank("\n" + text)
  {
    StripTrims(text);
    var longer := "\n" + text;
    assert forall i :: 0 < i < |longer| ==> longer[i] == text[i - 1];
  }

  /** Reading back what was written gives the lines, trimmed at the end. */
  lemma {:induction false} ReadBack(lines: seq<Line>)
    requires Plain(Texts(lines)) && TrimEnd(Texts(lines)) != []
    ensures LinesOf(WithTrailingNewline(lines)) == ParseAll(TrimEnd(Texts(lines)))
    ensures WithTrailingNewline(ParseAll(TrimEnd(Texts(lines)))) == WithTrailingNewline(lines)
  {
    var trimmed := TrimEnd(Texts(lines));
    TrimEndFacts(Texts(lines));
    StripJoin(Texts(lines));
    SplitJoin(trimmed);
    assert Texts(ParseAll(trimmed)) == trimmed;
    TrimTwice(Texts(lines));
    StripJoin(trimmed);
  }

  lemma {:induction false} TrimTwice(texts: seq<string>)
    requires Plain(texts) && TrimEnd(texts) != []
    ensures TrimEnd(TrimEnd(texts)) == TrimEnd(texts)
  {
    TrimEndFacts(texts);
    var trimmed := TrimEnd(texts);
    var n := |trimmed| - 1;
    StripIgnoresEnd(texts[n]);
    RStripFacts(texts[n]);
    RStripStops(RStrip(texts[n]), "");
    assert RStrip(texts[n]) + "" == RStrip(texts[n]);
    assert trimmed == trimmed[..n] + [trimmed[n]];
  }
}
