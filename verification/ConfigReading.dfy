/** Which lines of a configuration file say what, for every line and not only for those the program wrote. */
module ConfigReading {
  import opened Outcomes
  import opened TextLines
  import opened JsonStrings
  import opened ConfigObjects
  import opened ConfigLines
  import ConfigCodec

  const SPACES := "\t\n\U{0b}\U{0c}\r \U{a0}\U{1680}\U{2000}\U{2001}\U{2002}\U{2003}\U{2004}\U{2005}\U{2006}\U{2007}\U{2008}\U{2009}\U{200a}\U{2028}\U{2029}\U{202f}\U{205f}\U{3000}\U{feff}"

  const SMALL := "abcdefghijklmnopqrstuvwxyz"
  const CAPITAL := "ABCDEFGHIJKLMNOPQRSTUVWXYZ"
  const OTHERS := "0123456789_.-"
  const NAME_CHARS := SMALL + CAPITAL + OTHERS

  lemma SpacesAreThose(c: char)
    ensures JsSpace(c) <==> c in SPACES
  {
    assert c in SPACES ==> exists i :: 0 <= i < |SPACES| && SPACES[i] == c;
  }

  lemma SmallAreThose(c: char)
    ensures 'a' <= c <= 'z' <==> c in SMALL
  {
    if 'a' <= c <= 'z' {
      assert SMALL[c as int - 'a' as int] == c;
    }
  }

  lemma CapitalAreThose(c: char)
    ensures 'A' <= c <= 'Z' <==> c in CAPITAL
  {
    if 'A' <= c <= 'Z' {
      assert CAPITAL[c as int - 'A' as int] == c;
    }
  }

  lemma NameCharsAreThose(c: char)
    ensures NameChar(c) <==> c in NAME_CHARS
  {
    SmallAreThose(c);
    CapitalAreThose(c);
    assert NAME_CHARS == SMALL + CAPITAL + OTHERS;
    assert c in NAME_CHARS <==> c in SMALL || c in CAPITAL || c in OTHERS;
    assert c in OTHERS <==> '0' <= c <= '9' || c == '_' || c == '.' || c == '-';
  }

  predicate AllSpace(s: string) {
    forall c :: c in s ==> c in SPACES
  }

  lemma {:induction false} StartIsCut(s: string) returns (front: string)
    ensures AllSpace(front) && s == front + TrimStart(s) && (TrimStart(s) != "" ==> !JsSpace(TrimStart(s)[0]))
  {
    front := "";
    if s != "" && JsSpace(s[0]) {
      SpacesAreThose(s[0]);
      var more := StartIsCut(s[1..]);
      front := [s[0]] + more;
      assert s == [s[0]] + s[1..];
    }
  }

  lemma {:induction false} EndIsCut(s: string) returns (back: string)
    ensures AllSpace(back) && s == TrimEnd(s) + back && TrimEnd(s) <= s
    ensures TrimEnd(s) != "" ==> !JsSpace(TrimEnd(s)[|TrimEnd(s)| - 1])
  {
    back := "";
    if s != "" && JsSpace(s[|s| - 1]) {
      var before, last := s[..|s| - 1], s[|s| - 1];
      SpacesAreThose(last);
      var less := EndIsCut(before);
      back := less + [last];
      assert s == before + [last] && TrimEnd(s) == TrimEnd(before);
      assert before + [last] == TrimEnd(before) + (less + [last]);
    }
  }

  /** Trimming takes white space off both ends and leaves none there. */
  lemma TrimIsExact(s: string) returns (front: string, back: string)
    ensures AllSpace(front) && AllSpace(back) && s == front + Trim(s) + back
    ensures Trim(s) != "" ==> Trim(s)[0] !in SPACES && Trim(s)[|Trim(s)| - 1] !in SPACES
  {
    front := StartIsCut(s);
    back := EndIsCut(TrimStart(s));
    var t := Trim(s);
    if t != "" {
      SpacesAreThose(t[0]);
      SpacesAreThose(t[|t| - 1]);
      assert t[0] == TrimStart(s)[0];
    }
  }

  // ---- What is a comment ------------------------------------------------------------------------------

  /** What is left of the rest of a line, from inside a string or not. */
  function Left(line: string, inString: bool): string {
    line[..CutAt(line, if inString then INSIDE else OUTSIDE)]
  }

  /** From character to character: a backslash keeps the next one, in a string and out of it; a quote goes in and out; a number sign
      outside cuts the rest, and anything else is kept. */
  lemma CommentIsCutWhere(c: char, rest: string, inString: bool)
    ensures Left("", inString) == ""
    ensures Left(['\\'], inString) == ['\\'] && Left(['\\'] + [c] + rest, inString) == ['\\'] + [c] + Left(rest, inString)
    ensures Left(['\"'] + rest, inString) == ['\"'] + Left(rest, !inString)
    ensures Left(['#'] + rest, inString) == if inString then ['#'] + Left(rest, true) else ""
    ensures c != '\\' && c != '\"' && c != '#' ==> Left([c] + rest, inString) == [c] + Left(rest, inString)
    ensures WithoutComment(rest) == Left(rest, false)
  {
    var at, escaped := if inString then INSIDE else OUTSIDE, ['\\'] + [c] + rest;
    assert escaped[1..] == [c] + rest && ([c] + rest)[1..] == rest;
    assert CutAt(escaped, at) == 1 + CutAt([c] + rest, Scan(inString, true)) == 2 + CutAt(rest, at);
    assert (['\"'] + rest)[1..] == rest && (['#'] + rest)[1..] == rest;
  }

  // ---- What is a section -------------------------------------------------------------------------------

  predicate IsName(name: string) {
    name != "" && forall c :: c in name ==> c in NAME_CHARS
  }

  lemma HeaderIsName(line: string)
    ensures IsHeader(line) <==> |line| > 2 && line == ['['] + line[1..|line| - 1] + [']'] && IsName(line[1..|line| - 1])
  {
    if |line| > 2 {
      var name := line[1..|line| - 1];
      forall i | 1 <= i < |line| - 1 ensures NameChar(line[i]) <==> name[i - 1] in NAME_CHARS {
        NameCharsAreThose(line[i]);
        assert name[i - 1] == line[i];
      }
      if IsHeader(line) {
        forall c | c in name ensures c in NAME_CHARS {
          var k :| 0 <= k < |name| && name[k] == c;
          assert NameChar(line[k + 1]);
        }
      }
    }
  }

  /** Parts put together again with the dots between them. */
  lemma {:induction false} DotsPart(name: string)
    ensures var parts := SplitAtDots(name);
            parts != [] && Dotted(parts) == name && forall part :: part in parts ==> '.' !in part
    decreases |name|
  {
    var at := FirstIndex(name, '.');
    FirstIndexFacts(name, '.');
    if at < |name| {
      DotsPart(name[at + 1..]);
      var rest := SplitAtDots(name[at + 1..]);
      assert name == name[..at] + ['.'] + name[at + 1..];
      assert SplitAtDots(name)[1..] == rest;
    }
  }

  /** A line opens a section exactly when it is a name in brackets, and the section's path is the name cut at every dot. */
  lemma SectionIsRead(original: string)
    ensures var line := Trim(WithoutComment(original));
            match MeaningOf(original)
            case Section(path) =>
              line == ['['] + Dotted(path) + [']'] && IsName(Dotted(path)) && path != [] && forall part :: part in path ==> '.' !in part
            case _ => forall name :: IsName(name) ==> line != ['['] + name + [']']
  {
    var line := Trim(WithoutComment(original));
    HeaderIsName(line);
    if line != "" && IsHeader(line) {
      DotsPart(line[1..|line| - 1]);
    } else {
      forall name | IsName(name) ensures line != ['['] + name + [']'] {
        var header := ['['] + name + [']'];
        assert header[1..|header| - 1] == name;
        HeaderIsName(header);
      }
    }
  }

  // ---- What is an assignment ------------------------------------------------------------------------------

  /** A line without an equals sign, other than a section, says nothing. */
  lemma OtherLinesSayNothing(original: string)
    requires '=' !in Trim(WithoutComment(original)) && !MeaningOf(original).Section?
    ensures MeaningOf(original) == Nothing
  {
    FirstIndexFacts(Trim(WithoutComment(original)), '=');
  }

  /** The first equals sign ends the key; the value is a flag, a JSON string when it has quotes at both ends, and else the bare text. */
  lemma AssignmentSays(original: string, key: string, value: string)
    requires Trim(WithoutComment(original)) == key + "=" + value && '=' !in key && !MeaningOf(original).Section?
    ensures var text := Trim(value);
            MeaningOf(original) ==
            if text == "true" then Assign(Trim(key), JBool(true))
            else if text == "false" then Assign(Trim(key), JBool(false))
            else if text == "" || text[0] != '\"' || text[|text| - 1] != '\"' then Assign(Trim(key), JString(text))
            else match Contents(text[1..])
                 case Some(contents) => Assign(Trim(key), JString(contents))
                 case None => Broken
  {
    var line := key + "=" + value;
    FirstIndexIs(key, '=', value);
    assert line == key + ['='] + value;
    assert line[..|key|] == key && line[|key| + 1..] == value;
  }

  // ---- What is a line -------------------------------------------------------------------------------------

  /** A line feed ends a line, and takes one carriage return before it along; a return elsewhere stays. */
  lemma {:induction false} LinesEndEitherWay(first: string, rest: string)
    requires '\n' !in first
    ensures ConfigCodec.SplitLines(first) == [first]
    ensures ConfigCodec.SplitLines(first + "\r\n" + rest) == [first] + ConfigCodec.SplitLines(rest)
    ensures (first == "" || first[|first| - 1] != '\r') ==>
              ConfigCodec.SplitLines(first + "\n" + rest) == [first] + ConfigCodec.SplitLines(rest)
  {
    FirstIndexFacts(first, '\n');
    FirstIndexIs(first, '\n', rest);
    FirstIndexIs(first + ['\r'], '\n', rest);
    var plain, both := first + ['\n'] + rest, first + ['\r'] + ['\n'] + rest;
    assert first + "\n" + rest == plain && plain[..|first|] == first && plain[|first| + 1..] == rest;
    assert first + "\r\n" + rest == both && both[..|first| + 1] == first + ['\r'] && both[|first| + 2..] == rest;
    assert (first + ['\r'])[..|first|] == first;
  }
}
