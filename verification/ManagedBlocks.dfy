/** The managed block in a user's instruction file: putting it in, taking it out, and tidying the blank lines left. */
module ManagedBlocks {
  import opened Outcomes
  import opened Text

  // ---- Searching ----------------------------------------------------------------------------------

  predicate Occurs(s: string, m: string, i: nat) {
    i + |m| <= |s| && s[i..i + |m|] == m
  }

  lemma OccursAt(s: string, m: string, i: nat, k: nat)
    requires k < |m|
    ensures Occurs(s, m, i) ==> s[i + k] == m[k]
  {
    if Occurs(s, m, i) {
      assert s[i..i + |m|][k] == s[i + k];
    }
  }

  lemma OccursInside(s: string, lo: nat, hi: nat, m: string, j: nat)
    requires lo <= hi <= |s| && Occurs(s[lo..hi], m, j)
    ensures Occurs(s, m, lo + j)
  {
    var inner := s[lo..hi];
    var found := s[lo + j..lo + j + |m|];
    assert forall k :: 0 <= k < |m| ==> found[k] == inner[j..j + |m|][k];
  }

  function FindFrom(s: string, m: string, i: nat): Option<nat>
    decreases |s| - i
  {
    if i + |m| > |s| || i >= |s| then None else if Occurs(s, m, i) then Some(i) else FindFrom(s, m, i + 1)
  }

  /** `str.find`: the first occurrence. */
  function Find(s: string, m: string): Option<nat> {
    FindFrom(s, m, 0)
  }

  lemma {:induction false} FindFromIsFirst(s: string, m: string, i: nat)
    requires m != ""
    ensures match FindFrom(s, m, i)
            case Some(at) => i <= at && Occurs(s, m, at) && forall j :: i <= j < at ==> !Occurs(s, m, j)
            case None => forall j :: i <= j ==> !Occurs(s, m, j)
    decreases |s| - i
  {
    if i + |m| <= |s| && !Occurs(s, m, i) {
      FindFromIsFirst(s, m, i + 1);
    }
  }

  lemma FindIsFirst(s: string, m: string)
    requires m != ""
    ensures match Find(s, m)
            case Some(at) => Occurs(s, m, at) && forall j :: 0 <= j < at ==> !Occurs(s, m, j)
            case None => forall j :: 0 <= j ==> !Occurs(s, m, j)
  {
    FindFromIsFirst(s, m, 0);
  }

  /** A marker begins with its only '<' and stays on one line. */
  predicate Marker(m: string) {
    m != "" && m[0] == '<' && forall i :: 0 < i < |m| ==> m[i] != '<' && m[i] != '\n'
  }

  /** Where a text may be cut so that no marker lies across the cut. */
  predicate CleanCut(rest: string) {
    rest == "" || rest[0] == '<' || rest[0] == '\n'
  }

  function Shifted(at: Option<nat>, offset: nat): Option<nat> {
    if at.Some? then Some(at.value + offset) else None
  }

  lemma OccursLeft(a: string, b: string, m: string, i: nat)
    requires Marker(m) && CleanCut(b) && i < |a|
    ensures Occurs(a + b, m, i) <==> Occurs(a, m, i)
  {
    if i + |m| > |a| {
      OccursAt(a + b, m, i, |a| - i);
    } else {
      assert (a + b)[i..i + |m|] == a[i..i + |m|];
    }
  }

  lemma OccursRight(a: string, b: string, m: string, i: nat)
    ensures Occurs(a + b, m, |a| + i) <==> Occurs(b, m, i)
  {
    if i + |m| <= |b| {
      assert (a + b)[|a| + i..|a| + i + |m|] == b[i..i + |m|];
    }
  }

  lemma FindIsNone(s: string, m: string)
    requires m != "" && forall j :: 0 <= j ==> !Occurs(s, m, j)
    ensures Find(s, m).None?
  {
    FindIsFirst(s, m);
  }

  lemma FindIsUnique(s: string, m: string, at: nat)
    requires m != "" && Occurs(s, m, at) && forall j :: 0 <= j < at ==> !Occurs(s, m, j)
    ensures Find(s, m) == Some(at)
  {
    FindIsFirst(s, m);
  }

  /** Across a clean cut, search left first, then right. */
  lemma FindAcross(a: string, b: string, m: string)
    requires Marker(m) && CleanCut(b)
    ensures Find(a + b, m) == if Find(a, m).Some? then Find(a, m) else Shifted(Find(b, m), |a|)
  {
    FindIsFirst(a, m);
    FindIsFirst(b, m);
    FindIsFirst(a + b, m);
    forall i | 0 <= i < |a| ensures Occurs(a + b, m, i) <==> Occurs(a, m, i) {
      OccursLeft(a, b, m, i);
    }
    forall i | |a| <= i ensures Occurs(a + b, m, i) <==> Occurs(b, m, i - |a|) {
      OccursRight(a, b, m, i - |a|);
    }
    if Find(a, m).Some? {
      FindIsUnique(a + b, m, Find(a, m).value);
    } else if Find(b, m).Some? {
      FindIsUnique(a + b, m, |a| + Find(b, m).value);
    }
  }

  // ---- The block ----------------------------------------------------------------------------------

  datatype Markers = Markers(start: string, end: string)

  const CODEALMANAC := Markers("<!-- codealmanac:start -->", "<!-- codealmanac:end -->")

  /** Two markers of which the first does not contain the second. */
  predicate Distinguishable(ms: Markers) {
    Marker(ms.start) && Marker(ms.end) && Find(ms.start, ms.end).None?
  }

  predicate MarkerFree(s: string, ms: Markers) {
    Find(s, ms.start).None? && Find(s, ms.end).None?
  }

  function Body(guide: string): string {
    "\n" + Strip(guide) + "\n"
  }

  /** Everything of a block before its end marker. */
  function Head(guide: string, ms: Markers): string {
    ms.start + Body(guide)
  }

  function FormatBlock(guide: string, ms: Markers): string {
    Head(guide, ms) + ms.end
  }

  function Separator(contents: string): string {
    if contents == "" then "" else if contents[|contents| - 1] == '\n' then "\n" else "\n\n"
  }

  /** Both markers are there, and the first start marker stands before the first end marker. */
  predicate HasBlock(contents: string, ms: Markers) {
    Find(contents, ms.start).Some? && Find(contents, ms.end).Some? && Find(contents, ms.end).value > Find(contents, ms.start).value
  }

  /** `upsert_managed_block`. */
  function Upserted(contents: string, block: string, ms: Markers): string {
    var start, end := Find(contents, ms.start), Find(contents, ms.end);
    if start.Some? && end.Some? && end.value > start.value && end.value + |ms.end| <= |contents|
    then contents[..start.value] + block + contents[end.value + |ms.end|..]
    else contents + Separator(contents) + block + "\n"
  }

  lemma NotInSubstring(s: string, lo: nat, hi: nat, m: string)
    requires m != "" && lo <= hi <= |s| && Find(s, m).None?
    ensures Find(s[lo..hi], m).None?
  {
    FindIsFirst(s, m);
    forall j | 0 <= j && Occurs(s[lo..hi], m, j) ensures Occurs(s, m, lo + j) {
      OccursInside(s, lo, hi, m, j);
    }
    FindIsNone(s[lo..hi], m);
  }

  /** A line break put before a text makes no marker. */
  lemma NotAfterLineBreak(s: string, m: string)
    requires Marker(m) && Find(s, m).None?
    ensures Find("\n" + s, m).None?
  {
    FindIsFirst(s, m);
    forall j: nat ensures !Occurs("\n" + s, m, j) {
      if j == 0 {
        OccursAt("\n" + s, m, 0, 0);
      } else {
        OccursRight("\n", s, m, j - 1);
      }
    }
    FindIsNone("\n" + s, m);
  }

  lemma NotInLineBreak(m: string)
    requires Marker(m)
    ensures Find("\n", m).None?
  {
    FindIsNone("", m);
    NotAfterLineBreak("", m);
    assert "\n" + "" == "\n";
  }

  lemma GuideIsStripped(guide: string, m: string)
    requires m != "" && Find(guide, m).None?
    ensures Find(Strip(guide), m).None?
  {
    var left := LStrip(guide);
    LStripFacts(guide);
    RStripFacts(left);
    NotInSubstring(guide, |guide| - |left|, |guide|, m);
    assert left == guide[|guide| - |left|..|guide|];
    NotInSubstring(left, 0, |Strip(guide)|, m);
    assert Strip(guide) == left[0..|Strip(guide)|];
  }

  lemma BodyIsFree(guide: string, m: string)
    requires Marker(m) && Find(guide, m).None?
    ensures Find(Body(guide), m).None?
  {
    GuideIsStripped(guide, m);
    NotAfterLineBreak(Strip(guide), m);
    NotInLineBreak(m);
    FindAcross("\n" + Strip(guide), "\n", m);
  }

  /** Markers that differ somewhere do not contain each other. */
  lemma DifferIsApart(s: string, m: string, k: nat)
    requires Marker(s) && Marker(m) && k < |s| && k < |m| && s[k] != m[k]
    ensures Find(s, m).None?
  {
    forall j: nat ensures !Occurs(s, m, j) {
      OccursAt(s, m, j, 0);
      OccursAt(s, m, 0, k);
    }
    FindIsNone(s, m);
  }

  lemma MarkersAreMarkers()
    ensures Marker(CODEALMANAC.start) && Marker(CODEALMANAC.end)
    ensures |CODEALMANAC.start| > 17 && |CODEALMANAC.end| > 17 && CODEALMANAC.start[17] != CODEALMANAC.end[17]
  {
  }

  lemma MarkersAreDistinguishable()
    ensures Distinguishable(CODEALMANAC)
  {
    MarkersAreMarkers();
    DifferIsApart(CODEALMANAC.start, CODEALMANAC.end, 17);
  }

  lemma HeadIsFound(guide: string, after: string, ms: Markers)
    requires MarkerFree(guide, ms) && Distinguishable(ms)
    ensures Find(Head(guide, ms) + (ms.end + after), ms.start) == Some(0)
    ensures Find(Head(guide, ms) + (ms.end + after), ms.end) == Some(|Head(guide, ms)|)
  {
    var tail := ms.end + after;
    BodyIsFree(guide, ms.start);
    BodyIsFree(guide, ms.end);
    FindIsUnique(ms.start, ms.start, 0);
    FindIsUnique(tail, ms.end, 0);
    FindAcross(ms.start, Body(guide), ms.start);
    FindAcross(ms.start, Body(guide), ms.end);
    FindAcross(Head(guide, ms), tail, ms.start);
    FindAcross(Head(guide, ms), tail, ms.end);
  }

  function Framed(before: string, guide: string, after: string, ms: Markers): string {
    before + (Head(guide, ms) + (ms.end + after))
  }

  /** A block is found by its own markers unless earlier ones stand before it. */
  lemma BlockIsFound(before: string, guide: string, after: string, ms: Markers)
    requires MarkerFree(guide, ms) && Distinguishable(ms)
    ensures var text := Framed(before, guide, after, ms);
            && Find(text, ms.start) == (if Find(before, ms.start).Some? then Find(before, ms.start) else Some(|before|))
            && Find(text, ms.end) == (if Find(before, ms.end).Some? then Find(before, ms.end) else Some(|before| + |Head(guide, ms)|))
  {
    HeadIsFound(guide, after, ms);
    FindAcross(before, Head(guide, ms) + (ms.end + after), ms.start);
    FindAcross(before, Head(guide, ms) + (ms.end + after), ms.end);
  }

  lemma SeparatorIsFree(contents: string, m: string)
    requires Marker(m)
    ensures Find(contents + Separator(contents), m) == Find(contents, m)
  {
    NotInLineBreak(m);
    NotAfterLineBreak("\n", m);
    assert "\n" + "\n" == "\n\n";
    if contents == "" {
      assert contents + Separator(contents) == contents;
    } else {
      FindAcross(contents, Separator(contents), m);
    }
  }

  lemma BeforeIsFree(contents: string, start: nat, m: string)
    requires m != "" && start <= |contents| && (Find(contents, m).Some? ==> start <= Find(contents, m).value)
    ensures Find(contents[..start], m).None?
  {
    FindIsFirst(contents, m);
    forall j: nat ensures !Occurs(contents[..start], m, j) {
      OccursLonger(contents, start, m, j);
    }
    FindIsNone(contents[..start], m);
  }

  lemma OccursLonger(contents: string, start: nat, m: string, j: nat)
    requires m != "" && start <= |contents|
    ensures Occurs(contents[..start], m, j) ==> Occurs(contents, m, j) && j < start
  {
    if Occurs(contents[..start], m, j) {
      assert contents[..start] == contents[0..start];
      OccursInside(contents, 0, start, m, j);
    }
  }

  /** Replacing a block that stands first by itself. */
  lemma ReplaceAgain(before: string, guide: string, after: string, ms: Markers)
    requires MarkerFree(guide, ms) && MarkerFree(before, ms) && Distinguishable(ms)
    ensures var text := Framed(before, guide, after, ms); Upserted(text, FormatBlock(guide, ms), ms) == text
  {
    BlockIsFound(before, guide, after, ms);
    var text := Framed(before, guide, after, ms);
    var end := |before| + |Head(guide, ms)|;
    assert text[..|before|] == before && text[end + |ms.end|..] == after;
    assert text == before + FormatBlock(guide, ms) + after;
  }

  lemma AppendIsFramed(contents: string, guide: string, ms: Markers)
    requires Distinguishable(ms) && !HasBlock(contents, ms)
    ensures Upserted(contents, FormatBlock(guide, ms), ms) == Framed(contents + Separator(contents), guide, "\n", ms)
  {
    assert contents + Separator(contents) + FormatBlock(guide, ms) + "\n" == Framed(contents + Separator(contents), guide, "\n", ms);
  }

  lemma ReplaceIsFramed(contents: string, guide: string, ms: Markers)
    requires Distinguishable(ms) && HasBlock(contents, ms)
    ensures var start, end := Find(contents, ms.start).value, Find(contents, ms.end).value;
            && start <= |contents| && end + |ms.end| <= |contents|
            && MarkerFree(contents[..start], ms)
            && Upserted(contents, FormatBlock(guide, ms), ms) == Framed(contents[..start], guide, contents[end + |ms.end|..], ms)
  {
    FindIsFirst(contents, ms.start);
    FindIsFirst(contents, ms.end);
    var start, end := Find(contents, ms.start).value, Find(contents, ms.end).value;
    BeforeIsFree(contents, start, ms.start);
    BeforeIsFree(contents, start, ms.end);
    var after := contents[end + |ms.end|..];
    assert contents[..start] + FormatBlock(guide, ms) + after == Framed(contents[..start], guide, after, ms);
  }

  /** Where the text an upsert appended to already held a marker, the next upsert changes it again. */
  lemma AppendDoesNotSettle(contents: string, guide: string, ms: Markers)
    requires MarkerFree(guide, ms) && Distinguishable(ms) && !HasBlock(contents, ms) && !MarkerFree(contents, ms)
    ensures var text := Framed(contents + Separator(contents), guide, "\n", ms);
            |Upserted(text, FormatBlock(guide, ms), ms)| != |text|
  {
    var before := contents + Separator(contents);
    SeparatorIsFree(contents, ms.start);
    SeparatorIsFree(contents, ms.end);
    FindIsFirst(contents, ms.start);
    FindIsFirst(contents, ms.end);
    BlockIsFound(before, guide, "\n", ms);
  }

  /** After a stray start marker without an end, the second upsert drops everything the user had from that marker on. */
  lemma StrayStartLosesText(contents: string, guide: string, ms: Markers)
    requires MarkerFree(guide, ms) && Distinguishable(ms) && Find(contents, ms.start).Some? && Find(contents, ms.end).None?
    ensures var block := FormatBlock(guide, ms);
            && Find(contents, ms.start).value < |contents|
            && Upserted(Upserted(contents, block, ms), block, ms) == contents[..Find(contents, ms.start).value] + block + "\n"
  {
    var before := contents + Separator(contents);
    FindIsFirst(contents, ms.start);
    AppendIsFramed(contents, guide, ms);
    SeparatorIsFree(contents, ms.start);
    SeparatorIsFree(contents, ms.end);
    BlockIsFound(before, guide, "\n", ms);
    var text, start := Framed(before, guide, "\n", ms), Find(contents, ms.start).value;
    assert text[..start] == contents[..start] && text[|before| + |Head(guide, ms)| + |ms.end|..] == "\n";
  }

  /** Upserting the same block again changes nothing exactly when the file had no marker at all, or a start marker before
      its first end marker; in the other cases the second upsert appends again or cuts the text between away. */
  lemma UpsertIsIdempotent(contents: string, guide: string, ms: Markers)
    requires MarkerFree(guide, ms) && Distinguishable(ms)
    ensures var block := FormatBlock(guide, ms);
            var once := Upserted(contents, block, ms);
            Upserted(once, block, ms) == once <==> MarkerFree(contents, ms) || HasBlock(contents, ms)
  {
    if HasBlock(contents, ms) {
      ReplaceIsFramed(contents, guide, ms);
      var start, end := Find(contents, ms.start).value, Find(contents, ms.end).value;
      ReplaceAgain(contents[..start], guide, contents[end + |ms.end|..], ms);
    } else {
      AppendIsFramed(contents, guide, ms);
      if MarkerFree(contents, ms) {
        SeparatorIsFree(contents, ms.start);
        SeparatorIsFree(contents, ms.end);
        ReplaceAgain(contents + Separator(contents), guide, "\n", ms);
      } else {
        AppendDoesNotSettle(contents, guide, ms);
      }
    }
  }

  /** For instance when the end marker comes first: such a text gets another block on every upsert, or loses what is between. */
  lemma EndBeforeStartIsNotSettled(guide: string, ms: Markers)
    requires MarkerFree(guide, ms) && Distinguishable(ms)
    ensures var block, contents := FormatBlock(guide, ms), ms.end + ms.start;
            Upserted(Upserted(contents, block, ms), block, ms) != Upserted(contents, block, ms)
  {
    var contents := ms.end + ms.start;
    FindIsFirst(contents, ms.end);
    assert Occurs(contents, ms.end, 0) by {
      assert contents[0..|ms.end|] == ms.end;
    }
    FindIsUnique(contents, ms.end, 0);
    UpsertIsIdempotent(contents, guide, ms);
  }

  // ---- Blank lines --------------------------------------------------------------------------------

  predicate TripleAt(s: string, i: nat) {
    i + 2 < |s| && s[i] == '\n' && s[i + 1] == '\n' && s[i + 2] == '\n'
  }

  predicate HasTriple(s: string) {
    exists i :: 0 <= i < |s| && TripleAt(s, i)
  }

  /** One `replace` of every three line breaks by two, left to right. */
  function ReplaceTriples(s: string): string {
    if s == "" then "" else if TripleAt(s, 0) then "\n\n" + ReplaceTriples(s[3..]) else [s[0]] + ReplaceTriples(s[1..])
  }

  /** Every run of line breaks cut to two, when `n` breaks stand just before. */
  function CapFrom(s: string, n: nat): string {
    if s == "" then ""
    else if s[0] != '\n' then [s[0]] + CapFrom(s[1..], 0)
    else if n < 2 then "\n" + CapFrom(s[1..], n + 1)
    else CapFrom(s[1..], n)
  }

  function Capped(s: string): string {
    CapFrom(s, 0)
  }

  function DropLastBreaks(s: string): string {
    if s != "" && s[|s| - 1] == '\n' then DropLastBreaks(s[..|s| - 1]) else s
  }

  function DropFirstBreaks(s: string): string {
    if s != "" && s[0] == '\n' then DropFirstBreaks(s[1..]) else s
  }

  predicate EndsBreak(s: string) {
    s != "" && s[|s| - 1] == '\n'
  }

  predicate EndsBlankLine(s: string) {
    |s| >= 2 && s[|s| - 1] == '\n' && s[|s| - 2] == '\n'
  }

  function LastBreaksCut(s: string): string {
    if !Blank(s) && EndsBlankLine(s) then DropLastBreaks(s) + "\n" else s
  }

  /** The end of `collapse_blank_lines`, once no run is longer than two. */
  function Finished(s: string): string {
    DropFirstBreaks(LastBreaksCut(s))
  }

  lemma CapBreak(s: string, n: nat)
    ensures CapFrom("\n" + s, n) == if n < 2 then "\n" + CapFrom(s, n + 1) else CapFrom(s, n)
  {
    assert ("\n" + s)[1..] == s;
  }

  lemma {:induction false} ReplaceKeepsCap(s: string, n: nat)
    ensures CapFrom(ReplaceTriples(s), n) == CapFrom(s, n)
    decreases |s|
  {
    if s == "" {
    } else if TripleAt(s, 0) {
      var rest, tail := ReplaceTriples(s[3..]), s[3..];
      assert "\n\n" + rest == "\n" + ("\n" + rest) && s == "\n" + ("\n" + ("\n" + tail));
      ReplaceKeepsCap(tail, if n < 2 then 2 else n);
      CapBreak("\n" + rest, n);
      CapBreak("\n" + ("\n" + tail), n);
      var m := if n < 2 then n + 1 else n;
      CapBreak(rest, m);
      CapBreak("\n" + tail, m);
      CapBreak(tail, if m < 2 then m + 1 else m);
    } else {
      var rest := ReplaceTriples(s[1..]);
      assert ([s[0]] + rest)[1..] == rest;
      ReplaceKeepsCap(s[1..], if s[0] != '\n' then 0 else if n < 2 then n + 1 else n);
    }
  }

  lemma {:induction false} ReplaceShrinks(s: string)
    ensures |ReplaceTriples(s)| <= |s|
    ensures HasTriple(s) ==> |ReplaceTriples(s)| < |s|
    decreases |s|
  {
    if s != "" {
      ReplaceShrinks(s[if TripleAt(s, 0) then 3 else 1..]);
      if HasTriple(s) && !TripleAt(s, 0) {
        var i :| 0 <= i < |s| && TripleAt(s, i);
        assert TripleAt(s[1..], i - 1);
      }
    }
  }

  /** `n` breaks and then these characters make no run longer than two. */
  predicate Capping(s: string, n: nat) {
    !HasTriple(s) && (n >= 1 ==> !(|s| >= 2 && s[0] == '\n' && s[1] == '\n')) && (n >= 2 ==> !(s != "" && s[0] == '\n'))
  }

  lemma TailCapping(s: string, n: nat)
    requires s != "" && Capping(s, n)
    ensures Capping(s[1..], if s[0] == '\n' then n + 1 else 0)
  {
    assert !TripleAt(s, 0);
    forall i | 0 <= i < |s[1..]| ensures !TripleAt(s[1..], i) {
      assert !TripleAt(s, i + 1);
    }
  }

  lemma HeadCapping(c: char, s: string, n: nat)
    requires Capping(s, if c == '\n' then n + 1 else 0) && (c == '\n' ==> n < 2)
    ensures Capping([c] + s, n)
  {
    var longer := [c] + s;
    forall i | 0 <= i < |longer| ensures !TripleAt(longer, i) {
      if i > 0 {
        assert !TripleAt(s, i - 1);
      }
    }
  }

  lemma {:induction false} CapIsCapping(s: string, n: nat)
    ensures Capping(CapFrom(s, n), n)
  {
    if s != "" {
      if s[0] != '\n' {
        CapIsCapping(s[1..], 0);
        HeadCapping(s[0], CapFrom(s[1..], 0), n);
      } else if n < 2 {
        CapIsCapping(s[1..], n + 1);
        HeadCapping('\n', CapFrom(s[1..], n + 1), n);
      } else {
        CapIsCapping(s[1..], n);
      }
    }
  }

  lemma {:induction false} CappingIsKept(s: string, n: nat)
    requires Capping(s, n)
    ensures CapFrom(s, n) == s
  {
    if s != "" {
      TailCapping(s, n);
      CappingIsKept(s[1..], if s[0] == '\n' then n + 1 else 0);
      assert s == [s[0]] + s[1..];
    }
  }

  /** `collapse_blank_lines`: the replace loop ends, and leaves every run of line breaks cut to two. */
  method CollapseBlankLines(contents: string) returns (collapsed: string)
    ensures collapsed == Finished(Capped(contents))
  {
    collapsed := contents;
    while HasTriple(collapsed)
      invariant Capped(collapsed) == Capped(contents)
      decreases |collapsed|
    {
      ReplaceKeepsCap(collapsed, 0);
      ReplaceShrinks(collapsed);
      collapsed := ReplaceTriples(collapsed);
    }
    CappingIsKept(collapsed, 0);
    if !Blank(collapsed) && EndsBlankLine(collapsed) {
      collapsed := DropLastBreaks(collapsed) + "\n";
    }
    collapsed := DropFirstBreaks(collapsed);
  }

  /** A text `collapse_blank_lines` has nothing to do on. */
  predicate Tidy(s: string) {
    !HasTriple(s) && (Blank(s) || !EndsBlankLine(s)) && (s == "" || s[0] != '\n')
  }

  lemma {:induction false} DroppedFirst(s: string)
    ensures var r := DropFirstBreaks(s); |r| <= |s| && r == s[|s| - |r|..] && (r == "" || r[0] != '\n')
    ensures Blank(DropFirstBreaks(s)) <==> Blank(s)
  {
    if s != "" && s[0] == '\n' {
      DroppedFirst(s[1..]);
      assert Blank(s) <==> Blank(s[1..]) by {
        assert s == [s[0]] + s[1..];
      }
    }
  }

  lemma {:induction false} DroppedPrefix(s: string)
    ensures var r := DropLastBreaks(s); r <= s && !EndsBreak(r) && (EndsBreak(s) ==> |r| < |s| && s[|r|] == '\n')
  {
    if EndsBreak(s) {
      var init := s[..|s| - 1];
      DroppedPrefix(init);
      assert s == init + "\n";
    }
  }

  lemma {:induction false} DroppedBlank(s: string)
    ensures Blank(DropLastBreaks(s)) <==> Blank(s)
  {
    if EndsBreak(s) {
      var init := s[..|s| - 1];
      DroppedBlank(init);
      assert s == init + "\n";
      assert Blank(s) <==> Blank(init);
    }
  }

  lemma {:induction false} DroppedBreaks(s: string)
    ensures |DropLastBreaks(s)| <= |s| && s == DropLastBreaks(s) + Breaks(|s| - |DropLastBreaks(s)|)
  {
    if EndsBreak(s) {
      var init := s[..|s| - 1];
      DroppedBreaks(init);
      var r := DropLastBreaks(init);
      assert DropLastBreaks(s) == r && Breaks(|s| - |r|) == Breaks(|init| - |r|) + "\n";
      assert s == r + (Breaks(|init| - |r|) + "\n");
    }
  }

  lemma {:induction false} DroppedLast(s: string)
    ensures var r := DropLastBreaks(s); r <= s && !EndsBreak(r) && (EndsBreak(s) ==> |r| < |s| && s[|r|] == '\n')
    ensures Blank(DropLastBreaks(s)) <==> Blank(s)
    ensures s == DropLastBreaks(s) + Breaks(|s| - |DropLastBreaks(s)|)
  {
    DroppedPrefix(s);
    DroppedBlank(s);
    DroppedBreaks(s);
  }

  function Breaks(k: nat): string {
    if k == 0 then "" else Breaks(k - 1) + "\n"
  }

  lemma NoTripleInside(s: string, lo: nat, hi: nat)
    requires lo <= hi <= |s| && !HasTriple(s)
    ensures !HasTriple(s[lo..hi])
  {
    forall i | 0 <= i < hi - lo ensures !TripleAt(s[lo..hi], i) {
      assert !TripleAt(s, lo + i);
    }
  }

  lemma LastBreaksAreTidy(c: string)
    requires !HasTriple(c)
    ensures var d := LastBreaksCut(c); !HasTriple(d) && (Blank(d) || !EndsBlankLine(d))
  {
    if !Blank(c) && EndsBlankLine(c) {
      DroppedLast(c);
      var r := DropLastBreaks(c);
      assert r + "\n" == c[0..|r| + 1];
      NoTripleInside(c, 0, |r| + 1);
      assert r != "" ==> (r + "\n")[|r| - 1] != '\n';
    }
  }

  lemma {:induction false} FirstBreaksAreTidy(d: string)
    requires !HasTriple(d) && (Blank(d) || !EndsBlankLine(d))
    ensures Tidy(DropFirstBreaks(d))
  {
    DroppedFirst(d);
    var r := DropFirstBreaks(d);
    NoTripleInside(d, |d| - |r|, |d|);
    assert r == d[|d| - |r|..|d|];
  }

  /** Collapsing always leaves a tidy text. */
  lemma CollapseIsTidy(s: string)
    ensures Tidy(Finished(Capped(s)))
  {
    CapIsCapping(s, 0);
    LastBreaksAreTidy(Capped(s));
    FirstBreaksAreTidy(LastBreaksCut(Capped(s)));
  }

  /** Collapsing leaves a text alone exactly when it is tidy; so collapsing twice is collapsing once. */
  lemma TidyIsFixed(s: string)
    ensures Finished(Capped(s)) == s <==> Tidy(s)
    ensures Finished(Capped(Finished(Capped(s)))) == Finished(Capped(s))
  {
    CollapseIsTidy(s);
    var once := Finished(Capped(s));
    CappingIsKept(once, 0);
    if Tidy(s) {
      CappingIsKept(s, 0);
    }
  }

  /** Nothing but line breaks is ever cut. */
  function WithoutBreaks(s: string): string {
    if s == "" then "" else (if s[0] == '\n' then "" else [s[0]]) + WithoutBreaks(s[1..])
  }

  lemma {:induction false} CapKeepsCharacters(s: string, n: nat)
    ensures WithoutBreaks(CapFrom(s, n)) == WithoutBreaks(s)
  {
    if s != "" {
      var m := if s[0] != '\n' then 0 else if n < 2 then n + 1 else n;
      CapKeepsCharacters(s[1..], m);
      assert ([s[0]] + CapFrom(s[1..], m))[1..] == CapFrom(s[1..], m);
    }
  }

  // ---- Removing what was put in -------------------------------------------------------------------

  /** `remove_managed_block`. */
  function Removed(contents: string, ms: Markers): string {
    var start, end := Find(contents, ms.start), Find(contents, ms.end);
    if start.None? || end.None? || end.value < start.value || end.value + |ms.end| > |contents| then contents
    else Finished(Capped(contents[..start.value] + contents[end.value + |ms.end|..]))
  }

  lemma {:induction false} BreaksInFront(k: nat)
    requires k > 0
    ensures Breaks(k) == "\n" + Breaks(k - 1)
  {
    if k > 1 {
      BreaksInFront(k - 1);
    }
  }

  lemma {:induction false} CapBreaks(k: nat, n: nat)
    requires n <= 2
    ensures CapFrom(Breaks(k), n) == Breaks(if k < 2 - n then k else 2 - n)
  {
    if k > 0 {
      BreaksInFront(k);
      CapBreak(Breaks(k - 1), n);
      CapBreaks(k - 1, if n < 2 then n + 1 else n);
      if n < 2 {
        BreaksInFront(if k < 2 - n then k else 2 - n);
      }
    }
  }

  lemma {:induction false} CapSplits(a: string, c: char, b: string, n: nat)
    requires c != '\n'
    ensures CapFrom(a + [c] + b, n) == CapFrom(a + [c], n) + CapFrom(b, 0)
  {
    if a == "" {
      assert ([c] + b)[1..] == b && [c][1..] == "";
      assert a + [c] + b == [c] + b && a + [c] == [c];
    } else {
      assert (a + [c] + b)[1..] == a[1..] + [c] + b && (a + [c])[1..] == a[1..] + [c];
      CapSplits(a[1..], c, b, if a[0] != '\n' then 0 else if n < 2 then n + 1 else n);
    }
  }

  lemma {:induction false} CapOfRun(k: nat, b: string, n: nat)
    requires n <= 2 && (b == "" || b[0] != '\n')
    ensures CapFrom(Breaks(k) + b, n) == Breaks(if k < 2 - n then k else 2 - n) + CapFrom(b, 0)
  {
    if k == 0 {
      assert Breaks(0) + b == b;
    } else {
      BreaksInFront(k);
      assert Breaks(k) + b == "\n" + (Breaks(k - 1) + b);
      CapBreak(Breaks(k - 1) + b, n);
      CapOfRun(k - 1, b, if n < 2 then n + 1 else n);
      if n < 2 {
        BreaksInFront(if k < 2 - n then k else 2 - n);
      }
    }
  }

  /** A run of line breaks between other characters is kept when it is one or two long and cut to two when it is longer, and what
      stands before and after it is capped on its own. */
  lemma RunIsCutToTwo(a: string, c: char, k: nat, b: string, n: nat)
    requires c != '\n' && (b == "" || b[0] != '\n')
    ensures CapFrom(a + [c] + (Breaks(k) + b), n) == CapFrom(a + [c], n) + (Breaks(if k < 2 then k else 2) + CapFrom(b, 0))
  {
    CapSplits(a, c, Breaks(k) + b, n);
    CapOfRun(k, b, 0);
  }

  lemma {:induction false} CapAfterOne(c: char, n: nat, k: nat)
    requires c != '\n'
    ensures CapFrom([c] + Breaks(k), n) == [c] + Breaks(if k < 2 then k else 2)
  {
    assert ([c] + Breaks(k))[1..] == Breaks(k);
    CapBreaks(k, 0);
  }

  /** Only the breaks at the end of a text with no long run inside are cut. */
  lemma {:induction false} CapTail(s: string, n: nat, k: nat)
    requires s != "" && !EndsBreak(s) && Capping(s, n)
    ensures CapFrom(s + Breaks(k), n) == s + Breaks(if k < 2 then k else 2)
  {
    var m := if s[0] == '\n' then n + 1 else 0;
    if |s| == 1 {
      assert s == [s[0]];
      CapAfterOne(s[0], n, k);
    } else {
      assert (s + Breaks(k))[1..] == s[1..] + Breaks(k);
      TailCapping(s, n);
      CapTail(s[1..], m, k);
      assert s == [s[0]] + s[1..];
    }
  }

  lemma {:induction false} BreaksAre(k: nat)
    ensures |Breaks(k)| == k && forall i :: 0 <= i < k ==> Breaks(k)[i] == '\n'
  {
    if k > 0 {
      BreaksAre(k - 1);
    }
  }

  lemma FewBreaks()
    ensures Breaks(1) == "\n" && Breaks(2) == "\n\n" && Breaks(3) == "\n\n\n"
  {
    BreaksAre(1);
    BreaksAre(2);
    BreaksAre(3);
  }

  lemma {:induction false} BlankTail(s: string, k: nat)
    ensures Blank(s + Breaks(k)) <==> Blank(s)
  {
    BreaksAre(k);
    var longer := s + Breaks(k);
    assert forall i :: 0 <= i < |s| ==> longer[i] == s[i];
  }

  lemma {:induction false} DropBreaks(s: string, k: nat)
    requires !EndsBreak(s)
    ensures DropLastBreaks(s + Breaks(k)) == s
  {
    if k == 0 {
      assert s + Breaks(0) == s;
    } else {
      assert (s + Breaks(k))[..|s + Breaks(k)| - 1] == s + Breaks(k - 1);
      DropBreaks(s, k - 1);
    }
  }

  /** Collapsing a text whose last breaks are two or more. */
  lemma {:induction false} TailIsFinished(s: string, k: nat)
    requires s != "" && !EndsBreak(s) && s[0] != '\n' && !HasTriple(s) && k >= 2
    ensures Finished(Capped(s + Breaks(k))) == s + if Blank(s) then "\n\n" else "\n"
  {
    CapTail(s, 0, k);
    FewBreaks();
    BlankTail(s, 2);
    DropBreaks(s, 2);
  }

  /** A tidy text and the one or two breaks it may end with. */
  lemma {:induction false} BreakCount(contents: string)
    requires Tidy(contents) && contents != ""
    ensures var s := DropLastBreaks(contents);
            var k := |contents| - |s|;
            && 0 <= k <= 2 && contents == s + Breaks(k) && s != "" && !EndsBreak(s) && s[0] != '\n' && !HasTriple(s)
            && (Blank(s) <==> Blank(contents)) && (k >= 1 <==> EndsBreak(contents)) && (k >= 2 <==> EndsBlankLine(contents))
  {
    var s := DropLastBreaks(contents);
    DroppedLast(contents);
    var k := |contents| - |s|;
    BreaksAre(k);
    assert forall i :: |s| <= i < |contents| ==> contents[i] == '\n';
    assert s == contents[0..|s|];
    NoTripleInside(contents, 0, |s|);
    assert !TripleAt(contents, |s|);
  }

  lemma {:induction false} BreaksAdd(k: nat, extra: nat)
    ensures Breaks(k) + Breaks(extra) == Breaks(k + extra)
  {
    if extra > 0 {
      BreaksAdd(k, extra - 1);
      assert Breaks(k) + Breaks(extra) == Breaks(k) + Breaks(extra - 1) + "\n";
    }
  }

  /** The text and what is left around it once the block is gone: at least two breaks in all. */
  lemma EnoughBreaks(contents: string) returns (k: nat)
    requires Tidy(contents) && contents != ""
    ensures k >= 2 && contents + Separator(contents) + "\n" == DropLastBreaks(contents) + Breaks(k)
  {
    var s := DropLastBreaks(contents);
    BreakCount(contents);
    var extra := if EndsBreak(contents) then 2 else 3;
    FewBreaks();
    assert Separator(contents) + "\n" == Breaks(extra);
    k := |contents| - |s| + extra;
    BreaksAdd(|contents| - |s|, extra);
  }

  /** What removing a freshly added block leaves of a tidy text: its own lines, ended by one break, or two when all blank. */
  lemma {:induction false} RemoveLeaves(contents: string)
    requires Tidy(contents) && contents != ""
    ensures Finished(Capped(contents + Separator(contents) + "\n"))
            == DropLastBreaks(contents) + if Blank(contents) then "\n\n" else "\n"
  {
    var k := EnoughBreaks(contents);
    BreakCount(contents);
    TailIsFinished(DropLastBreaks(contents), k);
  }

  /** Which texts come back when a block is put in and taken out again. */
  predicate Restorable(contents: string) {
    Tidy(contents) && (contents == "" || (EndsBreak(contents) && (!Blank(contents) || EndsBlankLine(contents))))
  }

  lemma {:induction false} LeavesItself(contents: string)
    requires Tidy(contents) && contents != ""
    ensures contents == DropLastBreaks(contents) + (if Blank(contents) then "\n\n" else "\n") <==> Restorable(contents)
  {
    BreakCount(contents);
    FewBreaks();
    var s := DropLastBreaks(contents);
    assert |contents| - |s| == 0 ==> contents == s;
  }

  lemma CollapseRestores(contents: string)
    ensures Finished(Capped(contents + Separator(contents) + "\n")) == contents <==> Restorable(contents)
  {
    var left := contents + Separator(contents) + "\n";
    if !Tidy(contents) {
      CollapseIsTidy(left);
    } else if contents == "" {
      assert left == "\n" && Capped("\n") == "\n" && LastBreaksCut("\n") == "\n";
    } else {
      RemoveLeaves(contents);
      LeavesItself(contents);
    }
  }

  /** With a marker-free guide, removing after upserting restores a marker-free text exactly when the text is tidy and
      empty, or tidy and ended by a line break, which after blank lines only must be a second one. */
  lemma RemoveUndoesUpsert(contents: string, guide: string, ms: Markers)
    requires MarkerFree(contents, ms) && MarkerFree(guide, ms) && Distinguishable(ms)
    ensures Removed(Upserted(contents, FormatBlock(guide, ms), ms), ms) == contents <==> Restorable(contents)
  {
    var before := contents + Separator(contents);
    AppendIsFramed(contents, guide, ms);
    SeparatorIsFree(contents, ms.start);
    SeparatorIsFree(contents, ms.end);
    BlockIsFound(before, guide, "\n", ms);
    var text := Framed(before, guide, "\n", ms);
    assert text[..|before|] == before && text[|before| + |Head(guide, ms)| + |ms.end|..] == "\n";
    CollapseRestores(contents);
  }
}
