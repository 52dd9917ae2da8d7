/** The first place of a character, and lines joined by line feeds. */
module TextLines {

  function FirstIndex(s: string, c: char): (at: nat)
    ensures at <= |s|
  {
    if s == "" || s[0] == c then 0 else 1 + FirstIndex(s[1..], c)
  }

  function Join(texts: seq<string>): string {
    if texts == [] then "" else if |texts| == 1 then texts[0] else texts[0] + "\n" + Join(texts[1..])
  }

  lemma {:induction false} FirstIndexIs(s: string, c: char, rest: string)
    requires forall i :: 0 <= i < |s| ==> s[i] != c
    ensures FirstIndex(s + [c] + rest, c) == |s|
  {
    if s == "" {
      assert s + [c] + rest == [c] + rest;
    } else {
      assert (s + [c] + rest)[1..] == s[1..] + [c] + rest;
      FirstIndexIs(s[1..], c, rest);
    }
  }

  lemma {:induction false} FirstIndexFacts(s: string, c: char)
    ensures var at := FirstIndex(s, c); (at < |s| ==> s[at] == c) && forall i :: 0 <= i < at ==> s[i] != c
  {
    if s != "" && s[0] != c {
      FirstIndexFacts(s[1..], c);
      var at := FirstIndex(s[1..], c);
      forall i | 0 <= i < at + 1 ensures s[i] != c {
        assert i > 0 ==> s[i] == s[1..][i - 1];
      }
    }
  }

  lemma {:induction false} JoinLast(init: seq<string>, last: string)
    requires init != []
    ensures Join(init + [last]) == Join(init) + "\n" + last
  {
    var texts := init + [last];
    assert texts[1..] == init[1..] + [last];
    if |init| == 1 {
      assert texts[1..] == [last];
    } else {
      JoinLast(init[1..], last);
      assert init[0] + "\n" + (Join(init[1..]) + "\n" + last) == init[0] + "\n" + Join(init[1..]) + "\n" + last;
    }
  }
}
