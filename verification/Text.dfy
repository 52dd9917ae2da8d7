/** Strings under the binary order that SQLite and Python use for plain text,
    and the fixed-width decimals that timestamps are made of. */
module Text {

  /** Binary order: compare the first differing character, a proper prefix first. */
  predicate Less(a: string, b: string) {
    |b| > 0 && (|a| == 0 || a[0] < b[0] || (a[0] == b[0] && Less(a[1..], b[1..])))
  }

  lemma {:induction false} LessIrreflexive(a: string)
    ensures !Less(a, a)
  {
    if |a| > 0 {
      LessIrreflexive(a[1..]);
    }
  }

  lemma {:induction false} LessTransitive(a: string, b: string, c: string)
    requires Less(a, b) && Less(b, c)
    ensures Less(a, c)
  {
    if |a| > 0 && a[0] == b[0] && b[0] == c[0] {
      LessTransitive(a[1..], b[1..], c[1..]);
    }
  }

  lemma {:induction false} LessTotal(a: string, b: string)
    ensures a == b || Less(a, b) || Less(b, a)
  {
    if |a| > 0 && |b| > 0 && a[0] == b[0] {
      LessTotal(a[1..], b[1..]);
      assert a == [a[0]] + a[1..] && b == [b[0]] + b[1..];
    }
  }

  lemma {:induction false} LessAsymmetric(a: string, b: string)
    requires Less(a, b)
    ensures !Less(b, a)
  {
    if Less(b, a) {
      LessTransitive(a, b, a);
      LessIrreflexive(a);
    }
  }

  /** Heads of equal length decide first; equal heads leave it to the tails. */
  lemma {:induction false} LessAppend(p: string, x: string, q: string, y: string)
    requires |p| == |q|
    ensures Less(p + x, q + y) <==> Less(p, q) || (p == q && Less(x, y))
  {
    if |p| == 0 {
      assert p + x == x && q + y == y;
    } else {
      assert (p + x)[1..] == p[1..] + x && (q + y)[1..] == q[1..] + y;
      LessAppend(p[1..], x, q[1..], y);
      assert p == [p[0]] + p[1..] && q == [q[0]] + q[1..];
    }
  }

  function Pow10(n: nat): (r: nat)
    ensures r > 0
  {
    if n == 0 then 1 else 10 * Pow10(n - 1)
  }

  const DIGITS := "0123456789"

  /** `n` as exactly `width` decimal digits, zero padded. */
  function Decimal(width: nat, n: nat): (s: string)
    ensures |s| == width
  {
    if width == 0 then "" else Decimal(width - 1, n / 10) + [DIGITS[n % 10]]
  }

  lemma {:induction false} DecimalOrder(width: nat, a: nat, b: nat)
    requires a < Pow10(width) && b < Pow10(width)
    ensures Less(Decimal(width, a), Decimal(width, b)) <==> a < b
    ensures Decimal(width, a) == Decimal(width, b) <==> a == b
  {
    if width > 0 {
      var p, q := Decimal(width - 1, a / 10), Decimal(width - 1, b / 10);
      var x, y := [DIGITS[a % 10]], [DIGITS[b % 10]];
      DecimalOrder(width - 1, a / 10, b / 10);
      LessAppend(p, x, q, y);
      assert (p + x)[..width - 1] == p && (q + y)[..width - 1] == q;
      assert (p + x)[width - 1] == x[0] && (q + y)[width - 1] == y[0];
      assert Less(x, y) <==> a % 10 < b % 10;
      assert x == y <==> a % 10 == b % 10;
    }
  }

  /** The characters `str.strip` removes. */
  predicate Space(c: char) {
    '\t' <= c <= '\r' || '\U{1c}' <= c <= ' ' || c == '\U{85}' || c == '\U{a0}' || WideSpace(c)
  }

  predicate WideSpace(c: char) {
    c == '\U{1680}' || '\U{2000}' <= c <= '\U{200a}' || '\U{2028}' <= c <= '\U{2029}' || c == '\U{202f}' || c == '\U{205f}' || c == '\U{3000}'
  }

  predicate Blank(s: string) {
    forall i :: 0 <= i < |s| ==> Space(s[i])
  }

  function LStrip(s: string): string
  {
    if s != "" && Space(s[0]) then LStrip(s[1..]) else s
  }

  function RStrip(s: string): string
  {
    if s != "" && Space(s[|s| - 1]) then RStrip(s[..|s| - 1]) else s
  }

  function Strip(s: string): string {
    RStrip(LStrip(s))
  }

  lemma {:induction false} LStripFacts(s: string)
    ensures var r := LStrip(s); |r| <= |s| && r == s[|s| - |r|..] && Blank(s[..|s| - |r|]) && (r != "" ==> !Space(r[0]))
  {
    if s != "" && Space(s[0]) {
      LStripFacts(s[1..]);
      var r := LStrip(s);
      assert s[..|s| - |r|] == [s[0]] + s[1..][..|s| - 1 - |r|];
    }
  }

  lemma {:induction false} RStripFacts(s: string)
    ensures var r := RStrip(s); r <= s && Blank(s[|r|..]) && (r != "" ==> !Space(r[|r| - 1]))
  {
    if s != "" && Space(s[|s| - 1]) {
      RStripFacts(s[..|s| - 1]);
      var r := RStrip(s);
      assert s[|r|..] == s[..|s| - 1][|r|..] + [s[|s| - 1]];
    }
  }

  /** What `required_text` lets into a model: no blank text, nothing to strip. */
  predicate Trimmed(s: string) {
    s != "" && !Space(s[0]) && !Space(s[|s| - 1])
  }

  lemma StripKeeps(s: string)
    requires Trimmed(s)
    ensures Strip(s) == s
  {
  }

  lemma {:induction false} BlankStrips(s: string)
    requires Blank(s)
    ensures LStrip(s) == ""
  {
    if s != "" {
      assert Space(s[0]);
      BlankStrips(s[1..]);
    }
  }

  lemma StripTrims(s: string)
    ensures if Blank(s) then Strip(s) == "" else Trimmed(Strip(s))
  {
    var left := LStrip(s);
    LStripFacts(s);
    RStripFacts(left);
    assert s[..|s|] == s && left[0..] == left;
    if Blank(s) {
      BlankStrips(s);
    } else {
      assert left != "" && left[0..][0] == left[0];
    }
  }

  lemma TrimmedIsNotBlank(s: string)
    requires Trimmed(s)
    ensures !Blank(s)
  {
    assert !Space(s[0]);
  }

  lemma {:induction false} LStripSkips(a: string, x: string)
    requires Blank(a) && x != "" && !Space(x[0])
    ensures LStrip(a + x) == x
  {
    if a == "" {
      assert a + x == x;
    } else {
      assert Space(a[0]) && (a + x)[1..] == a[1..] + x;
      LStripSkips(a[1..], x);
    }
  }

  /** Stripping the end stops at the last character that is no space. */
  lemma {:induction false} RStripStops(x: string, b: string)
    requires Blank(b) && (x == "" || !Space(x[|x| - 1]))
    ensures RStrip(x + b) == x
  {
    if b == "" {
      assert x + b == x;
    } else {
      assert Space(b[|b| - 1]) && (x + b)[..|x + b| - 1] == x + b[..|b| - 1];
      RStripStops(x, b[..|b| - 1]);
    }
  }

  /** Blank text at the end changes nothing that is stripped. */
  lemma {:induction false} RStripForgets(x: string, b: string)
    requires Blank(b)
    ensures RStrip(x + b) == RStrip(x)
  {
    RStripFacts(x);
    var kept := RStrip(x);
    assert x + b == kept + (x[|kept|..] + b);
    RStripStops(kept, x[|kept|..] + b);
  }

  /** Stripping the end of a text whose last part is not blank strips that part. */
  lemma {:induction false} RStripLastPart(x: string, y: string)
    requires !Blank(y)
    ensures RStrip(x + y) == x + RStrip(y)
  {
    RStripFacts(y);
    var kept := RStrip(y);
    assert y[0..] == y;
    assert x + y == (x + kept) + y[|kept|..];
    RStripStops(x + kept, y[|kept|..]);
  }

  lemma {:induction false} StripIgnoresEnd(s: string)
    ensures Strip(RStrip(s)) == Strip(s) && (Blank(RStrip(s)) <==> Blank(s))
  {
    RStripFacts(s);
    var kept := RStrip(s);
    var tail := s[|kept|..];
    assert s == kept + tail;
    LStripFacts(kept);
    var core := LStrip(kept);
    var front := kept[..|kept| - |core|];
    assert kept == front + core;
    if core == "" {
      assert kept == front;
      BlankStrips(s);
      BlankStrips(kept);
    } else {
      assert s == front + (core + tail);
      LStripSkips(front, core + tail);
      LStripSkips(front, core);
      RStripStops(core, tail);
      RStripStops(core, "");
      assert core + "" == core;
    }
  }
}
