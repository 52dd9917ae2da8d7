/** JSON strings (RFC 8259, section 7): how `JSON.stringify` writes one and `JSON.parse` reads one back. */
module JsonStrings {
  import opened Outcomes

  const HEX := "0123456789abcdef"

  function HexValue(c: char): Option<nat> {
    if '0' <= c <= '9' then Some((c - '0') as nat)
    else if 'a' <= c <= 'f' then Some((c - 'a') as nat + 10)
    else if 'A' <= c <= 'F' then Some((c - 'A') as nat + 10)
    else None
  }

  lemma {:induction false} HexReadsBack(n: nat)
    requires n < 16
    ensures HexValue(HEX[n]) == Some(n)
  {
    assert n < 10 ==> HEX[n] == '0' + n as char;
    assert n >= 10 ==> HEX[n] == 'a' + (n - 10) as char;
  }

  /** The letter after the backslash, for characters that have one. */
  function Letter(c: char): Option<char> {
    if c == '\"' || c == '\\' then Some(c)
    else if c == '\U{08}' then Some('b')
    else if c == '\U{0c}' then Some('f')
    else if c == '\n' then Some('n')
    else if c == '\r' then Some('r')
    else if c == '\t' then Some('t')
    else None
  }

  function Meant(letter: char): Option<char> {
    match letter
    case '\"' => Some('\"')
    case '\\' => Some('\\')
    case '/' => Some('/')
    case 'b' => Some('\U{08}')
    case 'f' => Some('\U{0c}')
    case 'n' => Some('\n')
    case 'r' => Some('\r')
    case 't' => Some('\t')
    case _ => None
  }

  function EscapeChar(c: char): string {
    if Letter(c).Some? then ['\\', Letter(c).value]
    else if c < ' ' then ['\\', 'u', '0', '0', HEX[c as nat / 16], HEX[c as nat % 16]]
    else [c]
  }

  function EscapeAll(s: string): string {
    if s == "" then "" else EscapeChar(s[0]) + EscapeAll(s[1..])
  }

  function JsonString(s: string): string {
    ['\"'] + EscapeAll(s) + ['\"']
  }

  /** The character of four hexadecimal digits; half a surrogate pair is none. */
  function FourDigits(s: string): Option<char>
    requires |s| == 4
  {
    var a, b, c, d := HexValue(s[0]), HexValue(s[1]), HexValue(s[2]), HexValue(s[3]);
    if a.None? || b.None? || c.None? || d.None? then None
    else
      var code := CodeOf(a.value, b.value, c.value, d.value);
      if code < 0xD800 || 0xE000 <= code < 0x10000 then Some(code as char) else None
  }

  function CodeOf(a: nat, b: nat, c: nat, d: nat): nat {
    4096 * a + 256 * b + 16 * c + d
  }

  function Before(c: char, rest: Option<string>): Option<string> {
    if rest.Some? then Some([c] + rest.value) else None
  }

  /** What follows an opening quote: characters up to the closing one, which ends the text. */
  function Contents(s: string): Option<string>
    decreases |s|
  {
    if s == "" || s[0] < ' ' then None
    else if s[0] == '\"' then if |s| == 1 then Some("") else None
    else if s[0] != '\\' then Before(s[0], Contents(s[1..]))
    else if |s| == 1 then None
    else if s[1] == 'u' then
      if |s| < 6 || FourDigits(s[2..6]).None? then None else Before(FourDigits(s[2..6]).value, Contents(s[6..]))
    else if Meant(s[1]).None? then None
    else Before(Meant(s[1]).value, Contents(s[2..]))
  }

  lemma {:induction false} ControlReadsBack(c: char)
    requires c < ' '
    ensures FourDigits(['0', '0', HEX[c as nat / 16], HEX[c as nat % 16]]) == Some(c)
  {
    HexReadsBack(c as nat / 16);
    HexReadsBack(c as nat % 16);
    assert CodeOf(0, 0, c as nat / 16, c as nat % 16) == c as nat;
  }

  lemma {:induction false} CharReadsBack(c: char, rest: string)
    ensures Contents(EscapeChar(c) + rest) == Before(c, Contents(rest))
  {
    var s := EscapeChar(c) + rest;
    assert s[|EscapeChar(c)|..] == rest;
    if Letter(c).Some? {
      assert s[1] == Letter(c).value && Meant(s[1]) == Some(c);
    } else if c < ' ' {
      ControlReadsBack(c);
      assert s[2..6] == ['0', '0', HEX[c as nat / 16], HEX[c as nat % 16]];
    }
  }

  /** Reading what was written gives every text back, quotes, backslashes and control characters included. */
  lemma {:induction false} ReadsBack(s: string)
    ensures Contents(EscapeAll(s) + ['\"']) == Some(s)
  {
    if s != "" {
      ReadsBack(s[1..]);
      CharReadsBack(s[0], EscapeAll(s[1..]) + ['\"']);
      assert EscapeAll(s) + ['\"'] == EscapeChar(s[0]) + (EscapeAll(s[1..]) + ['\"']);
      assert s == [s[0]] + s[1..];
    }
  }

  /** A written text has no control character, so it stays on its line. */
  lemma {:induction false} StaysOnLine(s: string)
    ensures forall i :: 0 <= i < |EscapeAll(s)| ==> EscapeAll(s)[i] >= ' '
  {
    if s != "" {
      StaysOnLine(s[1..]);
    }
  }
}
