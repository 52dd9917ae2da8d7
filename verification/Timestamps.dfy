/** UTC instants and their ISO 8601 text, as Python's `datetime.isoformat()` writes it.
    The run tables store and compare that text, never the instants. */
module Timestamps {
  import opened Text

  datatype Fields = Fields(year: nat, month: nat, day: nat, hour: nat, minute: nat, second: nat, microsecond: nat)

  predicate InRange(f: Fields) {
    && 1 <= f.year <= 9999 && 1 <= f.month <= 12 && 1 <= f.day <= 31
    && f.hour < 24 && f.minute < 60 && f.second < 60 && f.microsecond < 1000000
  }

  type Instant = f: Fields | InRange(f) witness Fields(1970, 1, 1, 0, 0, 0, 0)

  /** Chronological order. */
  predicate Before(a: Instant, b: Instant) {
    a.year < b.year || (a.year == b.year && (
    a.month < b.month || (a.month == b.month && (
    a.day < b.day || (a.day == b.day && (
    a.hour < b.hour || (a.hour == b.hour && (
    a.minute < b.minute || (a.minute == b.minute && (
    a.second < b.second || (a.second == b.second &&
    a.microsecond < b.microsecond)))))))))))
  }

  /** A fixed-width field, its separator, and what follows. */
  function Field(width: nat, n: nat, separator: char, rest: string): string {
    Decimal(width, n) + ([separator] + rest)
  }

  /** The fraction is dropped when it is zero; the offset is always written. */
  function Tail(microsecond: nat): string {
    if microsecond == 0 then "+00:00" else "." + (Decimal(6, microsecond) + "+00:00")
  }

  function Iso(i: Instant): string {
    Field(4, i.year, '-', Field(2, i.month, '-', Field(2, i.day, 'T',
    Field(2, i.hour, ':', Field(2, i.minute, ':', Decimal(2, i.second) + Tail(i.microsecond))))))
  }

  lemma {:induction false} FieldOrder(width: nat, a: nat, b: nat, separator: char, x: string, y: string)
    requires a < Pow10(width) && b < Pow10(width)
    ensures Less(Field(width, a, separator, x), Field(width, b, separator, y)) <==> a < b || (a == b && Less(x, y))
  {
    DecimalOrder(width, a, b);
    LessAppend(Decimal(width, a), [separator] + x, Decimal(width, b), [separator] + y);
    LessAppend([separator], x, [separator], y);
    LessIrreflexive([separator]);
  }

  /** '+' sorts before '.', so an absent fraction sorts before every present one. */
  lemma TailOrder(a: nat, b: nat)
    requires a < 1000000 && b < 1000000
    ensures Less(Tail(a), Tail(b)) <==> a < b
  {
    assert Pow10(6) == 1000000;
    if a == 0 && b == 0 {
      LessIrreflexive(Tail(0));
    } else if a > 0 && b > 0 {
      LessAppend(".", Decimal(6, a) + "+00:00", ".", Decimal(6, b) + "+00:00");
      LessIrreflexive(".");
      LessAppend(Decimal(6, a), "+00:00", Decimal(6, b), "+00:00");
      LessIrreflexive("+00:00");
      DecimalOrder(6, a, b);
    } else {
      assert Tail(a)[0] == (if a == 0 then '+' else '.');
      assert Tail(b)[0] == (if b == 0 then '+' else '.');
    }
  }

  /** Byte order of the stored text is time order, although texts differ in length. */
  lemma TextOrderIsTimeOrder(a: Instant, b: Instant)
    ensures Less(Iso(a), Iso(b)) <==> Before(a, b)
    ensures Iso(a) == Iso(b) <==> a == b
  {
    TextOrder(a, b);
    TextOrder(b, a);
    LessTotal(Iso(a), Iso(b));
    LessIrreflexive(Iso(a));
  }

  lemma TextOrder(a: Instant, b: Instant)
    ensures Less(Iso(a), Iso(b)) <==> Before(a, b)
  {
    assert Pow10(2) == 100 && Pow10(4) == 10000;
    var sa, sb := Decimal(2, a.second) + Tail(a.microsecond), Decimal(2, b.second) + Tail(b.microsecond);
    DecimalOrder(2, a.second, b.second);
    LessAppend(Decimal(2, a.second), Tail(a.microsecond), Decimal(2, b.second), Tail(b.microsecond));
    TailOrder(a.microsecond, b.microsecond);
    var ma, mb := Field(2, a.minute, ':', sa), Field(2, b.minute, ':', sb);
    FieldOrder(2, a.minute, b.minute, ':', sa, sb);
    var ha, hb := Field(2, a.hour, ':', ma), Field(2, b.hour, ':', mb);
    FieldOrder(2, a.hour, b.hour, ':', ma, mb);
    var da, db := Field(2, a.day, 'T', ha), Field(2, b.day, 'T', hb);
    FieldOrder(2, a.day, b.day, 'T', ha, hb);
    var oa, ob := Field(2, a.month, '-', da), Field(2, b.month, '-', db);
    FieldOrder(2, a.month, b.month, '-', da, db);
    FieldOrder(4, a.year, b.year, '-', oa, ob);
  }
}
