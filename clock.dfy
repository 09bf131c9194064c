/**
 * The clock readings the handlers format (`DateTime.UtcNow`). A reading is a
 * parameter of every operation that needs one; a month's day count is not checked.
 */
module Clock {
  import opened Text

  datatype DateTime = DateTime(year: int, month: int, day: int, hour: int, minute: int, second: int) {
    predicate Valid() {
      && 1 <= year <= 9999 && 1 <= month <= 12 && 1 <= day <= 31
      && 0 <= hour < 24 && 0 <= minute < 60 && 0 <= second < 60
    }
  }

  type Instant = t: DateTime | t.Valid() witness DateTime(1, 1, 1, 0, 0, 0)

  /** Two decimal digits, zero-padded (`dd`, `MM`, `HH`, `mm`, `ss`). */
  function Pad2(n: nat): (r: string)
    requires n < 100
    ensures |r| == 2 && AllDigits(r) && DigitsValue(r) == n
  {
    NatToStringLength(n, 2);
    PadLeft(n, 2)
  }

  /** The characters a formatted date or timestamp is made of. */
  predicate IsStampChar(c: char) {
    IsDigit(c) || c == '/' || c == ' ' || c == ':'
  }

  predicate AllStampChars(s: string) {
    forall i :: 0 <= i < |s| ==> IsStampChar(s[i])
  }

  lemma StampCharsConcat(a: string, b: string)
    requires AllStampChars(a) && AllStampChars(b)
    ensures AllStampChars(a + b)
  {
    assert forall i :: |a| <= i < |a + b| ==> (a + b)[i] == b[i - |a|];
  }

  /**
   * One element of the custom date and time formats used here: a
   * zero-padded field, or one of the literal separators '/', ':' and ' '.
   */
  datatype Token = Day | Month | Year | Hour | Minute | Second | Slash | Colon | Space {
    predicate IsSeparator() {
      Slash? || Colon? || Space?
    }
  }

  /** `dd/MM/yyyy`, with '/' as the date separator (invariant or en-GB culture). */
  const DATE_PATTERN: seq<Token> := [Day, Slash, Month, Slash, Year]

  /** `HH:mm:ss`. */
  const TIME_PATTERN: seq<Token> := [Hour, Colon, Minute, Colon, Second]

  /** `dd/MM/yyyy HH:mm:ss`. */
  const TIMESTAMP_PATTERN: seq<Token> := DATE_PATTERN + [Space] + TIME_PATTERN

  /** The character a separator token shows. */
  function SeparatorChar(k: Token): char
    requires k.IsSeparator()
  {
    match k
    case Slash => '/'
    case Colon => ':'
    case Space => ' '
  }

  /** The value a field token shows. */
  function FieldValue(t: Instant, k: Token): nat
    requires !k.IsSeparator()
  {
    match k
    case Day => t.day
    case Month => t.month
    case Year => t.year
    case Hour => t.hour
    case Minute => t.minute
    case Second => t.second
  }

  /** How many digits a field token shows. */
  function Width(k: Token): nat
    requires !k.IsSeparator()
  {
    if k == Year then 4 else 2
  }

  /** Every field of a valid reading fits its width. */
  lemma FieldFits(t: Instant, k: Token)
    requires !k.IsSeparator()
    ensures |NatToString(FieldValue(t, k))| <= Width(k)
  {
    assert Pow10(2) == 100;
    assert Pow10(4) == 10000 by {
      assert Pow10(3) == 1000;
    }
    NatToStringLength(FieldValue(t, k), Width(k));
  }

  /** The text of one token: `yyyy` is four digits, the other fields two, zero-padded. */
  function TokenText(t: Instant, k: Token): (r: string)
    ensures k.IsSeparator() ==> r == [SeparatorChar(k)]
    ensures !k.IsSeparator() ==> |r| == Width(k) && AllDigits(r) && DigitsValue(r) == FieldValue(t, k)
    ensures AllStampChars(r)
  {
    if k.IsSeparator() then [SeparatorChar(k)]
    else
      FieldFits(t, k);
      PadLeft(FieldValue(t, k), Width(k))
  }

  /** `t.ToString(pattern)`: the texts of the pattern's tokens, in order. */
  function Format(t: Instant, pattern: seq<Token>): string
    decreases |pattern|
  {
    if pattern == [] then "" else TokenText(t, pattern[0]) + Format(t, pattern[1..])
  }

  /** The pattern from token `i` on formats to token `i`'s text, then the rest. */
  lemma FormatStep(t: Instant, p: seq<Token>, i: nat)
    requires i < |p|
    ensures Format(t, p[i..]) == TokenText(t, p[i]) + Format(t, p[i + 1..])
  {
    assert p[i..][1..] == p[i + 1..];
  }

  /** Formatting a pattern of five tokens concatenates their five texts. */
  lemma FormatFive(t: Instant, p: seq<Token>)
    requires |p| == 5
    ensures Format(t, p) == TokenText(t, p[0]) + (TokenText(t, p[1]) + (TokenText(t, p[2]) + (TokenText(t, p[3]) + TokenText(t, p[4]))))
  {
    var t0, t1, t2, t3, t4 := TokenText(t, p[0]), TokenText(t, p[1]), TokenText(t, p[2]), TokenText(t, p[3]), TokenText(t, p[4]);
    calc {
      Format(t, p);
    == { assert p[0..] == p; FormatStep(t, p, 0); }
      t0 + Format(t, p[1..]);
    == { FormatStep(t, p, 1); }
      t0 + (t1 + Format(t, p[2..]));
    == { FormatStep(t, p, 2); }
      t0 + (t1 + (t2 + Format(t, p[3..])));
    == { FormatStep(t, p, 3); }
      t0 + (t1 + (t2 + (t3 + Format(t, p[4..]))));
    == { FormatStep(t, p, 4); assert p[5..] == []; assert t4 + "" == t4; }
      t0 + (t1 + (t2 + (t3 + t4)));
    }
  }

  /** Formatting distributes over joining patterns. */
  lemma {:induction false} FormatAppend(t: Instant, p: seq<Token>, q: seq<Token>)
    ensures Format(t, p + q) == Format(t, p) + Format(t, q)
    decreases |p|
  {
    if p == [] {
      assert p + q == q;
    } else {
      assert (p + q)[0] == p[0];
      assert (p + q)[1..] == p[1..] + q;
      FormatAppend(t, p[1..], q);
    }
  }

  /** Every pattern formats to digits and separators only. */
  lemma {:induction false} FormatStampChars(t: Instant, p: seq<Token>)
    ensures AllStampChars(Format(t, p))
    decreases |p|
  {
    if p != [] {
      FormatStampChars(t, p[1..]);
      StampCharsConcat(TokenText(t, p[0]), Format(t, p[1..]));
    }
  }

  /** The pieces of `a + (b + (c + (d + e)))` around the one-character separators `b` and `d`. */
  lemma SplitFive(a: string, b: string, c: string, d: string, e: string)
    requires |b| == 1 && |d| == 1
    ensures
      var r := a + (b + (c + (d + e)));
      && |r| == |a| + |c| + |e| + 2
      && r[..|a|] == a && r[|a|] == b[0]
      && r[|a| + 1..|a| + 1 + |c|] == c && r[|a| + 1 + |c|] == d[0]
      && r[|a| + 2 + |c|..] == e
  {
    var r := a + (b + (c + (d + e)));
    assert r[|a|..] == b + (c + (d + e));
    assert r[|a| + 1..] == c + (d + e);
    assert r[|a| + 1 + |c|..] == d + e;
  }

  /**
   * A pattern of three fields joined by two separators formats to the three
   * field texts at their widths, with the separator characters between them.
   */
  lemma FormatFields(t: Instant, p: seq<Token>)
    requires |p| == 5 && p[1].IsSeparator() && p[3].IsSeparator()
    requires !p[0].IsSeparator() && !p[2].IsSeparator() && !p[4].IsSeparator()
    ensures
      var r, w0, w2 := Format(t, p), Width(p[0]), Width(p[2]);
      && |r| == w0 + w2 + Width(p[4]) + 2
      && r[w0] == SeparatorChar(p[1]) && r[w0 + 1 + w2] == SeparatorChar(p[3])
      && r[..w0] == TokenText(t, p[0]) && r[w0 + 1..w0 + 1 + w2] == TokenText(t, p[2])
      && r[w0 + 2 + w2..] == TokenText(t, p[4])
  {
    FormatFive(t, p);
    SplitFive(TokenText(t, p[0]), TokenText(t, p[1]), TokenText(t, p[2]), TokenText(t, p[3]), TokenText(t, p[4]));
  }

  /** `ToString("dd/MM/yyyy")`. */
  function FormatDate(t: Instant): (r: string)
    ensures |r| == 10 && r[2] == '/' && r[5] == '/'
    ensures AllDigits(r[..2]) && AllDigits(r[3..5]) && AllDigits(r[6..])
    ensures DigitsValue(r[..2]) == t.day && DigitsValue(r[3..5]) == t.month && DigitsValue(r[6..]) == t.year
  {
    assert DATE_PATTERN[0] == Day && DATE_PATTERN[1] == Slash && DATE_PATTERN[2] == Month;
    assert DATE_PATTERN[3] == Slash && DATE_PATTERN[4] == Year;
    FormatFields(t, DATE_PATTERN);
    Format(t, DATE_PATTERN)
  }

  /** `ToString("HH:mm:ss")`. */
  function FormatTime(t: Instant): (r: string)
    ensures |r| == 8 && r[2] == ':' && r[5] == ':'
    ensures AllDigits(r[..2]) && AllDigits(r[3..5]) && AllDigits(r[6..])
    ensures DigitsValue(r[..2]) == t.hour && DigitsValue(r[3..5]) == t.minute && DigitsValue(r[6..]) == t.second
  {
    assert TIME_PATTERN[0] == Hour && TIME_PATTERN[1] == Colon && TIME_PATTERN[2] == Minute;
    assert TIME_PATTERN[3] == Colon && TIME_PATTERN[4] == Second;
    FormatFields(t, TIME_PATTERN);
    Format(t, TIME_PATTERN)
  }

  /** The timestamp pattern formats to the date, a space, then the time of day. */
  lemma TimestampParts(t: Instant)
    ensures Format(t, TIMESTAMP_PATTERN) == FormatDate(t) + " " + FormatTime(t)
  {
    FormatAppend(t, DATE_PATTERN + [Space], TIME_PATTERN);
    FormatAppend(t, DATE_PATTERN, [Space]);
    assert Format(t, [Space]) == " " by {
      FormatStep(t, [Space], 0);
      assert [Space][1..] == [];
    }
  }

  /** `ToString("dd/MM/yyyy HH:mm:ss")`: nineteen characters, digits and separators only. */
  function FormatTimestamp(t: Instant): (r: string)
    ensures |r| == 19 && AllStampChars(r)
  {
    TimestampParts(t);
    FormatStampChars(t, TIMESTAMP_PATTERN);
    Format(t, TIMESTAMP_PATTERN)
  }

  /** A timestamp is the date, a space, then the time of day. */
  lemma TimestampLayout(t: Instant)
    ensures FormatTimestamp(t) == FormatDate(t) + " " + FormatTime(t)
  {
    TimestampParts(t);
  }

  /** A formatted date determines the calendar day it was formatted from. */
  lemma FormatDateInjective(a: Instant, b: Instant)
    requires FormatDate(a) == FormatDate(b)
    ensures a.day == b.day && a.month == b.month && a.year == b.year
  {
  }
}
