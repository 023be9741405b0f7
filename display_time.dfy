/** The list pages' display of stored times, `formatDateTime`: a value that
  * parses under one of four layouts is shown as "YYYY-MM-DD HH:mm", any
  * other value is cut to its first 16 characters. The module also carries
  * the range facts about parsed fields that make the formatted widths
  * exact. */
module DisplayTime {
  import opened Wrappers
  import opened Text
  import opened Calendar
  import opened GoTime

  function Pow10(n: nat): (p: nat)
    ensures p >= 1
  {
    if n == 0 then 1 else 10 * Pow10(n - 1)
  }

  /** The clock fields a parse can produce, and a four-digit year. */
  predicate Bounded(f: Fields)
  {
    0 <= f.year < 10000 && 0 <= f.hour < 24 && 0 <= f.minute < 60 && 0 <= f.second < 60
  }

  /** A parsed date: bounded fields and a real day of a real month. */
  predicate Formattable(f: Fields)
  {
    Bounded(f) && 1 <= f.month <= 12 && 1 <= f.day <= 31
  }

  /** A run of `n` digits is below 10^n. */
  lemma {:induction false} DigitsBelow(t: string)
    requires AllDigits(t)
    ensures DigitsValue(t) < Pow10(|t|)
  {
    if |t| > 0 {
      DigitsBelow(t[..|t| - 1]);
    }
  }

  /** Every layout token keeps the fields bounded. */
  lemma ConsumeBounded(tok: Tok, fracNext: bool, s: string, f: Fields)
    requires Bounded(f)
    ensures Consume(tok, fracNext, s, f).Some? ==> Bounded(Consume(tok, fracNext, s, f).value.1)
  {
    if tok == Year4 && |s| >= 4 && AllDigits(s[..4]) {
      DigitsBelow(s[..4]);
    }
  }

  lemma {:induction false} ScanBounded(layout: seq<Tok>, s: string, f: Fields)
    requires Bounded(f)
    ensures Scan(layout, s, f).Some? ==> Bounded(Scan(layout, s, f).value)
    decreases |layout|
  {
    if |layout| > 0 {
      var c := Consume(layout[0], NextIsFraction(layout[1..]), s, f);
      ConsumeBounded(layout[0], NextIsFraction(layout[1..]), s, f);
      if c.Some? {
        ScanBounded(layout[1..], s[c.value.0..], c.value.1);
      }
    }
  }

  /** Whatever the layout, a parsed time can be formatted. */
  lemma ParseFormattable(layout: seq<Tok>, s: string)
    ensures Parse(layout, s).Some? ==> Formattable(Parse(layout, s).value)
  {
    ScanBounded(layout, s, Start);
  }

  lemma ParseFirstFormattable(layouts: seq<seq<Tok>>, s: string)
    ensures ParseFirst(layouts, s).Some? ==> Formattable(ParseFirst(layouts, s).value)
  {
    if ParseFirst(layouts, s).Some? {
      var i :| 0 <= i < |layouts| && Parse(layouts[i], s) == ParseFirst(layouts, s);
      ParseFormattable(layouts[i], s);
    }
  }

  /** The decimal rendering of a number below 10^w has at most w digits. */
  lemma {:induction false} NatToStringShort(n: nat, w: nat)
    requires w >= 1 && n < Pow10(w)
    ensures |NatToString(n)| <= w
    decreases n
  {
    if n >= 10 {
      assert w >= 2;
      NatToStringShort(n / 10, w - 1);
    }
  }

  /** Padding a number that fits gives exactly the width. */
  lemma PadExact(n: nat, w: nat)
    requires w >= 1 && n < Pow10(w)
    ensures |Pad(n, w)| == w
  {
    NatToStringShort(n, w);
  }

  /** "YYYY-MM-DD HH:mm": digits in every place but the separators. */
  predicate MinuteShape(r: string)
  {
    |r| == 16 && r[4] == '-' && r[7] == '-' && r[10] == ' ' && r[13] == ':'
    && AllDigits(r[..4]) && AllDigits(r[5..7]) && AllDigits(r[8..10])
    && AllDigits(r[11..13]) && AllDigits(r[14..16])
  }

  /** The formatted minute has the display shape, and its digit groups
    * read back as the fields. */
  lemma FormatMinuteShape(f: Fields)
    requires Formattable(f)
    ensures MinuteShape(FormatMinute(f))
    ensures var r := FormatMinute(f);
      DigitsValue(r[..4]) == f.year && DigitsValue(r[5..7]) == f.month && DigitsValue(r[8..10]) == f.day
      && DigitsValue(r[11..13]) == f.hour && DigitsValue(r[14..16]) == f.minute
  {
    var y, mo, d, h, mi := Pad(f.year, 4), Pad(f.month, 2), Pad(f.day, 2), Pad(f.hour, 2), Pad(f.minute, 2);
    PadExact(f.year, 4);
    PadExact(f.month, 2);
    PadExact(f.day, 2);
    PadExact(f.hour, 2);
    PadExact(f.minute, 2);
    MinutePieces(y, mo, d, h, mi);
  }

  /** The pieces of a text laid out as "YYYY-MM-DD HH:mm". */
  lemma MinutePieces(y: string, mo: string, d: string, h: string, mi: string)
    requires |y| == 4 && |mo| == 2 && |d| == 2 && |h| == 2 && |mi| == 2
    ensures var r := y + "-" + mo + "-" + d + " " + h + ":" + mi;
      |r| == 16 && r[4] == '-' && r[7] == '-' && r[10] == ' ' && r[13] == ':'
      && r[..4] == y && r[5..7] == mo && r[8..10] == d && r[11..13] == h && r[14..16] == mi
  {
    var date := y + "-" + mo + "-" + d;
    DatePieces(y, mo, d);
    var r := y + "-" + mo + "-" + d + " " + h + ":" + mi;
    assert r == date + (" " + h + ":" + mi);
    assert r[..10] == date;
    assert r[11..13] == h;
    assert r[14..16] == mi;
  }

  lemma DatePieces(y: string, mo: string, d: string)
    requires |y| == 4 && |mo| == 2 && |d| == 2
    ensures var r := y + "-" + mo + "-" + d;
      |r| == 10 && r[4] == '-' && r[7] == '-' && r[..4] == y && r[5..7] == mo && r[8..10] == d
  {
    var r := y + "-" + mo + "-" + d;
    assert r[..4] == y;
    assert r[5..7] == mo;
    assert r[8..10] == d;
  }

  /** The layouts tried, in order. */
  const Layouts: seq<seq<Tok>> := [L_RFC3339, L_ISO, L_DateTime, L_DateMinute]

  /** `formatDateTime`. */
  function FormatDateTime(s: string): (r: string)
    ensures s == "" ==> r == ""
    ensures |r| <= 16
    ensures |s| >= 16 ==> |r| == 16
    ensures |r| < 16 ==> r == s
    ensures ParseFirst(Layouts, s).Some? ==> MinuteShape(r)
    ensures ParseFirst(Layouts, s).None? ==> r == s[..if |s| >= 16 then 16 else |s|]
  {
    if s == "" then ""
    else
      match ParseFirst(Layouts, s)
      case Some(f) =>
        ParseFirstFormattable(Layouts, s);
        FormatMinuteShape(f);
        FormatMinute(f)
      case None =>
        if |s| >= 16 then s[..16] else s
  }

  /** A value that parses is shown as its own fields, to the minute. */
  lemma ParsedShowsFields(s: string)
    requires ParseFirst(Layouts, s).Some?
    ensures var f := ParseFirst(Layouts, s).value; var r := FormatDateTime(s);
      DigitsValue(r[..4]) == f.year && DigitsValue(r[5..7]) == f.month && DigitsValue(r[8..10]) == f.day
      && DigitsValue(r[11..13]) == f.hour && DigitsValue(r[14..16]) == f.minute
  {
    ParseFirstFormattable(Layouts, s);
    FormatMinuteShape(ParseFirst(Layouts, s).value);
  }

  /** `t.Format("2006-01-02 15:04:05")` of a parsed time is 19 runes. */
  lemma FormatSecondLength(f: Fields)
    requires Formattable(f)
    ensures |FormatSecond(f)| == 19
  {
    FormatMinuteShape(f);
    PadExact(f.second, 2);
  }
}
