/** Go's `time.Parse` and `Time.Format` for the numeric layouts the program
  * uses. A layout is a sequence of tokens; parsing consumes the value token by
  * token, checks the ranges Go checks, rejects trailing text and finally
  * validates the day of the month. The parsed wall-clock fields are kept as
  * written (Go keeps the wall clock of a time parsed with an offset). */
module GoTime {
  import opened Wrappers
  import opened Text
  import opened Calendar

  datatype Tok =
    | Year4            // "2006": exactly four digits
    | Month2 | Month1  // "01": two digits; "1": one or two digits
    | Day2 | Day1      // "02": two digits; "2": one or two digits
    | Hour             // "15": one or two digits, 0..23
    | Minute2          // "04": two digits, 0..59
    | Second2          // "05": two digits, 0..59, then an optional fraction
    | FracOpt          // ".999999999": an optional fraction of any length
    | FracExact(n: nat) // ".000000": separator and exactly n digits
    | Zone             // "Z07:00": "Z" or a sign, hh ":" mm
    | Lit(c: char)     // literal text; a space matches a run of spaces

  /** Wall-clock fields and the zone offset in seconds east of UTC. */
  datatype Fields = Fields(year: int, month: int, day: int, hour: int, minute: int, second: int, offset: int)

  /** Go's zero `time.Time`, 0001-01-01 00:00:00 UTC. */
  const ZeroTime: Fields := Fields(1, 1, 1, 0, 0, 0, 0)

  /** Defaults Go starts from: no month and no day yet. */
  const Start: Fields := Fields(0, -1, -1, 0, 0, 0, 0)

  predicate IsSep(c: char) { c == '.' || c == ',' }

  /** `getnum`: one digit, or two when a second digit follows; `fixed`
    * demands two. Returns the value and the number of runes consumed. */
  function GetNum(s: string, fixed: bool): (r: Option<(int, nat)>)
    ensures r.Some? ==> 1 <= r.value.1 <= 2 && r.value.1 <= |s| && AllDigits(s[..r.value.1])
    ensures r.Some? ==> r.value.0 == DigitsValue(s[..r.value.1])
    ensures r.Some? && fixed ==> r.value.1 == 2
    ensures r.Some? ==> r.value.1 == |s| || r.value.1 == 2 || !IsDigit(s[r.value.1])
  {
    if |s| == 0 || !IsDigit(s[0]) then None
    else if |s| == 1 || !IsDigit(s[1]) then
      (if fixed then None else Some((DigitValue(s[0]), 1)))
    else
      assert s[..2][..1] == s[..1] && s[..1][..0] == [];
      assert DigitsValue(s[..1]) == DigitValue(s[0]);
      Some((DigitValue(s[0]) * 10 + DigitValue(s[1]), 2))
  }

  /** Length of the run of digits at the start of `s`. */
  function DigitRun(s: string): (n: nat)
    ensures n <= |s|
    ensures forall i :: 0 <= i < n ==> IsDigit(s[i])
    ensures n == |s| || !IsDigit(s[n])
  {
    if |s| > 0 && IsDigit(s[0]) then
      var k := DigitRun(s[1..]);
      k + 1
    else 0
  }

  /** Runes consumed by an optional fraction: a separator followed by at least
    * one digit and then every further digit. */
  function OptionalFraction(s: string): (n: nat)
    ensures n <= |s|
    ensures n == 0 || n >= 2
  {
    if |s| >= 2 && IsSep(s[0]) && IsDigit(s[1]) then 1 + DigitRun(s[1..]) else 0
  }

  /** The digits of a fixed-width fraction as Go's `atoi` accepts them: an
    * optional sign and digits, a negative value being out of range. */
  predicate FractionDigitsOk(t: string)
  {
    if |t| > 0 && t[0] == '+' then AllDigits(t[1..])
    else if |t| > 0 && t[0] == '-' then AllDigits(t[1..]) && DigitsValue(t[1..]) == 0
    else AllDigits(t)
  }

  /** Whether the next non-literal token of the layout is a fraction. */
  predicate NextIsFraction(layout: seq<Tok>)
  {
    if |layout| == 0 then false
    else if layout[0].Lit? then NextIsFraction(layout[1..])
    else layout[0] == FracOpt || layout[0].FracExact?
  }

  function DropSpaces(s: string): (r: string)
    ensures |r| <= |s|
  {
    if |s| > 0 && s[0] == ' ' then DropSpaces(s[1..]) else s
  }

  /** One layout token applied to the start of the value: the number of runes
    * it consumes and the updated fields, or None on a mismatch or a range
    * error. `fracNext` tells a seconds field that the layout parses the
    * fraction itself. */
  function Consume(tok: Tok, fracNext: bool, s: string, f: Fields): (r: Option<(nat, Fields)>)
    ensures r.Some? ==> r.value.0 <= |s|
    ensures r.Some? && f.year >= 0 ==> r.value.1.year >= 0
  {
    match tok
    case Year4 =>
      if |s| >= 4 && AllDigits(s[..4]) then Some((4, f.(year := DigitsValue(s[..4])))) else None
    case Month2 => ConsumeMonth(s, f, true)
    case Month1 => ConsumeMonth(s, f, false)
    case Day2 => ConsumeDay(s, f, true)
    case Day1 => ConsumeDay(s, f, false)
    case Hour =>
      var g := GetNum(s, false);
      if g.Some? && g.value.0 < 24 then Some((g.value.1, f.(hour := g.value.0))) else None
    case Minute2 =>
      var g := GetNum(s, true);
      if g.Some? && g.value.0 < 60 then Some((g.value.1, f.(minute := g.value.0))) else None
    case Second2 =>
      var g := GetNum(s, true);
      if g.Some? && g.value.0 < 60 then
        var skip := if fracNext then 0 else OptionalFraction(s[g.value.1..]);
        Some((g.value.1 + skip, f.(second := g.value.0)))
      else None
    case FracOpt => Some((OptionalFraction(s), f))
    case FracExact(n) =>
      if |s| >= n + 1 && IsSep(s[0]) && FractionDigitsOk(s[1..n + 1]) then Some((n + 1, f)) else None
    case Zone => ConsumeZone(s, f)
    case Lit(c) =>
      if c == ' ' then
        (if |s| > 0 && s[0] != ' ' then None else Some((|s| - |DropSpaces(s)|, f)))
      else if |s| > 0 && s[0] == c then Some((1, f))
      else None
  }

  function ConsumeMonth(s: string, f: Fields, fixed: bool): (r: Option<(nat, Fields)>)
    ensures r.Some? ==> r.value.0 <= |s|
  {
    var g := GetNum(s, fixed);
    if g.Some? && 1 <= g.value.0 <= 12 then Some((g.value.1, f.(month := g.value.0))) else None
  }

  function ConsumeDay(s: string, f: Fields, fixed: bool): (r: Option<(nat, Fields)>)
    ensures r.Some? ==> r.value.0 <= |s|
  {
    var g := GetNum(s, fixed);
    if g.Some? then Some((g.value.1, f.(day := g.value.0))) else None
  }

  /** "Z07:00": "Z" for UTC, or a sign, two hour digits, ':' and two minute
    * digits; Go lets the hour reach 24 and the minute 60. */
  function ConsumeZone(s: string, f: Fields): (r: Option<(nat, Fields)>)
    ensures r.Some? ==> r.value.0 <= |s|
  {
    if |s| >= 1 && s[0] == 'Z' then Some((1, f.(offset := 0)))
    else if |s| >= 6 && s[3] == ':' && (s[0] == '+' || s[0] == '-')
         && AllDigits(s[1..3]) && AllDigits(s[4..6]) then
      var hh := DigitsValue(s[1..3]);
      var mm := DigitsValue(s[4..6]);
      if hh > 24 || mm > 60 then None
      else Some((6, f.(offset := (if s[0] == '-' then -1 else 1) * (hh * 60 + mm) * 60)))
    else None
  }

  /** Consume the value along the layout; text left over is an error. */
  function Scan(layout: seq<Tok>, s: string, f: Fields): (r: Option<Fields>)
    ensures r.Some? && f.year >= 0 ==> r.value.year >= 0
    decreases |layout|
  {
    if |layout| == 0 then (if |s| == 0 then Some(f) else None)
    else
      match Consume(layout[0], NextIsFraction(layout[1..]), s, f)
      case None => None
      case Some((n, g)) => Scan(layout[1..], s[n..], g)
  }

  /** `time.Parse(layout, s)`: a missing month or day defaults to 1, and the
    * day must exist in its month. */
  function Parse(layout: seq<Tok>, s: string): (r: Option<Fields>)
    ensures r.Some? ==> ValidDate(r.value.year, r.value.month, r.value.day)
    ensures r.Some? ==> r.value.year >= 0
  {
    match Scan(layout, s, Start)
    case None => None
    case Some(f) =>
      var m := if f.month < 0 then 1 else f.month;
      var d := if f.day < 0 then 1 else f.day;
      if 1 <= m <= 12 && 1 <= d <= DaysIn(m, f.year) then Some(f.(month := m, day := d)) else None
  }

  /** The first layout of the list that parses `s`. */
  function ParseFirst(layouts: seq<seq<Tok>>, s: string): (r: Option<Fields>)
    ensures r.Some? <==> exists i :: 0 <= i < |layouts| && Parse(layouts[i], s).Some?
    ensures r.Some? ==> exists i :: 0 <= i < |layouts| && Parse(layouts[i], s) == r
    ensures r.Some? ==> ValidDate(r.value.year, r.value.month, r.value.day)
  {
    if |layouts| == 0 then None
    else if Parse(layouts[0], s).Some? then Parse(layouts[0], s)
    else
      var r := ParseFirst(layouts[1..], s);
      assert forall i :: 1 <= i < |layouts| ==> layouts[i] == layouts[1..][i - 1];
      r
  }

  // Layouts as written in the program.
  const L_Date: seq<Tok> := [Year4, Lit('-'), Month2, Lit('-'), Day2]                     // "2006-01-02"
  const L_SlashDate: seq<Tok> := [Year4, Lit('/'), Month2, Lit('/'), Day2]                // "2006/01/02"
  const L_DateN: seq<Tok> := [Year4, Lit('-'), Month1, Lit('-'), Day1]                    // "2006-1-2"
  const L_SlashDateN: seq<Tok> := [Year4, Lit('/'), Month1, Lit('/'), Day1]               // "2006/1/2"
  const L_DateDayN: seq<Tok> := [Year4, Lit('-'), Month2, Lit('-'), Day1]                 // "2006-01-2"
  const L_DateMonthN: seq<Tok> := [Year4, Lit('-'), Month1, Lit('-'), Day2]               // "2006-1-02"
  const L_Month: seq<Tok> := [Year4, Lit('-'), Month2]                                    // "2006-01"
  const L_Clock: seq<Tok> := [Hour, Lit(':'), Minute2, Lit(':'), Second2]                 // "15:04:05"
  const L_RFC3339: seq<Tok> := L_Date + [Lit('T')] + L_Clock + [Zone]                     // time.RFC3339
  const L_RFC3339Nano: seq<Tok> := L_Date + [Lit('T')] + L_Clock + [FracOpt, Zone]        // time.RFC3339Nano
  const L_ISO: seq<Tok> := L_Date + [Lit('T')] + L_Clock                                  // "2006-01-02T15:04:05"
  const L_ISOPlus8: seq<Tok> := L_ISO + [Lit('+'), Lit('0'), Lit('8'), Lit(':'), Lit('0'), Lit('0')] // "...+08:00"
  const L_DateTime: seq<Tok> := L_Date + [Lit(' ')] + L_Clock                             // "2006-01-02 15:04:05"
  const L_DateTimeMicro: seq<Tok> := L_DateTime + [FracExact(6)]                          // "2006-01-02 15:04:05.000000"
  const L_DateMinute: seq<Tok> := L_Date + [Lit(' '), Hour, Lit(':'), Minute2]            // "2006-01-02 15:04"
  const L_SlashDateTime: seq<Tok> := L_SlashDate + [Lit(' ')] + L_Clock                   // "2006/01/02 15:04:05"

  /** Zero-padded decimal of a natural number in at least `width` runes. */
  function Pad(n: nat, width: nat): (s: string)
    ensures |s| >= width
    ensures AllDigits(s) && DigitsValue(s) == n
  {
    var d := NatToString(n);
    if |d| >= width then d
    else
      var z := seq(width - |d|, _ => '0');
      ZerosPrefix(z, d);
      z + d
  }

  lemma ZerosPrefix(z: string, d: string)
    requires AllDigits(d)
    requires forall i :: 0 <= i < |z| ==> z[i] == '0'
    ensures AllDigits(z + d) && DigitsValue(z + d) == DigitsValue(d)
    decreases |d|
  {
    if |d| == 0 {
      ZerosValue(z);
      assert z + d == z;
    } else {
      ZerosPrefix(z, d[..|d| - 1]);
      assert (z + d)[..|z + d| - 1] == z + d[..|d| - 1];
    }
  }

  lemma ZerosValue(z: string)
    requires forall i :: 0 <= i < |z| ==> z[i] == '0'
    ensures AllDigits(z) && DigitsValue(z) == 0
  {
    if |z| > 0 { ZerosValue(z[..|z| - 1]); }
  }

  /** `t.Format("2006-01-02")`. */
  function FormatDate(f: Fields): string
    requires 0 <= f.year && 0 <= f.month && 0 <= f.day
  {
    Pad(f.year, 4) + "-" + Pad(f.month, 2) + "-" + Pad(f.day, 2)
  }

  /** `t.Format("2006-01-02 15:04")`. */
  function FormatMinute(f: Fields): string
    requires 0 <= f.year && 0 <= f.month && 0 <= f.day && 0 <= f.hour && 0 <= f.minute
  {
    FormatDate(f) + " " + Pad(f.hour, 2) + ":" + Pad(f.minute, 2)
  }

  /** `t.Format("2006-01-02 15:04:05")`. */
  function FormatSecond(f: Fields): string
    requires 0 <= f.year && 0 <= f.month && 0 <= f.day && 0 <= f.hour && 0 <= f.minute && 0 <= f.second
  {
    FormatMinute(f) + ":" + Pad(f.second, 2)
  }

  /** The day number of a parsed date. */
  function DayOfFields(f: Fields): int
    requires 1 <= f.month <= 12
  {
    DayNumber(f.year, f.month, f.day)
  }
}

module GoTimeFacts {
  import opened Wrappers
  import opened Text
  import opened Calendar
  import opened GoTime

  /** A run of one or two ASCII digits. */
  predicate ShortDigits(t: string) { 1 <= |t| <= 2 && AllDigits(t) }

  /** What `getnum` reads from a short digit run followed by a non-digit. */
  lemma GetNumShort(t: string, c: char, rest: string, fixed: bool)
    requires ShortDigits(t) && !IsDigit(c)
    ensures GetNum(t + [c] + rest, fixed).Some? <==> !(fixed && |t| == 1)
    ensures GetNum(t + [c] + rest, fixed).Some? ==>
      GetNum(t + [c] + rest, fixed).value.0 == DigitsValue(t) && GetNum(t + [c] + rest, fixed).value.1 == |t|
  {
    var s := t + [c] + rest;
    assert s[0] == t[0];
    if |t| == 2 {
      assert s[1] == t[1];
      assert s[..2] == t;
    } else {
      assert s[1] == c;
      assert t[..0] == [];
    }
  }

  lemma GetNumShortEnd(t: string, fixed: bool)
    requires ShortDigits(t)
    ensures GetNum(t, fixed).Some? <==> !(fixed && |t| == 1)
    ensures GetNum(t, fixed).Some? ==> GetNum(t, fixed).value.0 == DigitsValue(t) && GetNum(t, fixed).value.1 == |t|
  {
    if |t| == 2 { assert t[..2] == t; } else { assert t[..0] == []; }
  }

  lemma ScanDayTail(b: char, dt: Tok, s2: char, d: string, f: Fields)
    requires b != ' ' && (dt == Day1 || dt == Day2) && ShortDigits(d)
    ensures Scan([Lit(b), dt], [s2] + d, f) ==
      if s2 == b && (dt == Day2 ==> |d| == 2) then Some(f.(day := DigitsValue(d))) else None
  {
    var s := [s2] + d;
    assert [Lit(b), dt][1..] == [dt] && [dt][1..] == [];
    assert !NextIsFraction([dt]) && !NextIsFraction([]);
    if s2 == b {
      assert Consume(Lit(b), false, s, f) == Some((1, f));
      assert s[1..] == d;
      assert Scan([Lit(b), dt], s, f) == Scan([dt], d, f);
      GetNumShortEnd(d, dt == Day2);
      assert Consume(dt, false, d, f) == ConsumeDay(d, f, dt == Day2);
      var g := GetNum(d, dt == Day2);
      if g.Some? {
        assert d[g.value.1..] == [];
        assert Scan([dt], d, f) == Scan([], [], f.(day := DigitsValue(d)));
      } else {
        assert Scan([dt], d, f) == None;
      }
    } else {
      assert Consume(Lit(b), false, s, f) == None;
    }
  }

  lemma Regroup(head: string, m: string, c: char, d: string)
    ensures head + m + [c] + d == head + (m + [c] + d)
  {
  }

  /** What follows a field is the separator and the rest. */
  lemma AfterField(t: string, c: char, rest: string)
    ensures (t + [c] + rest)[|t|..] == [c] + rest
  {
  }

  /** Scanning consumes the first token's text and goes on after it. */
  lemma ScanHead(layout: seq<Tok>, s: string, f: Fields)
    requires |layout| > 0
    ensures var c := Consume(layout[0], NextIsFraction(layout[1..]), s, f);
      Scan(layout, s, f) == if c.None? then None else Scan(layout[1..], s[c.value.0..], c.value.1)
  {
  }

  lemma ScanMonthTail(mt: Tok, b: char, dt: Tok, m: string, s2: char, d: string, f: Fields)
    requires mt == Month1 || mt == Month2
    requires ShortDigits(m) && !IsDigit(s2)
    ensures Scan([mt, Lit(b), dt], m + [s2] + d, f) ==
      if (mt == Month2 ==> |m| == 2) && 1 <= DigitsValue(m) <= 12
      then Scan([Lit(b), dt], [s2] + d, f.(month := DigitsValue(m)))
      else None
  {
    var s := m + [s2] + d;
    var layout := [mt, Lit(b), dt];
    GetNumShort(m, s2, d, mt == Month2);
    var c := ConsumeMonth(s, f, mt == Month2);
    assert Consume(mt, NextIsFraction(layout[1..]), s, f) == c;
    ScanHead(layout, s, f);
    assert layout[1..] == [Lit(b), dt];
    AfterField(m, s2, d);
  }

  lemma ScanYearHead(a: char, mt: Tok, b: char, dt: Tok, y: string, s1: char, rest: string)
    requires a != ' ' && |y| == 4 && AllDigits(y)
    ensures Scan([Year4, Lit(a), mt, Lit(b), dt], y + [s1] + rest, Start) ==
      if s1 == a then Scan([mt, Lit(b), dt], rest, Start.(year := DigitsValue(y))) else None
  {
    var c := y + [s1] + rest;
    assert c[..4] == y;
    assert c[4..] == [s1] + rest;
    assert ([s1] + rest)[1..] == rest;
    assert [Year4, Lit(a), mt, Lit(b), dt][1..] == [Lit(a), mt, Lit(b), dt];
    assert [Lit(a), mt, Lit(b), dt][1..] == [mt, Lit(b), dt];
  }

  /** The numeric date layouts ("2006-01-02", "2006/1/2", ...) applied to a
    * string of the shape four digits, separator, one or two digits,
    * separator, one or two digits. Each layout accepts it exactly when the
    * separators are its own, a two-digit field meets two digits, and the
    * date exists. */
  /** The scan of the numeric date shape: the three fields are read when
    * the separators match, the two-digit fields meet two digits and the
    * month is 1 to 12. */
  lemma ScanDateShape(a: char, mt: Tok, b: char, dt: Tok, y: string, s1: char, m: string, s2: char, d: string)
    requires a != ' ' && b != ' ' && !IsDigit(s1) && !IsDigit(s2)
    requires mt == Month1 || mt == Month2
    requires dt == Day1 || dt == Day2
    requires |y| == 4 && AllDigits(y) && ShortDigits(m) && ShortDigits(d)
    ensures Scan([Year4, Lit(a), mt, Lit(b), dt], y + [s1] + m + [s2] + d, Start) ==
      if s1 == a && s2 == b && (mt == Month2 ==> |m| == 2) && (dt == Day2 ==> |d| == 2) && 1 <= DigitsValue(m) <= 12
      then Some(Start.(year := DigitsValue(y), month := DigitsValue(m), day := DigitsValue(d)))
      else None
  {
    Regroup(y + [s1], m, s2, d);
    ScanYearHead(a, mt, b, dt, y, s1, m + [s2] + d);
    var f1 := Start.(year := DigitsValue(y));
    ScanMonthTail(mt, b, dt, m, s2, d, f1);
    ScanDayTail(b, dt, s2, d, f1.(month := DigitsValue(m)));
  }

  lemma ParseDateShape(a: char, mt: Tok, b: char, dt: Tok, y: string, s1: char, m: string, s2: char, d: string)
    requires a != ' ' && b != ' ' && !IsDigit(s1) && !IsDigit(s2)
    requires mt == Month1 || mt == Month2
    requires dt == Day1 || dt == Day2
    requires |y| == 4 && AllDigits(y) && ShortDigits(m) && ShortDigits(d)
    ensures Parse([Year4, Lit(a), mt, Lit(b), dt], y + [s1] + m + [s2] + d) ==
      if s1 == a && s2 == b && (mt == Month2 ==> |m| == 2) && (dt == Day2 ==> |d| == 2)
         && ValidDate(DigitsValue(y), DigitsValue(m), DigitsValue(d))
      then Some(Fields(DigitsValue(y), DigitsValue(m), DigitsValue(d), 0, 0, 0, 0))
      else None
  {
    ScanDateShape(a, mt, b, dt, y, s1, m, s2, d);
    var layout, t := [Year4, Lit(a), mt, Lit(b), dt], y + [s1] + m + [s2] + d;
    if Scan(layout, t, Start).Some? {
      ParseScanned(layout, t, DigitsValue(y), DigitsValue(m), DigitsValue(d));
    }
  }

  /** A scan that read a year, a month and a day parses exactly when that
    * date exists. */
  lemma ParseScanned(layout: seq<Tok>, s: string, y: nat, m: nat, d: nat)
    requires Scan(layout, s, Start) == Some(Start.(year := y, month := m, day := d))
    ensures Parse(layout, s) == if ValidDate(y, m, d) then Some(Fields(y, m, d, 0, 0, 0, 0)) else None
  {
  }

  lemma DigitsValue2(t: string)
    requires |t| == 2 && AllDigits(t)
    ensures DigitsValue(t) == DigitValue(t[0]) * 10 + DigitValue(t[1])
  {
    assert t[..1][..0] == [];
    assert DigitsValue(t[..1]) == DigitValue(t[0]);
  }

  lemma DigitsValue4(t: string)
    requires |t| == 4 && AllDigits(t)
    ensures DigitsValue(t) == DigitValue(t[0]) * 1000 + DigitValue(t[1]) * 100 + DigitValue(t[2]) * 10 + DigitValue(t[3])
  {
    assert t[..3][..2] == t[..2];
    DigitsValue2(t[..2]);
  }

  lemma ParseDateExample()
    ensures Parse(L_Date, "2024-01-20") == Some(Fields(2024, 1, 20, 0, 0, 0, 0))
  {
    var y, m, d := "2024", "01", "20";
    assert "2024-01-20" == y + ['-'] + m + ['-'] + d;
    DigitsValue4(y);
    DigitsValue2(m);
    DigitsValue2(d);
    assert DigitsValue(y) == 2024 && DigitsValue(m) == 1 && DigitsValue(d) == 20;
    ParseDateShape('-', Month2, '-', Day2, y, '-', m, '-', d);
  }
}
