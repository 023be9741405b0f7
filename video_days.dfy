/** The audit-comment extractor `ParseVideoDaysIssue`: it looks for the
  * earliest recorded video date and for a "days missing" count, and reports
  * a result only for a parseable date and a count of 30, 90 or 180 days.
  *
  * Each regular expression is a recogniser at a position; a search returns
  * the leftmost position where it matches, as Go's `FindStringSubmatch`
  * does. `\d` and `\s` are the ASCII classes of Go's regexp syntax. */
module VideoDays {
  import opened Wrappers
  import opened Text
  import opened Calendar
  import opened GoTime
  import opened GoTimeFacts

  /** `\s` in Go's regexp syntax: tab, newline, form feed, carriage return
    * and space. */
  predicate IsReSpace(c: char)
  {
    c == '\t' || c == '\n' || c == '\U{000C}' || c == '\r' || c == ' '
  }

  /** `[-/]`, the separator inside a date. */
  predicate IsDateSep(c: char) { c == '-' || c == '/' }

  /** End of the `\s*` run starting at `i`. */
  function SkipReSpace(s: string, i: nat): (j: nat)
    requires i <= |s|
    ensures i <= j <= |s|
    ensures forall k :: i <= k < j ==> IsReSpace(s[k])
    ensures j == |s| || !IsReSpace(s[j])
    decreases |s| - i
  {
    if i < |s| && IsReSpace(s[i]) then SkipReSpace(s, i + 1) else i
  }

  /** End of the `\d+` run starting at `i` (`i` itself when there is none). */
  function SkipDigits(s: string, i: nat): (j: nat)
    requires i <= |s|
    ensures i <= j <= |s|
    ensures forall k :: i <= k < j ==> IsDigit(s[k])
    ensures j == |s| || !IsDigit(s[j])
    decreases |s| - i
  {
    if i < |s| && IsDigit(s[i]) then SkipDigits(s, i + 1) else i
  }

  // ---------------------------------------------------------------------
  // The date: \d{4}[-/]\d{1,2}[-/]\d{1,2}

  /** Every rune of `s[a..b]` is a digit. */
  predicate DigitsBetween(s: string, a: int, b: int)
    requires 0 <= a && b <= |s|
  {
    forall k :: a <= k < b ==> IsDigit(s[k])
  }

  /** `s[i..e]` is four digits, a separator, `mlen` digits, a separator and
    * one or two digits: a whole match of the date expression. */
  predicate DateMatch(s: string, i: int, e: int, mlen: int)
  {
    0 <= i && e <= |s| && 1 <= mlen <= 2 && i + 7 + mlen <= e <= i + 8 + mlen
    && DigitsBetween(s, i, i + 4) && IsDateSep(s[i + 4])
    && DigitsBetween(s, i + 5, i + 5 + mlen) && IsDateSep(s[i + 5 + mlen])
    && DigitsBetween(s, i + 6 + mlen, e)
  }

  /** A string the date expression matches as a whole. */
  predicate DateShaped(t: string)
  {
    exists mlen | 1 <= mlen <= 2 :: DateMatch(t, 0, |t|, mlen)
  }

  /** Length of the `\d{1,2}` field starting at `i` that the matcher keeps
    * when a separator must follow: two digits when two digits and then a
    * separator are there, otherwise one digit and a separator. */
  function MonthLen(s: string, i: nat): (n: nat)
    ensures n <= 2
    ensures n > 0 ==> i + n < |s| && DigitsBetween(s, i, i + n) && IsDateSep(s[i + n])
  {
    if i + 2 < |s| && IsDigit(s[i]) && IsDigit(s[i + 1]) && IsDateSep(s[i + 2]) then 2
    else if i + 1 < |s| && IsDigit(s[i]) && IsDateSep(s[i + 1]) then 1
    else 0
  }

  /** Length of the trailing, greedy `\d{1,2}` field at `i`. */
  function DayLen(s: string, i: nat): (n: nat)
    requires i <= |s|
    ensures n <= 2
    ensures i + n <= |s| && DigitsBetween(s, i, i + n)
    ensures n < 2 ==> i + n == |s| || !IsDigit(s[i + n])
  {
    if i + 1 < |s| && IsDigit(s[i]) && IsDigit(s[i + 1]) then 2
    else if i < |s| && IsDigit(s[i]) then 1
    else 0
  }

  /** End of the date match starting exactly at `i`, if there is one. */
  function DateAt(s: string, i: nat): (r: Option<nat>)
    ensures r.Some? ==> exists mlen | 1 <= mlen <= 2 :: DateMatch(s, i, r.value, mlen)
  {
    if i + 5 <= |s| && DigitsBetween(s, i, i + 4) && IsDateSep(s[i + 4]) then
      var m := MonthLen(s, i + 5);
      if m == 0 then None
      else
        var d := DayLen(s, i + 6 + m);
        if d == 0 then None
        else
          assert DateMatch(s, i, i + 6 + m + d, m);
          Some(i + 6 + m + d)
    else None
  }

  /** The matcher never misses a date: whenever some prefix of `s[i..]` is
    * date-shaped, `DateAt` matches, and it keeps the longest such prefix. */
  lemma DateAtComplete(s: string, i: nat, e: nat, mlen: int)
    requires DateMatch(s, i, e, mlen)
    ensures DateAt(s, i).Some? && e <= DateAt(s, i).value
  {
    assert mlen == 1 ==> !IsDigit(s[i + 6]);
    assert MonthLen(s, i + 5) == mlen;
    assert IsDigit(s[i + 6 + mlen]);
  }

  /** A date text cut out of a comment is date-shaped on its own. */
  lemma DateMatchSlice(s: string, i: nat, e: nat, mlen: int)
    requires DateMatch(s, i, e, mlen)
    ensures DateShaped(s[i..e])
  {
    var t := s[i..e];
    assert forall k :: 0 <= k < |t| ==> t[k] == s[i + k];
    assert DateMatch(t, 0, |t|, mlen);
  }

  /** The date expression found by an unanchored search starting at `from`:
    * the start and end of the leftmost match. */
  function FindDate(s: string, from: nat): (r: Option<(nat, nat)>)
    requires from <= |s|
    ensures r.Some? ==> from <= r.value.0 && DateAt(s, r.value.0) == Some(r.value.1)
    ensures r.Some? ==> forall k :: from <= k < r.value.0 ==> DateAt(s, k).None?
    ensures r.None? ==> forall k :: from <= k <= |s| ==> DateAt(s, k).None?
    decreases |s| - from
  {
    if DateAt(s, from).Some? then Some((from, DateAt(s, from).value))
    else if from == |s| then None
    else FindDate(s, from + 1)
  }

  /** The labels of the labelled date expressions, in the order they are
    * tried; after them comes the bare date. */
  const DateLabels: seq<string> := ["录像最早日期", "最早录像日期", "录像日期"]

  predicate IsColon(c: char) { c == '：' || c == ':' }

  /** `tag[：:]\s*(date)` matched at `i`: the captured date's bounds. */
  function LabelledAt(tag: string, s: string, i: nat): (r: Option<(nat, nat)>)
    ensures r.Some? ==> i < r.value.0 < r.value.1 <= |s|
    ensures r.Some? ==> At(s, i, tag) && i + |tag| < |s| && IsColon(s[i + |tag|])
    ensures r.Some? ==> DateAt(s, r.value.0) == Some(r.value.1)
  {
    if At(s, i, tag) && i + |tag| < |s| && IsColon(s[i + |tag|]) then
      var j := SkipReSpace(s, i + |tag| + 1);
      match DateAt(s, j)
      case None => None
      case Some(e) => Some((j, e))
    else None
  }

  /** Position of the leftmost match of a labelled date expression at or
    * after `from`. */
  function FindLabelled(tag: string, s: string, from: nat): (r: Option<nat>)
    requires from <= |s|
    ensures r.Some? ==> from <= r.value <= |s| && LabelledAt(tag, s, r.value).Some?
    decreases |s| - from
  {
    if LabelledAt(tag, s, from).Some? then Some(from)
    else if from == |s| then None
    else FindLabelled(tag, s, from + 1)
  }

  /** Nothing is found only when the labelled expression matches nowhere
    * from `from` on. */
  lemma {:induction false} FindLabelledNone(tag: string, s: string, from: nat)
    requires from <= |s|
    ensures FindLabelled(tag, s, from).None? ==> forall k :: from <= k <= |s| ==> LabelledAt(tag, s, k).None?
    decreases |s| - from
  {
    if FindLabelled(tag, s, from).None? {
      assert LabelledAt(tag, s, from).None?;
      if from < |s| {
        assert FindLabelled(tag, s, from + 1).None?;
        FindLabelledNone(tag, s, from + 1);
      }
    }
  }

  /** The match found is the leftmost one. */
  lemma {:induction false} FindLabelledLeftmost(tag: string, s: string, from: nat)
    requires from <= |s|
    ensures FindLabelled(tag, s, from).Some? ==>
      forall k :: from <= k < FindLabelled(tag, s, from).value ==> LabelledAt(tag, s, k).None?
    decreases |s| - from
  {
    if LabelledAt(tag, s, from).None? && from < |s| {
      assert FindLabelled(tag, s, from) == FindLabelled(tag, s, from + 1);
      FindLabelledLeftmost(tag, s, from + 1);
    }
  }

  /** The date text captured between `b` and `e`, which the date expression
    * matched. */
  function Captured(s: string, b: nat, e: nat): (t: string)
    requires DateAt(s, b) == Some(e)
    ensures DateShaped(t)
  {
    assert DateShaped(s[b..e]) by {
      var m :| DateMatch(s, b, e, m);
      DateMatchSlice(s, b, e, m);
    }
    s[b..e]
  }

  /** First expression of the list that matches, labelled ones first and the
    * bare date last; the captured date text. */
  function DateFromLabels(labels: seq<string>, s: string): (r: Option<string>)
    ensures r.Some? ==> DateShaped(r.value)
  {
    if |labels| == 0 then
      match FindDate(s, 0)
      case None => None
      case Some((b, e)) => Some(Captured(s, b, e))
    else
      match FindLabelled(labels[0], s, 0)
      case Some(k) =>
        var (b, e) := LabelledAt(labels[0], s, k).value;
        Some(Captured(s, b, e))
      case None => DateFromLabels(labels[1..], s)
  }

  function ExtractDate(comment: string): (r: Option<string>)
    ensures r.Some? ==> DateShaped(r.value)
  {
    DateFromLabels(DateLabels, comment)
  }

  // ---------------------------------------------------------------------
  // The day count: prefix\s*(\d+)\s*天

  /** Prefixes of the day-count expressions, in the order they are tried. */
  const DayPrefixes: seq<string> := ["不足", "录像天数不足", "缺少"]

  /** `prefix\s*(\d+)\s*天` matched at `i`: the captured digits' bounds. */
  function DaysAt(prefix: string, s: string, i: nat): (r: Option<(nat, nat)>)
    ensures r.Some? ==> At(s, i, prefix) && i + |prefix| <= r.value.0 < r.value.1 <= |s|
    ensures r.Some? ==> AllDigits(s[r.value.0..r.value.1])
  {
    if At(s, i, prefix) then
      var j := SkipReSpace(s, i + |prefix|);
      var k := SkipDigits(s, j);
      var l := SkipReSpace(s, k);
      if j < k && l < |s| && s[l] == '天' then Some((j, k)) else None
    else None
  }

  /** The day expression matches at `i` exactly when the text there is the
    * prefix, white space, at least one digit, white space and 天, for some
    * split; the split is unique, so the capture is the whole digit run. */
  predicate DaysShapedAt(prefix: string, s: string, i: nat, j: nat, k: nat, l: nat)
  {
    At(s, i, prefix) && i + |prefix| <= j < k <= l < |s|
    && (forall p :: i + |prefix| <= p < j ==> IsReSpace(s[p]))
    && (forall p :: j <= p < k ==> IsDigit(s[p]))
    && (forall p :: k <= p < l ==> IsReSpace(s[p]))
    && s[l] == '天'
  }

  lemma DaysAtExact(prefix: string, s: string, i: nat)
    ensures DaysAt(prefix, s, i).Some? <==> exists j, k, l :: DaysShapedAt(prefix, s, i, j, k, l)
    ensures forall j, k, l :: DaysShapedAt(prefix, s, i, j, k, l) ==> DaysAt(prefix, s, i) == Some((j, k))
  {
    forall j: nat, k: nat, l: nat | DaysShapedAt(prefix, s, i, j, k, l)
      ensures DaysAt(prefix, s, i) == Some((j, k))
    {
      var j' := SkipReSpace(s, i + |prefix|);
      assert IsDigit(s[j]) && !IsReSpace(s[j]);
      assert j' == j;
      var k' := SkipDigits(s, j);
      assert !IsDigit(s[k]);
      assert k' == k;
      var l' := SkipReSpace(s, k);
      assert l' == l;
    }
    if DaysAt(prefix, s, i).Some? {
      var j := SkipReSpace(s, i + |prefix|);
      var k := SkipDigits(s, j);
      var l := SkipReSpace(s, k);
      assert DaysShapedAt(prefix, s, i, j, k, l);
    }
  }

  /** Position of the leftmost match of a day expression at or after
    * `from`. */
  function FindDays(prefix: string, s: string, from: nat): (r: Option<nat>)
    requires from <= |s|
    ensures r.Some? ==> from <= r.value <= |s| && DaysAt(prefix, s, r.value).Some?
    decreases |s| - from
  {
    if DaysAt(prefix, s, from).Some? then Some(from)
    else if from == |s| then None
    else FindDays(prefix, s, from + 1)
  }

  /** Nothing is found only when the expression matches nowhere from
    * `from` on. */
  lemma {:induction false} FindDaysNone(prefix: string, s: string, from: nat)
    requires from <= |s|
    ensures FindDays(prefix, s, from).None? ==> forall k :: from <= k <= |s| ==> DaysAt(prefix, s, k).None?
    decreases |s| - from
  {
    if FindDays(prefix, s, from).None? {
      assert DaysAt(prefix, s, from).None?;
      if from < |s| {
        assert FindDays(prefix, s, from + 1).None?;
        FindDaysNone(prefix, s, from + 1);
      }
    }
  }

  /** The match found is the leftmost one. */
  lemma {:induction false} FindDaysLeftmost(prefix: string, s: string, from: nat)
    requires from <= |s|
    ensures FindDays(prefix, s, from).Some? ==>
      forall k :: from <= k < FindDays(prefix, s, from).value ==> DaysAt(prefix, s, k).None?
    decreases |s| - from
  {
    if DaysAt(prefix, s, from).None? && from < |s| {
      assert FindDays(prefix, s, from) == FindDays(prefix, s, from + 1);
      FindDaysLeftmost(prefix, s, from + 1);
    }
  }

  /** The digits a day expression captures at its leftmost match. */
  function DaysCapture(prefix: string, s: string): (r: Option<string>)
    ensures r.Some? ==> |r.value| > 0 && AllDigits(r.value)
  {
    match FindDays(prefix, s, 0)
    case Some(k) =>
      var (b, e) := DaysAt(prefix, s, k).value;
      assert forall p :: 0 <= p < e - b ==> s[b..e][p] == s[b + p];
      Some(s[b..e])
    case None => None
  }

  /** The capture of the first day expression of the list that matches. */
  function DaysFromPrefixes(prefixes: seq<string>, s: string): (r: Option<string>)
    ensures r.Some? ==> |r.value| > 0 && AllDigits(r.value)
  {
    if |prefixes| == 0 then None
    else if DaysCapture(prefixes[0], s).Some? then DaysCapture(prefixes[0], s)
    else DaysFromPrefixes(prefixes[1..], s)
  }

  /** The literal fallback, tried only when no day expression matched. */
  function FallbackDays(comment: string): (r: Option<string>)
    ensures r.Some? ==> r.value in {"30", "90", "180"}
  {
    if Contains(comment, "不足30天") || Contains(comment, "30天") then Some("30")
    else if Contains(comment, "不足90天") || Contains(comment, "90天") then Some("90")
    else if Contains(comment, "不足180天") || Contains(comment, "180天") then Some("180")
    else None
  }

  function ExtractDays(comment: string): (r: Option<string>)
    ensures r.Some? ==> |r.value| > 0 && AllDigits(r.value)
  {
    match DaysFromPrefixes(DayPrefixes, comment)
    case Some(t) => Some(t)
    case None => FallbackDays(comment)
  }

  /** `fmt.Sscanf(t, "%d", &days)` on a digit string: its value, or 0 (the
    * variable's initial value) when it does not fit in 64 bits. */
  function ScanDays(t: string): (n: nat)
    requires AllDigits(t)
    ensures n == 0 || n == DigitsValue(t)
  {
    if DigitsValue(t) <= MaxInt64 then DigitsValue(t) else 0
  }

  predicate AcceptedDays(n: int) { n == 30 || n == 90 || n == 180 }

  /** The layouts tried on the captured date. */
  const Layouts: seq<seq<Tok>> := [L_Date, L_SlashDate, L_DateN, L_SlashDateN]
  const LayoutsExtended: seq<seq<Tok>> := Layouts + [L_DateDayN, L_DateMonthN]

  /** The extractor's result: the earliest video date as a day number (0, Go's
    * zero date, when nothing is found), the required days, and whether an
    * issue was found. */
  datatype Issue = Issue(earliest: int, requiredDays: nat, found: bool)

  const NotFound: Issue := Issue(0, 0, false)

  /** The decision once both texts are captured. */
  function Decide(dateText: string, daysText: string, layouts: seq<seq<Tok>>): Issue
    requires AllDigits(daysText)
  {
    var t := ParseFirst(layouts, dateText);
    var n := ScanDays(daysText);
    if t.Some? && AcceptedDays(n) then Issue(DayOfFields(t.value), n, true) else NotFound
  }

  function Extract(comment: string, layouts: seq<seq<Tok>>): Issue
  {
    if comment == "" then NotFound
    else
      var date := ExtractDate(comment);
      var days := ExtractDays(comment);
      if date.Some? && days.Some? then Decide(date.value, days.value, layouts) else NotFound
  }

  /** `ParseVideoDaysIssue` of internal/auditprogress (four date layouts). */
  function ParseVideoDaysIssue(comment: string): (r: Issue)
    ensures comment == "" ==> r == NotFound
    ensures r.found ==> AcceptedDays(r.requiredDays)
    ensures !r.found ==> r == NotFound
  {
    Extract(comment, Layouts)
  }

  /** `ParseVideoDaysIssue` of code1/ops-web (six date layouts). */
  function ParseVideoDaysIssueExtended(comment: string): (r: Issue)
    ensures comment == "" ==> r == NotFound
    ensures r.found ==> AcceptedDays(r.requiredDays)
    ensures !r.found ==> r == NotFound
  {
    Extract(comment, LayoutsExtended)
  }

  // ---------------------------------------------------------------------
  // Properties

  /** `t` split as four-digit year, separator, month digits, separator and
    * day digits. */
  predicate DateParts(t: string, y: string, s1: char, m: string, s2: char, d: string)
  {
    t == y + [s1] + m + [s2] + d && |y| == 4 && AllDigits(y) && ShortDigits(m) && ShortDigits(d)
    && IsDateSep(s1) && IsDateSep(s2)
  }

  /** The captured date is accepted by the layouts exactly when both
    * separators are the same and the date exists. */
  ghost predicate AcceptableDate(t: string)
  {
    exists y, s1, m, s2, d :: DateParts(t, y, s1, m, s2, d) && s1 == s2
      && ValidDate(DigitsValue(y), DigitsValue(m), DigitsValue(d))
  }

  lemma DateShapedParts(t: string) returns (y: string, s1: char, m: string, s2: char, d: string)
    requires DateShaped(t)
    ensures DateParts(t, y, s1, m, s2, d)
  {
    var mlen :| 1 <= mlen <= 2 && DateMatch(t, 0, |t|, mlen);
    y, s1, m, s2, d := t[..4], t[4], t[5..5 + mlen], t[5 + mlen], t[6 + mlen..];
    assert t == y + [s1] + m + [s2] + d;
  }

  /** When every layout of a list yields either nothing or `v`, and `v` is
    * something only if some layout yields it, the list yields `v`. */
  lemma ParseFirstUniform(layouts: seq<seq<Tok>>, t: string, v: Option<Fields>)
    requires forall l :: l in layouts ==> Parse(l, t) == v || Parse(l, t).None?
    requires v.Some? ==> exists l :: l in layouts && Parse(l, t) == v
    ensures ParseFirst(layouts, t) == v
  {
    var r := ParseFirst(layouts, t);
    if r.Some? {
      var i :| 0 <= i < |layouts| && Parse(layouts[i], t) == r;
      assert layouts[i] in layouts;
    }
    if v.Some? {
      var l :| l in layouts && Parse(l, t) == v;
      var i :| 0 <= i < |layouts| && layouts[i] == l;
    }
  }

  /** The result the date layouts promise for a date text. */
  function ExpectedDate(y: string, s1: char, m: string, s2: char, d: string): Option<Fields>
    requires AllDigits(y) && AllDigits(m) && AllDigits(d)
  {
    if s1 == s2 && ValidDate(DigitsValue(y), DigitsValue(m), DigitsValue(d))
    then Some(Fields(DigitsValue(y), DigitsValue(m), DigitsValue(d), 0, 0, 0, 0))
    else None
  }

  /** One numeric layout yields the expected date or nothing; the layout
    * of single-digit fields with the text's own separator yields it. */
  lemma LayoutUniform(l: seq<Tok>, a: char, mt: Tok, dt: Tok, t: string, y: string, s1: char, m: string, s2: char, d: string)
    requires l == [Year4, Lit(a), mt, Lit(a), dt]
    requires DateParts(t, y, s1, m, s2, d) && IsDateSep(a)
    requires mt == Month1 || mt == Month2
    requires dt == Day1 || dt == Day2
    ensures Parse(l, t) == ExpectedDate(y, s1, m, s2, d) || Parse(l, t).None?
    ensures mt == Month1 && dt == Day1 && s1 == a ==> Parse(l, t) == ExpectedDate(y, s1, m, s2, d)
  {
    ParseDateShape(a, mt, a, dt, y, s1, m, s2, d);
  }

  /** A numeric date layout: year, separator, month, the same separator,
    * day. */
  predicate DateLayout(l: seq<Tok>)
  {
    |l| == 5 && l[0] == Year4 && l[1].Lit? && l[3] == l[1] && IsDateSep(l[1].c)
    && (l[2] == Month1 || l[2] == Month2) && (l[4] == Day1 || l[4] == Day2)
  }

  lemma LayoutsAreDates()
    ensures forall l :: l in LayoutsExtended ==> DateLayout(l)
  {
    assert LayoutsExtended == [L_Date, L_SlashDate, L_DateN, L_SlashDateN, L_DateDayN, L_DateMonthN];
  }

  /** Every date layout yields the expected date or nothing, and one of the
    * first four yields it when it exists. */
  lemma LayoutsUniform(t: string, y: string, s1: char, m: string, s2: char, d: string)
    requires DateParts(t, y, s1, m, s2, d)
    ensures forall l :: l in LayoutsExtended ==> Parse(l, t) == ExpectedDate(y, s1, m, s2, d) || Parse(l, t).None?
    ensures ExpectedDate(y, s1, m, s2, d).Some? ==> exists l :: l in Layouts && Parse(l, t) == ExpectedDate(y, s1, m, s2, d)
  {
    LayoutsAreDates();
    forall l: seq<Tok> | l in LayoutsExtended
      ensures Parse(l, t) == ExpectedDate(y, s1, m, s2, d) || Parse(l, t).None?
    {
      LayoutUniform(l, l[1].c, l[2], l[4], t, y, s1, m, s2, d);
    }
    if ExpectedDate(y, s1, m, s2, d).Some? {
      if s1 == '-' {
        LayoutUniform(L_DateN, '-', Month1, Day1, t, y, s1, m, s2, d);
        assert L_DateN in Layouts;
      } else {
        LayoutUniform(L_SlashDateN, '/', Month1, Day1, t, y, s1, m, s2, d);
        assert L_SlashDateN in Layouts;
      }
    }
  }

  /** Both layout lists read a date text the same way: they accept it
    * exactly when the separators agree and the date exists, and then yield
    * that date at midnight. */
  lemma ParseDateParts(t: string, y: string, s1: char, m: string, s2: char, d: string)
    requires DateParts(t, y, s1, m, s2, d)
    ensures ParseFirst(Layouts, t) == ExpectedDate(y, s1, m, s2, d)
    ensures ParseFirst(LayoutsExtended, t) == ExpectedDate(y, s1, m, s2, d)
  {
    var v := ExpectedDate(y, s1, m, s2, d);
    LayoutsUniform(t, y, s1, m, s2, d);
    assert forall l :: l in Layouts ==> l in LayoutsExtended;
    ParseFirstUniform(Layouts, t, v);
    ParseFirstUniform(LayoutsExtended, t, v);
  }

  lemma ParseCaptured(t: string)
    requires DateShaped(t)
    ensures ParseFirst(Layouts, t) == ParseFirst(LayoutsExtended, t)
    ensures ParseFirst(Layouts, t).Some? <==> AcceptableDate(t)
  {
    var y, s1, m, s2, d := DateShapedParts(t);
    ParseDateParts(t, y, s1, m, s2, d);
    if AcceptableDate(t) {
      var y', s1', m', s2', d' :| DateParts(t, y', s1', m', s2', d') && s1' == s2'
        && ValidDate(DigitsValue(y'), DigitsValue(m'), DigitsValue(d'));
      ParseDateParts(t, y', s1', m', s2', d');
    }
  }

  /** The two extra layouts of the code1 copy change nothing: every date
    * they accept is already accepted by "2006-1-2". */
  lemma {:induction false} ExtendedLayoutsAgree(comment: string)
    ensures ParseVideoDaysIssueExtended(comment) == ParseVideoDaysIssue(comment)
  {
    var date := ExtractDate(comment);
    if date.Some? { ParseCaptured(date.value); }
  }

  /** An issue is found exactly when a date and a day count are captured,
    * the date has equal separators and exists, and the count is 30, 90 or
    * 180; the issue then carries that date and count. */
  lemma {:induction false} IssueFound(comment: string)
    ensures ParseVideoDaysIssue(comment).found <==>
      comment != "" && ExtractDate(comment).Some? && ExtractDays(comment).Some?
      && AcceptableDate(ExtractDate(comment).value)
      && AcceptedDays(ScanDays(ExtractDays(comment).value))
    ensures ParseVideoDaysIssue(comment).found ==>
      ParseVideoDaysIssue(comment).requiredDays == DigitsValue(ExtractDays(comment).value)
    ensures ParseVideoDaysIssue(comment).found ==>
      exists y, sep, m, d :: DateParts(ExtractDate(comment).value, y, sep, m, sep, d)
        && ValidDate(DigitsValue(y), DigitsValue(m), DigitsValue(d))
        && ParseVideoDaysIssue(comment).earliest == DayNumber(DigitsValue(y), DigitsValue(m), DigitsValue(d))
  {
    var date := ExtractDate(comment);
    if date.Some? {
      ParseCaptured(date.value);
      var y, s1, m, s2, d := DateShapedParts(date.value);
      ParseDateParts(date.value, y, s1, m, s2, d);
    }
  }

  /** The second day expression (录像天数不足) never decides: wherever it
    * matches, the first one (不足) matches four runes later with the same
    * capture. */
  lemma DaysLongPrefixAt(s: string, i: nat)
    ensures DaysAt("录像天数不足", s, i).Some? ==> DaysAt("不足", s, i + 4) == DaysAt("录像天数不足", s, i)
  {
    if DaysAt("录像天数不足", s, i).Some? {
      assert s[i + 4..i + 6] == s[i..i + 6][4..6];
    }
  }

  lemma {:induction false} SecondDayPatternRedundant(comment: string)
    ensures ExtractDays(comment) ==
      if DaysCapture("不足", comment).Some? then DaysCapture("不足", comment)
      else if DaysCapture("缺少", comment).Some? then DaysCapture("缺少", comment)
      else FallbackDays(comment)
  {
    assert DayPrefixes[0] == "不足" && DayPrefixes[1..][0] == "录像天数不足";
    assert DayPrefixes[1..][1..] == ["缺少"] && ["缺少"][1..] == [];
    if DaysCapture("不足", comment).None? {
      FindDaysNone("不足", comment, 0);
      forall k: nat | k <= |comment| ensures DaysAt("录像天数不足", comment, k).None? {
        DaysLongPrefixAt(comment, k);
      }
      assert DaysCapture("录像天数不足", comment).None?;
      assert DaysFromPrefixes(DayPrefixes, comment) == DaysFromPrefixes(["缺少"], comment);
    }
  }

  /** A date is captured whenever the comment contains text the date
    * expression matches anywhere, labelled or not. */
  lemma {:induction false} DateFromLabelsSome(labels: seq<string>, s: string)
    ensures DateFromLabels(labels, s).None? <==> forall k :: 0 <= k <= |s| ==> DateAt(s, k).None?
    decreases |labels|
  {
    if |labels| > 0 {
      var r := FindLabelled(labels[0], s, 0);
      if r.Some? {
        var (b, e) := LabelledAt(labels[0], s, r.value).value;
        assert DateAt(s, b).Some?;
      } else {
        DateFromLabelsSome(labels[1..], s);
      }
    }
  }

  lemma ExtractDateNone(comment: string)
    ensures ExtractDate(comment).None? <==>
      forall i, e, mlen :: !DateMatch(comment, i, e, mlen)
  {
    DateFromLabelsSome(DateLabels, comment);
    forall i: nat, e: nat, mlen | DateMatch(comment, i, e, mlen)
      ensures DateAt(comment, i).Some?
    {
      DateAtComplete(comment, i, e, mlen);
    }
  }

  /** Positions whose rune cannot start the prefix are skipped. */
  lemma {:induction false} FindDaysSkip(prefix: string, s: string, from: nat, to: nat)
    requires |prefix| > 0 && from <= to <= |s|
    requires prefix[0] !in s[from..to]
    ensures FindDays(prefix, s, from) == FindDays(prefix, s, to)
    decreases |s| - from
  {
    if from < to {
      assert s[from] == s[from..to][0];
      assert s[from + 1..to] == s[from..to][1..];
      AtFirstRune(s, from, prefix);
      FindDaysSkip(prefix, s, from + 1, to);
    }
  }

  /** An expression whose first rune never occurs finds nothing. */
  lemma DaysCaptureAbsent(prefix: string, s: string)
    requires |prefix| > 0 && prefix[0] !in s
    ensures DaysCapture(prefix, s).None?
  {
    forall k: nat | k <= |s| ensures DaysAt(prefix, s, k).None? {
      AtFirstRune(s, k, prefix);
    }
  }

  /** No day expression matches a comment none of whose runes starts one. */
  lemma NoDayExpression(c: string)
    requires '不' !in c && '录' !in c && '缺' !in c
    ensures DaysFromPrefixes(DayPrefixes, c).None?
  {
    DaysCaptureAbsent("不足", c);
    DaysCaptureAbsent("录像天数不足", c);
    DaysCaptureAbsent("缺少", c);
    assert DayPrefixes[0] == "不足" && DayPrefixes[1..][0] == "录像天数不足";
    assert DayPrefixes[1..][1..] == ["缺少"] && ["缺少"][1..] == [];
    assert DaysFromPrefixes(["缺少"], c).None?;
    assert DaysFromPrefixes(DayPrefixes[1..], c).None?;
  }

  /** Without a day expression, any "30天" in the comment means 30 days. */
  lemma FallbackThirty(c: string)
    requires DaysFromPrefixes(DayPrefixes, c).None? && Contains(c, "30天")
    ensures ExtractDays(c) == Some("30")
  {
  }

  /** The literal fallback tests substrings, so "130天" counts as 30 days. */
  lemma FallbackInsideLongerNumber()
    ensures ExtractDays("仅保存130天") == Some("30")
  {
    LongerNumberTexts("仅保存130天");
    FallbackThirty("仅保存130天");
  }

  lemma LongerNumberTexts(c: string)
    requires c == "仅保存130天"
    ensures DaysFromPrefixes(DayPrefixes, c).None? && Contains(c, "30天")
  {
    NoDayExpression(c);
    assert At(c, 4, "30天");
  }

  const Example: string := "录像最早日期：2024-01-01，不足30天"

  lemma ExampleDateAt()
    ensures DateAt(Example, 7) == Some(17)
  {
    var c := Example;
    assert DigitsBetween(c, 7, 11) && IsDateSep(c[11]);
    assert MonthLen(c, 12) == 2;
    assert DayLen(c, 15) == 2;
  }

  lemma ExampleLabelled()
    ensures LabelledAt(DateLabels[0], Example, 0) == Some((7, 17))
  {
    var c := Example;
    var tag := DateLabels[0];
    assert tag == "录像最早日期";
    assert At(c, 0, tag) by { assert c[..6] == tag; }
    assert IsColon(c[6]);
    assert SkipReSpace(c, 7) == 7;
    ExampleDateAt();
  }

  lemma ExampleDate()
    ensures ExtractDate(Example) == Some("2024-01-01")
  {
    ExampleLabelled();
    assert FindLabelled(DateLabels[0], Example, 0) == Some(0);
    assert Example[7..17] == "2024-01-01";
  }

  lemma ExampleDaysAt()
    ensures DaysAt("不足", Example, 18) == Some((20, 22))
  {
    var c := Example;
    assert At(c, 18, "不足") by { assert c[18..20] == "不足"; }
    assert SkipReSpace(c, 20) == 20;
    assert SkipDigits(c, 22) == 22;
    assert SkipDigits(c, 20) == 22;
    assert SkipReSpace(c, 22) == 22;
  }

  lemma ExampleFindDays()
    ensures FindDays("不足", Example, 0) == Some(18)
  {
    var c := Example;
    assert c[..18] == "录像最早日期：2024-01-01，";
    assert c[0..18] == c[..18];
    FindDaysSkip("不足", c, 0, 18);
    ExampleDaysAt();
  }

  /** The capture is the digit run of the leftmost match. */
  lemma DaysCaptureAt(prefix: string, s: string, k: nat, b: nat, e: nat)
    requires FindDays(prefix, s, 0) == Some(k) && DaysAt(prefix, s, k) == Some((b, e))
    ensures DaysCapture(prefix, s) == Some(s[b..e])
  {
  }

  /** When the first day expression captures, its capture is the result. */
  lemma FirstDayExpressionDecides(c: string)
    requires DaysCapture(DayPrefixes[0], c).Some?
    ensures ExtractDays(c) == DaysCapture(DayPrefixes[0], c)
  {
  }

  lemma ExampleDays()
    ensures ExtractDays(Example) == Some("30")
  {
    ExampleFindDays();
    ExampleDaysAt();
    DaysCaptureAt("不足", Example, 18, 20, 22);
    assert Example[20..22] == "30";
    assert DayPrefixes[0] == "不足";
    FirstDayExpressionDecides(Example);
  }

  lemma ExampleDateParses()
    ensures ParseFirst(Layouts, "2024-01-01") == Some(Fields(2024, 1, 1, 0, 0, 0, 0))
  {
    var y, m, d := "2024", "01", "01";
    assert "2024-01-01" == y + ['-'] + m + ['-'] + d;
    DigitsValue4(y);
    DigitsValue2(m);
    assert DigitsValue(y) == 2024 && DigitsValue(m) == 1 && DigitsValue(d) == 1;
    assert ValidDate(2024, 1, 1);
    assert DateParts("2024-01-01", y, '-', m, '-', d);
    assert ExpectedDate(y, '-', m, '-', d) == Some(Fields(2024, 1, 1, 0, 0, 0, 0));
    ParseDateParts("2024-01-01", y, '-', m, '-', d);
  }

  /** An issue is read off a comment once its captured texts are known. */
  lemma IssueOf(comment: string, dateText: string, daysText: string, f: Fields, n: nat)
    requires comment != "" && ExtractDate(comment) == Some(dateText) && ExtractDays(comment) == Some(daysText)
    requires AllDigits(daysText) && ScanDays(daysText) == n && AcceptedDays(n)
    requires ParseFirst(Layouts, dateText) == Some(f)
    ensures ParseVideoDaysIssue(comment) == Issue(DayOfFields(f), n, true)
  {
  }

  /** The worked example: a labelled date and a 30-day shortfall. */
  lemma WorkedExample()
    ensures ParseVideoDaysIssue(Example) == Issue(738885, 30, true)
  {
    ExampleDate();
    ExampleDays();
    ExampleDateParses();
    Day20240101();
    DigitsValue2("30");
    assert Example[0] == '录';
    IssueOf(Example, "2024-01-01", "30", Fields(2024, 1, 1, 0, 0, 0, 0), 30);
  }
}
