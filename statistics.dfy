/** The statistics page (`internal/statistics`): counts of archived points per
  * unit and point type over a date range, read from groups the database
  * returns as (unit, point type text, count); the date-range rule; and the
  * export's hand-parsed raw query. A failed query is `None`. */
module Statistics {
  import opened Wrappers
  import opened Text
  import opened GoTime
  import opened GoTimeFacts
  import opened Query
  import opened RawQuery
  import AuditStatistics
  import Calendar

  // ---------------------------------------------------------------------
  // The date filter

  /** The date parameters as the page keeps them: the texts it shows back
    * and, when both parse as YYYY-MM-DD, the start and the end (set to
    * 23:59:59). */
  datatype DateFilter = DateFilter(startText: string, endText: string, range: Option<(Fields, Fields)>)

  function EndOfDay(f: Fields): Fields
  {
    f.(hour := 23, minute := 59, second := 59)
  }

  /** Both dates given: both must parse, or both texts are cleared. One date
    * missing: no filter, the texts stay as given. */
  function ReadDateFilter(startText: string, endText: string): (f: DateFilter)
    ensures Formattable(f)
  {
    if startText != "" && endText != "" then
      var s, e := Parse(L_Date, startText), Parse(L_Date, endText);
      if s.Some? && e.Some? then DateFilter(startText, endText, Some((s.value, EndOfDay(e.value))))
      else DateFilter("", "", None)
    else DateFilter(startText, endText, None)
  }

  /** A range whose dates can be written as YYYY-MM-DD. */
  predicate Formattable(f: DateFilter)
  {
    f.range.Some? ==>
      var (s, e) := f.range.value;
      0 <= s.year && 0 <= s.month && 0 <= s.day && 0 <= e.year && 0 <= e.month && 0 <= e.day
  }

  /** The filter is on exactly when both dates parse; a failed parse clears
    * both texts, and otherwise the texts are kept. */
  lemma DateFilterRule(startText: string, endText: string)
    ensures var f := ReadDateFilter(startText, endText);
      (f.range.Some? <==> Parse(L_Date, startText).Some? && Parse(L_Date, endText).Some?) &&
      (f.range.Some? ==> f.range.value.0 == Parse(L_Date, startText).value && f.range.value.1.day == Parse(L_Date, endText).value.day) &&
      (startText != "" && endText != "" && f.range.None? ==> f.startText == "" && f.endText == "") &&
      (startText == "" || endText == "" ==> f.startText == startText && f.endText == endText)
  {
    if startText == "" || endText == "" {
      assert Parse(L_Date, startText).None? || Parse(L_Date, endText).None? by {
        if startText == "" { EmptyDoesNotParse(); } else { EmptyDoesNotParse(); }
      }
    }
  }

  lemma EmptyDoesNotParse()
    ensures Parse(L_Date, "") == None
  {
    assert Consume(Year4, NextIsFraction(L_Date[1..]), "", Start).None?;
  }

  /** The range condition on `DATE(update_time)`: present when a range was
    * read and neither end is Go's zero time. */
  function DateConds(f: DateFilter): seq<Cond>
    requires Formattable(f)
  {
    match f.range
    case None => []
    case Some((s, e)) =>
      if s != ZeroTime && e != ZeroTime then [InDays("update_time", FormatDate(s), FormatDate(e))] else []
  }

  /** The conditions the grouped query appends. */
  function GroupConds(f: DateFilter, auditStatus: string): seq<Cond>
    requires Formattable(f)
  {
    DateConds(f) + StatusCodeConds(auditStatus, "audit_status")
  }

  /** The date block of `getStatisticsByDateRange`'s query. */
  method DateWhere(f: DateFilter) returns (whereSQL: seq<Piece>, args: seq<Arg>)
    requires Formattable(f)
    ensures whereSQL == ClauseSql(DateConds(f)) && args == ClauseArgs(DateConds(f))
  {
    whereSQL, args := [Sql(WhereHead)], [];
    if f.range.Some? && f.range.value.0 != ZeroTime && f.range.value.1 != ZeroTime {
      var c := InDays("update_time", FormatDate(f.range.value.0), FormatDate(f.range.value.1));
      whereSQL, args := Append(whereSQL, args, [], c);
      DateCondsOn(f, c);
    }
  }

  lemma DateCondsOn(f: DateFilter, c: Cond)
    requires Formattable(f) && f.range.Some? && f.range.value.0 != ZeroTime && f.range.value.1 != ZeroTime
    requires c == InDays("update_time", FormatDate(f.range.value.0), FormatDate(f.range.value.1))
    ensures DateConds(f) == [] + [c]
  {
  }

  /** The filter part of `getStatisticsByDateRange`'s query. */
  method BuildGroupWhere(f: DateFilter, auditStatus: string) returns (whereSQL: seq<Piece>, args: seq<Arg>)
    requires Formattable(f)
    ensures whereSQL == ClauseSql(GroupConds(f, auditStatus)) && args == ClauseArgs(GroupConds(f, auditStatus))
    ensures Holes(whereSQL) == |args|
  {
    whereSQL, args := DateWhere(f);
    whereSQL, args := AppendStatus(whereSQL, args, DateConds(f), auditStatus, "audit_status");
    ClauseBinds(GroupConds(f, auditStatus));
  }

  /** A parsed range always filters unless the start is 0001-01-01, which
    * Go reads as its zero time: the end date is then dropped too. */
  lemma DateCondsRule(startText: string, endText: string)
    ensures var f := ReadDateFilter(startText, endText);
      DateConds(f) ==
        if f.range.Some? && f.range.value.0 != ZeroTime
        then [InDays("update_time", FormatDate(f.range.value.0), FormatDate(f.range.value.1))]
        else []
  {
  }

  /** An end date is never the zero time: it is set to 23:59:59. */
  lemma EndNeverZero(f: Fields)
    ensures EndOfDay(f) != ZeroTime
  {
  }

  /** "0001-01-01" parses to the zero time. */
  lemma ZeroStartParses()
    ensures Parse(L_Date, "0001-01-01") == Some(ZeroTime)
  {
    var y, m, d := "0001", "01", "01";
    assert "0001-01-01" == y + ['-'] + m + ['-'] + d;
    DigitsValue4(y);
    DigitsValue2(m);
    DigitsValue2(d);
    assert DigitsValue(y) == 1 && DigitsValue(m) == 1 && DigitsValue(d) == 1;
    assert Calendar.ValidDate(1, 1, 1);
    ParseDateShape('-', Month2, '-', Day2, y, '-', m, '-', d);
  }

  /** A range starting on 0001-01-01 filters nothing, whatever its end. */
  lemma ZeroStartDropsRange(endText: string)
    requires Parse(L_Date, endText).Some?
    ensures ReadDateFilter("0001-01-01", endText).range.Some?
    ensures DateConds(ReadDateFilter("0001-01-01", endText)) == []
  {
    ZeroStartParses();
  }

  // ---------------------------------------------------------------------
  // The aggregation

  /** A row of the grouped query. */
  datatype Group = Group(unit: string, pointType: string, count: nat)

  type PointNo = p: int | 1 <= p <= 4 witness 1

  /** A group as the loop reads it: its unit, its point type when the
    * trimmed text is an integer 1–4, and its count. */
  datatype Entry = Entry(unit: string, pointType: Option<PointNo>, count: nat)

  function EntryOf(g: Group): Entry
  {
    var p := AuditStatistics.PointType(g.pointType);
    Entry(g.unit, if p.Some? then Some(p.value as PointNo) else None, g.count)
  }

  function Entries(gs: seq<Group>): (es: seq<Entry>)
    ensures |es| == |gs| && forall i :: 0 <= i < |gs| ==> es[i] == EntryOf(gs[i])
  {
    if |gs| == 0 then [] else Entries(gs[..|gs| - 1]) + [EntryOf(gs[|gs| - 1])]
  }

  /** A row of the table: one count per point type and the unit's total. */
  datatype StatRow = StatRow(unit: string, type1Count: nat, type2Count: nat, type3Count: nat, type4Count: nat, totalCount: nat)

  function Empty(unit: string): StatRow
  {
    StatRow(unit, 0, 0, 0, 0, 0)
  }

  const SummaryUnit: string := "汇总"

  /** The count of point type `p`. */
  function Get(r: StatRow, p: PointNo): nat
  {
    match p
    case 1 => r.type1Count
    case 2 => r.type2Count
    case 3 => r.type3Count
    case 4 => r.type4Count
  }

  /** Sets the count of point type `p`. */
  function Put(r: StatRow, p: PointNo, n: nat): StatRow
  {
    match p
    case 1 => r.(type1Count := n)
    case 2 => r.(type2Count := n)
    case 3 => r.(type3Count := n)
    case 4 => r.(type4Count := n)
  }

  lemma PutGet(r: StatRow, p: PointNo, n: nat, q: PointNo)
    ensures Get(Put(r, p, n), q) == if q == p then n else Get(r, q)
    ensures Put(r, p, n).unit == r.unit && Put(r, p, n).totalCount == r.totalCount
  {
  }

  /** A unit's row after one group: the type's field is overwritten with the
    * group's count, while the total adds it. */
  function Record(r: StatRow, p: PointNo, count: nat): StatRow
  {
    Put(r, p, count).(totalCount := r.totalCount + count)
  }

  /** The summary after one group: the type's field and the total both add
    * the count. */
  function Add(r: StatRow, p: PointNo, count: nat): StatRow
  {
    Put(r, p, Get(r, p) + count).(totalCount := r.totalCount + count)
  }

  /** One group: skipped unless its type is 1–4; otherwise its unit's row is
    * created if missing and the group recorded in it. */
  function Apply(t: map<string, StatRow>, e: Entry): map<string, StatRow>
  {
    match e.pointType
    case None => t
    case Some(p) =>
      var row := if e.unit in t then t[e.unit] else Empty(e.unit);
      t[e.unit := Record(row, p, e.count)]
  }

  function Summed(s: StatRow, e: Entry): StatRow
  {
    match e.pointType
    case None => s
    case Some(p) => Add(s, p, e.count)
  }

  /** The per-unit rows (`statsMap`) after the entries `es`. */
  function Tally(es: seq<Entry>): (t: map<string, StatRow>)
    ensures forall u :: u in t ==> t[u].unit == u
  {
    if |es| == 0 then map[] else Apply(Tally(es[..|es| - 1]), es[|es| - 1])
  }

  /** The summary row after the entries `es`. */
  function SummaryOf(es: seq<Entry>): StatRow
  {
    if |es| == 0 then Empty(SummaryUnit) else Summed(SummaryOf(es[..|es| - 1]), es[|es| - 1])
  }

  // Reference definitions: sums and last values over the accepted entries.

  /** Whether an entry counts toward a sum of units `us` (every unit when
    * None) and type `p` (every type when None). */
  predicate Selected(e: Entry, us: Option<set<string>>, p: Option<PointNo>)
  {
    e.pointType.Some? && (us.None? || e.unit in us.value) && (p.None? || e.pointType == p)
  }

  /** The counts of the selected entries. */
  function Sum(es: seq<Entry>, us: Option<set<string>>, p: Option<PointNo>): nat
  {
    if |es| == 0 then 0
    else Sum(es[..|es| - 1], us, p) + (if Selected(es[|es| - 1], us, p) then es[|es| - 1].count else 0)
  }

  /** The count of the last accepted entry of unit `u` and type `p`, if any. */
  function LastCount(es: seq<Entry>, u: string, p: PointNo): Option<nat>
  {
    if |es| == 0 then None
    else
      var e := es[|es| - 1];
      if e.unit == u && e.pointType == Some(p) then Some(e.count) else LastCount(es[..|es| - 1], u, p)
  }

  /** Some accepted entry belongs to unit `u`. */
  predicate HasUnit(es: seq<Entry>, u: string)
  {
    exists i :: 0 <= i < |es| && es[i].pointType.Some? && es[i].unit == u
  }

  lemma HasUnitSnoc(es: seq<Entry>, u: string)
    requires |es| > 0
    ensures HasUnit(es, u) <==> HasUnit(es[..|es| - 1], u) || (es[|es| - 1].pointType.Some? && es[|es| - 1].unit == u)
  {
    var init := es[..|es| - 1];
    if HasUnit(es, u) && !(es[|es| - 1].pointType.Some? && es[|es| - 1].unit == u) {
      var i :| 0 <= i < |es| && es[i].pointType.Some? && es[i].unit == u;
      assert init[i] == es[i];
    }
    if HasUnit(init, u) {
      var i :| 0 <= i < |init| && init[i].pointType.Some? && init[i].unit == u;
      assert es[i] == init[i];
    }
  }

  lemma Last<T>(s: seq<T>, x: T)
    ensures (s + [x])[..|s|] == s && (s + [x])[|s|] == x
  {
  }

  /** A unit has a row exactly when it has an accepted group. Its total adds
    * all its accepted groups, while each type field holds only the last
    * group of that type. */
  lemma {:induction false} TallyRows(es: seq<Entry>, u: string, p: PointNo)
    ensures u in Tally(es) <==> HasUnit(es, u)
    ensures u in Tally(es) ==> Tally(es)[u].unit == u
    ensures u in Tally(es) ==> Tally(es)[u].totalCount == Sum(es, Some({u}), None)
    ensures u in Tally(es) ==> Get(Tally(es)[u], p) == LastCount(es, u, p).GetOr(0)
    ensures u !in Tally(es) ==> Sum(es, Some({u}), None) == 0 && LastCount(es, u, p).None?
  {
    if |es| > 0 {
      var init, e := es[..|es| - 1], es[|es| - 1];
      TallyRows(init, u, p);
      HasUnitSnoc(es, u);
      if e.pointType.Some? && e.unit == u {
        var row := if u in Tally(init) then Tally(init)[u] else Empty(u);
        PutGet(row, e.pointType.value, e.count, p);
      }
    }
  }

  /** Every summary field adds the counts of all accepted groups. */
  lemma {:induction false} SummaryRows(es: seq<Entry>, p: PointNo)
    ensures SummaryOf(es).unit == SummaryUnit
    ensures SummaryOf(es).totalCount == Sum(es, None, None)
    ensures Get(SummaryOf(es), p) == Sum(es, None, Some(p))
  {
    if |es| > 0 {
      var init, e := es[..|es| - 1], es[|es| - 1];
      SummaryRows(init, p);
      if e.pointType.Some? {
        var q := e.pointType.value;
        PutGet(SummaryOf(init), q, Get(SummaryOf(init), q) + e.count, p);
      }
    }
  }

  /** Any selection's total over all types is the sum over the four types. */
  lemma {:induction false} SumByType(es: seq<Entry>, us: Option<set<string>>)
    ensures Sum(es, us, None) == Sum(es, us, Some(1)) + Sum(es, us, Some(2)) + Sum(es, us, Some(3)) + Sum(es, us, Some(4))
  {
    if |es| > 0 {
      SumByType(es[..|es| - 1], us);
    }
  }

  /** "1" reads as point type 1. */
  lemma PlainTypeOne(unit: string, count: nat)
    ensures EntryOf(Group(unit, "1", count)) == Entry(unit, Some(1), count)
  {
    TrimSpaceUnchanged("1");
    AtoiIntToString(1);
    assert IntToString(1) == "1";
  }

  /** " 1" reads as point type 1: the leading space is trimmed first. */
  lemma SpacedTypeOne(unit: string, count: nat)
    ensures EntryOf(Group(unit, " 1", count)) == Entry(unit, Some(1), count)
  {
    assert TrimSpace(" 1") == "1" by {
      assert LeadingSpaces(" 1") == 1 by { assert " 1"[1..] == "1"; }
      assert " 1"[1..] == "1";
      TrimSpaceUnchanged("1");
    }
    AtoiIntToString(1);
    assert IntToString(1) == "1";
  }

  /** "1" and " 1" both read as point type 1. */
  lemma TypeOne(unit: string, count: nat)
    ensures EntryOf(Group(unit, "1", count)) == Entry(unit, Some(1), count)
    ensures EntryOf(Group(unit, " 1", count)) == Entry(unit, Some(1), count)
  {
    PlainTypeOne(unit, count);
    SpacedTypeOne(unit, count);
  }

  /** Two type-1 entries of one unit: the type-1 field keeps the second
    * count, the total adds both. */
  lemma TallyTwice(u: string, a: nat, b: nat)
    ensures var t := Tally([Entry(u, Some(1), a), Entry(u, Some(1), b)]);
      u in t && t[u].type1Count == b && t[u].totalCount == a + b
    ensures Tally([Entry(u, Some(1), a), Entry(u, Some(1), b)])[u] == StatRow(u, b, 0, 0, 0, a + b)
  {
    var e1, e2 := Entry(u, Some(1), a), Entry(u, Some(1), b);
    var es := [e1, e2];
    assert [e1][..0] == [];
    assert Tally([e1][..0]) == map[];
    var t1 := Tally([e1]);
    assert t1 == Apply(Tally([e1][..0]), e1);
    assert u in t1 && t1[u].type1Count == a && t1[u].totalCount == a;
    assert es[..1] == [e1];
    assert Tally(es) == Apply(t1, e2);
    assert Tally(es)[u] == Record(t1[u], 1, b);
  }

  /** Two groups of one unit whose type texts both read as type 1: the
    * type-1 field shows the second count, the total shows both. */
  lemma TypeOneTwice(u: string, x: string, y: string, a: nat, b: nat)
    requires EntryOf(Group(u, x, a)) == Entry(u, Some(1), a)
    requires EntryOf(Group(u, y, b)) == Entry(u, Some(1), b)
    ensures var t := Tally(Entries([Group(u, x, a), Group(u, y, b)]));
      u in t && t[u].type1Count == b && t[u].totalCount == a + b
  {
    var gs := [Group(u, x, a), Group(u, y, b)];
    var es := Entries(gs);
    assert es[0] == EntryOf(gs[0]) && es[1] == EntryOf(gs[1]);
    assert es == [Entry(u, Some(1), a), Entry(u, Some(1), b)];
    TallyTwice(u, a, b);
  }

  /** Two groups of one unit whose type texts differ only in spaces, in the
    * order the query's `ORDER BY ... monitor_point_type` returns them (the
    * space sorts first): the type-1 field shows the second count, the total
    * shows both. */
  lemma SpacedTypeOverwrites(u: string, a: nat, b: nat)
    ensures var t := Tally(Entries([Group(u, " 1", a), Group(u, "1", b)]));
      u in t && t[u].type1Count == b && t[u].totalCount == a + b
  {
    SpacedTypeOne(u, a);
    PlainTypeOne(u, b);
    TypeOneTwice(u, " 1", "1", a, b);
  }

  /** As written, a unit whose type-1 groups are stored as " 1" and "1"
    * (returned in that order) shows a total that is not the sum of its
    * type fields. */
  lemma SpacedTypeUnbalanced(u: string, a: nat, b: nat)
    requires a > 0
    ensures var r := Tally(Entries([Group(u, " 1", a), Group(u, "1", b)]))[u];
      r.totalCount != r.type1Count + r.type2Count + r.type3Count + r.type4Count
  {
    var gs := [Group(u, " 1", a), Group(u, "1", b)];
    SpacedTypeOne(u, a);
    PlainTypeOne(u, b);
    assert Entries(gs)[0] == EntryOf(gs[0]) && Entries(gs)[1] == EntryOf(gs[1]);
    assert Entries(gs) == [Entry(u, Some(1), a), Entry(u, Some(1), b)];
    TallyTwice(u, a, b);
  }

  /** The unit rows as evidently intended: like the summary, a group adds
    * its count to its type's field instead of overwriting it. */
  function ApplyIntended(t: map<string, StatRow>, e: Entry): map<string, StatRow>
  {
    match e.pointType
    case None => t
    case Some(p) =>
      var row := if e.unit in t then t[e.unit] else Empty(e.unit);
      t[e.unit := Add(row, p, e.count)]
  }

  function TallyIntended(es: seq<Entry>): (t: map<string, StatRow>)
    ensures forall u :: u in t ==> t[u].unit == u
  {
    if |es| == 0 then map[] else ApplyIntended(TallyIntended(es[..|es| - 1]), es[|es| - 1])
  }

  /** Under the corrected tally a unit has a row exactly when it has an
    * accepted group, and every field of the row sums that unit's groups. */
  lemma {:induction false} IntendedRows(es: seq<Entry>, u: string, p: PointNo)
    ensures u in TallyIntended(es) <==> HasUnit(es, u)
    ensures u in TallyIntended(es) ==> TallyIntended(es)[u].unit == u
    ensures u in TallyIntended(es) ==> TallyIntended(es)[u].totalCount == Sum(es, Some({u}), None)
    ensures u in TallyIntended(es) ==> Get(TallyIntended(es)[u], p) == Sum(es, Some({u}), Some(p))
    ensures u !in TallyIntended(es) ==> Sum(es, Some({u}), None) == 0 && Sum(es, Some({u}), Some(p)) == 0
  {
    if |es| > 0 {
      var init, e := es[..|es| - 1], es[|es| - 1];
      IntendedRows(init, u, p);
      HasUnitSnoc(es, u);
      if e.pointType.Some? && e.unit == u {
        var row := if u in TallyIntended(init) then TallyIntended(init)[u] else Empty(u);
        PutGet(row, e.pointType.value, Get(row, e.pointType.value) + e.count, p);
      }
    }
  }

  /** Under the corrected tally a unit's total is always the sum of its type
    * fields, whatever texts the types were stored as. */
  lemma IntendedTotals(es: seq<Entry>, u: string)
    requires u in TallyIntended(es)
    ensures var r := TallyIntended(es)[u]; r.totalCount == r.type1Count + r.type2Count + r.type3Count + r.type4Count
  {
    IntendedRows(es, u, 1);
    IntendedRows(es, u, 2);
    IntendedRows(es, u, 3);
    IntendedRows(es, u, 4);
    SumByType(es, Some({u}));
  }

  /** The two tallies agree whenever no unit has two groups of one type. */
  lemma IntendedAgreesWhenDistinct(es: seq<Entry>, u: string)
    requires Distinct(es) && u in Tally(es)
    ensures u in TallyIntended(es) && TallyIntended(es)[u] == Tally(es)[u]
  {
    var r, q := Tally(es)[u], TallyIntended(es)[u];
    forall p: PointNo ensures Get(q, p) == Get(r, p) {
      TallyRows(es, u, p);
      IntendedRows(es, u, p);
      DistinctSums(es, u, p);
    }
    TallyRows(es, u, 1);
    IntendedRows(es, u, 1);
    assert Get(q, 1) == Get(r, 1) && Get(q, 2) == Get(r, 2) && Get(q, 3) == Get(r, 3) && Get(q, 4) == Get(r, 4);
  }

  /** No two accepted groups of one unit share a type: what the grouping
    * guarantees when the stored type texts are already trimmed numbers. */
  predicate Distinct(es: seq<Entry>)
  {
    forall i, j :: 0 <= i < j < |es| && es[i].unit == es[j].unit && es[i].pointType.Some? ==> es[i].pointType != es[j].pointType
  }

  /** With distinct groups each type field is the sum of its groups. */
  lemma {:induction false} DistinctSums(es: seq<Entry>, u: string, p: PointNo)
    requires Distinct(es)
    ensures LastCount(es, u, p).GetOr(0) == Sum(es, Some({u}), Some(p))
  {
    if |es| > 0 {
      var init, e := es[..|es| - 1], es[|es| - 1];
      assert Distinct(init) by {
        assert forall i :: 0 <= i < |init| ==> init[i] == es[i];
      }
      DistinctSums(init, u, p);
      if e.unit == u && e.pointType == Some(p) {
        forall i | 0 <= i < |init| ensures !(init[i].unit == u && init[i].pointType == Some(p)) {
          assert init[i] == es[i];
        }
        SumNone(init, u, p);
      }
    }
  }

  lemma {:induction false} SumNone(es: seq<Entry>, u: string, p: PointNo)
    requires forall i :: 0 <= i < |es| ==> !(es[i].unit == u && es[i].pointType == Some(p))
    ensures Sum(es, Some({u}), Some(p)) == 0
  {
    if |es| > 0 {
      var init := es[..|es| - 1];
      assert forall i :: 0 <= i < |init| ==> init[i] == es[i];
      SumNone(init, u, p);
    }
  }

  /** With distinct groups a unit's total is the sum of its type fields. */
  lemma DistinctTotals(es: seq<Entry>, u: string)
    requires Distinct(es) && u in Tally(es)
    ensures var r := Tally(es)[u]; r.totalCount == r.type1Count + r.type2Count + r.type3Count + r.type4Count
  {
    TallyRows(es, u, 1);
    TallyRows(es, u, 2);
    TallyRows(es, u, 3);
    TallyRows(es, u, 4);
    DistinctSums(es, u, 1);
    DistinctSums(es, u, 2);
    DistinctSums(es, u, 3);
    DistinctSums(es, u, 4);
    SumByType(es, Some({u}));
  }

  /** The summary's total is always the sum of its type fields. */
  lemma SummaryTotals(es: seq<Entry>)
    ensures var s := SummaryOf(es); s.totalCount == s.type1Count + s.type2Count + s.type3Count + s.type4Count
  {
    SummaryRows(es, 1);
    SummaryRows(es, 2);
    SummaryRows(es, 3);
    SummaryRows(es, 4);
    SumByType(es, None);
  }

  // ---------------------------------------------------------------------
  // The methods

  /** One group of the loop: the type read from the trimmed text, groups
    * of other types skipped. */
  method AddGroup(statsMap0: map<string, StatRow>, summary0: StatRow, g: Group)
    returns (statsMap: map<string, StatRow>, summary: StatRow)
    ensures statsMap == Apply(statsMap0, EntryOf(g)) && summary == Summed(summary0, EntryOf(g))
  {
    var pointType := Atoi(TrimSpace(g.pointType));
    if pointType.None? || pointType.value < 1 || pointType.value > 4 {
      assert EntryOf(g).pointType == None;
      return statsMap0, summary0;
    }
    var p: PointNo := pointType.value;
    assert EntryOf(g) == Entry(g.unit, Some(p), g.count);
    statsMap, summary := RecordGroup(statsMap0, summary0, g.unit, p, g.count);
  }

  /** A group of type `p`: its unit's row is created if missing, the type's
    * field overwritten, the summary's added to, and both totals added to. */
  method RecordGroup(statsMap0: map<string, StatRow>, summary0: StatRow, unit: string, p: PointNo, count: nat)
    returns (statsMap: map<string, StatRow>, summary: StatRow)
    ensures statsMap == Apply(statsMap0, Entry(unit, Some(p), count))
    ensures summary == Summed(summary0, Entry(unit, Some(p), count))
  {
    statsMap, summary := statsMap0, summary0;
    if unit !in statsMap {
      statsMap := statsMap[unit := Empty(unit)];
    }
    var row := statsMap[unit];
    if p == 1 {
      row := row.(type1Count := count);
      summary := summary.(type1Count := summary.type1Count + count);
    } else if p == 2 {
      row := row.(type2Count := count);
      summary := summary.(type2Count := summary.type2Count + count);
    } else if p == 3 {
      row := row.(type3Count := count);
      summary := summary.(type3Count := summary.type3Count + count);
    } else {
      row := row.(type4Count := count);
      summary := summary.(type4Count := summary.type4Count + count);
    }
    row := row.(totalCount := row.totalCount + count);
    summary := summary.(totalCount := summary.totalCount + count);
    statsMap := statsMap[unit := row];
  }

  /** `getStatisticsByDateRange` after the query: the loop over the groups
    * and the conversion of the map to a slice, in no particular order. A
    * failed query gives no rows and an empty summary; a group whose scan
    * fails (a NULL unit or point type) is skipped. */
  method GetStatisticsByDateRange(groups: Option<seq<Option<Group>>>) returns (stats: seq<StatRow>, summary: StatRow)
    ensures groups.None? ==> stats == [] && summary == Empty(SummaryUnit)
    ensures groups.Some? ==> summary == SummaryOf(Entries(Scanned(groups.value)))
    ensures groups.Some? ==> (set k | 0 <= k < |stats| :: stats[k].unit) == Tally(Entries(Scanned(groups.value))).Keys
    ensures groups.Some? ==> forall k :: 0 <= k < |stats| ==> stats[k] == Tally(Entries(Scanned(groups.value)))[stats[k].unit]
    ensures forall k, l :: 0 <= k < l < |stats| ==> stats[k].unit != stats[l].unit
  {
    if groups.None? {
      return [], Empty(SummaryUnit);
    }
    var gs := groups.value;
    var statsMap: map<string, StatRow> := map[];
    summary := Empty(SummaryUnit);
    var i := 0;
    ghost var seen: seq<Group> := [];
    ghost var es: seq<Entry> := [];
    while i < |gs|
      invariant 0 <= i <= |gs|
      invariant seen == Scanned(gs[..i]) && es == Entries(seen)
      invariant statsMap == Tally(es) && summary == SummaryOf(es)
    {
      ScannedStep(gs, i);
      if gs[i].Some? {
        var g := gs[i].value;
        EntriesSnoc(seen, g);
        Last(es, EntryOf(g));
        statsMap, summary := AddGroup(statsMap, summary, g);
        seen, es := seen + [g], es + [EntryOf(g)];
      }
      i := i + 1;
    }
    assert gs[..i] == gs;
    forall u | u in statsMap ensures statsMap[u].unit == u {
      TallyRows(Entries(Scanned(gs)), u, 1);
    }
    stats := Rows(statsMap);
  }

  lemma EntriesSnoc(seen: seq<Group>, g: Group)
    ensures Entries(seen + [g]) == Entries(seen) + [EntryOf(g)]
  {
    assert (seen + [g])[..|seen|] == seen;
  }

  /** `for _, stat := range statsMap { stats = append(stats, *stat) }`. */
  method Rows(statsMap: map<string, StatRow>) returns (stats: seq<StatRow>)
    requires forall u :: u in statsMap ==> statsMap[u].unit == u
    ensures (set k | 0 <= k < |stats| :: stats[k].unit) == statsMap.Keys
    ensures forall k :: 0 <= k < |stats| ==> stats[k].unit in statsMap && stats[k] == statsMap[stats[k].unit]
    ensures forall k, l :: 0 <= k < l < |stats| ==> stats[k].unit != stats[l].unit
  {
    stats := [];
    var units := statsMap.Keys;
    while units != {}
      invariant units <= statsMap.Keys
      invariant (set k | 0 <= k < |stats| :: stats[k].unit) == statsMap.Keys - units
      invariant forall k :: 0 <= k < |stats| ==> stats[k].unit in statsMap && stats[k] == statsMap[stats[k].unit]
      invariant forall k, l :: 0 <= k < l < |stats| ==> stats[k].unit != stats[l].unit
      decreases units
    {
      var u :| u in units;
      ghost var before := stats;
      assert forall k :: 0 <= k < |before| ==> before[k].unit != u by {
        forall k | 0 <= k < |before| ensures before[k].unit != u {
          assert before[k].unit in (set k | 0 <= k < |before| :: before[k].unit);
        }
      }
      stats := stats + [statsMap[u]];
      assert (set k | 0 <= k < |stats| :: stats[k].unit) == (set k | 0 <= k < |before| :: before[k].unit) + {u} by {
        assert stats[|before|].unit == u;
        forall k | 0 <= k < |before| ensures stats[k] == before[k] { }
      }
      units := units - {u};
    }
  }

  // ---------------------------------------------------------------------
  // The export's raw-query fallback

  /** The export parameters. */
  datatype Params = Params(startDate: string, endDate: string, auditStatus: string)

  /** The parameter keys. */
  datatype Key = StartDate | EndDate | AuditStatus

  function Name(key: Key): string
  {
    match key
    case StartDate => "start_date"
    case EndDate => "end_date"
    case AuditStatus => "audit_status"
  }

  /** The parameter a raw key names, if any. */
  function KeyOf(k: string): (r: Option<Key>)
    ensures r.Some? ==> Name(r.value) == k
  {
    if k == "start_date" then Some(StartDate)
    else if k == "end_date" then Some(EndDate)
    else if k == "audit_status" then Some(AuditStatus)
    else None
  }

  /** Lower-case letters and underscores only. */
  predicate Word(s: string)
  {
    forall i :: 0 <= i < |s| ==> ('a' <= s[i] <= 'z') || s[i] == '_'
  }

  /** A non-empty word can be written before an '=' and read back. */
  lemma WordIsPlain(s: string)
    requires Word(s) && s != []
    ensures '=' !in s && '&' !in s && '%' !in s && TrimSpace(s) == s
  {
    TrimSpaceUnchanged(s);
  }

  /** Each key name is read back as its key, and can be written before an
    * '=' without being trimmed or split. */
  lemma KeyName(key: Key)
    ensures KeyOf(Name(key)) == Some(key)
    ensures '=' !in Name(key) && TrimSpace(Name(key)) == Name(key)
    ensures '&' !in Name(key) && '%' !in Name(key)
  {
    var n := Name(key);
    assert Word(n) && n != [];
    assert n[0] == 's' || n[0] == 'e' || n[0] == 'a';
    WordIsPlain(n);
  }

  /** The elements of the page's query string hold no '&' and no '%'. */
  lemma ElementFree(key: Key, v: string)
    requires '&' !in v && '%' !in v
    ensures forall x :: x in Element(key, v) ==> '&' !in x && '%' !in x
  {
    KeyName(key);
  }

  lemma PageParamsFree(f: Params)
    requires Plain(f.startDate) && Plain(f.endDate) && Plain(f.auditStatus)
    ensures forall i :: 0 <= i < |PageParams(f)| ==> '&' !in PageParams(f)[i] && '%' !in PageParams(f)[i]
  {
    ElementFree(StartDate, f.startDate);
    ElementFree(EndDate, f.endDate);
    ElementFree(AuditStatus, f.auditStatus);
    var ps := PageParams(f);
    forall i | 0 <= i < |ps| ensures '&' !in ps[i] && '%' !in ps[i] {
      assert ps[i] in ps;
    }
  }

  function Field(p: Params, key: Key): string
  {
    match key
    case StartDate => p.startDate
    case EndDate => p.endDate
    case AuditStatus => p.auditStatus
  }

  function With(p: Params, key: Key, v: string): (q: Params)
    ensures forall k :: Field(q, k) == if k == key then v else Field(p, k)
  {
    match key
    case StartDate => p.(startDate := v)
    case EndDate => p.(endDate := v)
    case AuditStatus => p.(auditStatus := v)
  }

  /** Parameters agree when every field does. */
  lemma FieldsEqual(p: Params, q: Params)
    requires Field(p, StartDate) == Field(q, StartDate) && Field(p, EndDate) == Field(q, EndDate)
    requires Field(p, AuditStatus) == Field(q, AuditStatus)
    ensures p == q
  {
  }

  /** One element of the raw query: a known key overwrites its parameter. */
  function Assign(p: Params, part: string): Params
  {
    match Pair(part)
    case None => p
    case Some((k, v)) =>
      match KeyOf(k)
      case Some(key) => With(p, key, v)
      case None => p
  }

  function AssignAll(p: Params, parts: seq<string>): Params
  {
    if |parts| == 0 then p else Assign(AssignAll(p, parts[..|parts| - 1]), parts[|parts| - 1])
  }

  /** The fallback: only when all three parameters came back empty and the
    * raw query is not, with "%3d"/"%3D" read as '=' and '&' separating
    * the elements. */
  function Fallback(p: Params, raw: string): Params
  {
    if p.startDate == "" && p.endDate == "" && p.auditStatus == "" && raw != "" then
      AssignAll(p, Split(ReplaceAll(ReplaceAll(raw, "%3d", "="), "%3D", "="), '&'))
    else p
  }

  method ExportParams(p: Params, raw: string) returns (q: Params)
    ensures q == Fallback(p, raw)
  {
    q := p;
    if p.startDate == "" && p.endDate == "" && p.auditStatus == "" && raw != "" {
      var rawQuery := ReplaceAll(raw, "%3d", "=");
      rawQuery := ReplaceAll(rawQuery, "%3D", "=");
      var parts := Split(rawQuery, '&');
      var i := 0;
      while i < |parts|
        invariant 0 <= i <= |parts|
        invariant q == AssignAll(p, parts[..i])
      {
        AssignAllSnoc(p, parts, i);
        q := AssignPart(q, parts[i]);
        i := i + 1;
      }
      assert parts[..i] == parts;
    }
  }

  lemma AssignAllSnoc(p: Params, parts: seq<string>, i: nat)
    requires i < |parts|
    ensures AssignAll(p, parts[..i + 1]) == Assign(AssignAll(p, parts[..i]), parts[i])
  {
    assert parts[..i + 1][..i] == parts[..i];
  }

  /** The loop body: split at the first '=', trim, and set the parameter the
    * key names. */
  method AssignPart(q0: Params, part: string) returns (q: Params)
    ensures q == Assign(q0, part)
  {
    q := q0;
    if '=' in part {
      var kv := SplitOnce(part, '=');
      var key, value := TrimSpace(kv[0]), TrimSpace(kv[1]);
      if key == "start_date" {
        q := q.(startDate := value);
      } else if key == "end_date" {
        q := q.(endDate := value);
      } else if key == "audit_status" {
        q := q.(auditStatus := value);
      }
    }
  }

  /** The value of the last element with key `key`, if any. */
  function LastValue(parts: seq<string>, key: Key): Option<string>
  {
    if |parts| == 0 then None
    else
      match Pair(parts[|parts| - 1])
      case Some((k, v)) => if KeyOf(k) == Some(key) then Some(v) else LastValue(parts[..|parts| - 1], key)
      case None => LastValue(parts[..|parts| - 1], key)
  }

  /** Later occurrences win: each parameter is the last value given for its
    * key, and keeps its old value when the key is absent. */
  lemma {:induction false} LastWins(p: Params, parts: seq<string>, key: Key)
    ensures Field(AssignAll(p, parts), key) == LastValue(parts, key).GetOr(Field(p, key))
  {
    if |parts| > 0 {
      LastWins(p, parts[..|parts| - 1], key);
    }
  }

  lemma LastValueAppend(a: seq<string>, b: seq<string>, key: Key)
    ensures LastValue(a + b, key) == if LastValue(b, key).Some? then LastValue(b, key) else LastValue(a, key)
    decreases |b|
  {
    if |b| > 0 {
      assert (a + b)[..|a + b| - 1] == a + b[..|b| - 1];
      LastValueAppend(a, b[..|b| - 1], key);
    } else {
      assert a + b == a;
    }
  }

  /** The part of the page's query string that one parameter writes. */
  function Element(key: Key, v: string): seq<string>
  {
    if v != "" then [Name(key) + "=" + v] else []
  }

  /** The page's own query string (`Handler`): the non-empty parameters in
    * the order start_date, end_date, audit_status, joined by '&'. */
  function PageParams(f: Params): seq<string>
  {
    Element(StartDate, f.startDate) + Element(EndDate, f.endDate) + Element(AuditStatus, f.auditStatus)
  }

  /** A value the page can write into its query and read back. */
  predicate Plain(v: string)
  {
    '&' !in v && '%' !in v && TrimSpace(v) == v
  }

  /** One parameter's element gives its value for its own key only. */
  lemma ElementValue(k: Key, v: string, key: Key)
    requires TrimSpace(v) == v
    ensures LastValue(Element(k, v), key) == if key == k && v != "" then Some(v) else None
  {
    if v != "" {
      KeyName(k);
      PairOf(Name(k), v);
      LastValueOne(Name(k) + "=" + v, key);
    }
  }

  /** A query string of one element. */
  lemma LastValueOne(part: string, key: Key)
    ensures LastValue([part], key) ==
      match Pair(part)
      case Some((k, v)) => if KeyOf(k) == Some(key) then Some(v) else None
      case None => None
  {
    assert [part][..0] == [];
  }

  /** The last value of one key in the page's query string. */
  lemma PageLastValue(f: Params, key: Key)
    requires Plain(f.startDate) && Plain(f.endDate) && Plain(f.auditStatus)
    ensures LastValue(PageParams(f), key) == if Field(f, key) != "" then Some(Field(f, key)) else None
  {
    var a, b, c := Element(StartDate, f.startDate), Element(EndDate, f.endDate), Element(AuditStatus, f.auditStatus);
    ElementValue(StartDate, f.startDate, key);
    ElementValue(EndDate, f.endDate, key);
    ElementValue(AuditStatus, f.auditStatus, key);
    LastValueAppend(a + b, c, key);
    LastValueAppend(a, b, key);
  }

  /** A query string joined from elements free of '&' and '%' splits back
    * into them. */
  lemma FallbackSplits(ps: seq<string>)
    requires |ps| >= 1 && ps[0] != ""
    requires forall i :: 0 <= i < |ps| ==> '&' !in ps[i] && '%' !in ps[i]
    ensures Join(ps, '&') != ""
    ensures Split(ReplaceAll(ReplaceAll(Join(ps, '&'), "%3d", "="), "%3D", "="), '&') == ps
  {
    var raw := Join(ps, '&');
    JoinFree(ps, '%');
    JoinNonEmpty(ps, '&');
    ReplaceAllAbsent(raw, "%3d", "=");
    ReplaceAllAbsent(raw, "%3D", "=");
    SplitJoin(ps, '&');
  }

  /** Assigning the page's own elements to empty parameters recovers them. */
  lemma AssignPage(f: Params)
    requires Plain(f.startDate) && Plain(f.endDate) && Plain(f.auditStatus)
    ensures AssignAll(Params("", "", ""), PageParams(f)) == f
  {
    var none, ps := Params("", "", ""), PageParams(f);
    PageLastValue(f, StartDate);
    PageLastValue(f, EndDate);
    PageLastValue(f, AuditStatus);
    LastWins(none, ps, StartDate);
    LastWins(none, ps, EndDate);
    LastWins(none, ps, AuditStatus);
    FieldsEqual(AssignAll(none, ps), f);
  }

  /** Reading back the page's own query string through the fallback
    * recovers the parameters. */
  lemma FallbackReadsPageQuery(f: Params)
    requires Plain(f.startDate) && Plain(f.endDate) && Plain(f.auditStatus)
    ensures Fallback(Params("", "", ""), Join(PageParams(f), '&')) == f
  {
    var ps := PageParams(f);
    if ps != [] {
      PageParamsFree(f);
      FallbackSplits(ps);
      AssignPage(f);
    }
  }

  lemma {:induction false} JoinFree(parts: seq<string>, c: char)
    requires forall i :: 0 <= i < |parts| ==> c !in parts[i]
    requires c != '&'
    ensures c !in Join(parts, '&')
  {
    if |parts| > 1 {
      JoinFree(parts[1..], c);
    }
  }

  lemma JoinNonEmpty(parts: seq<string>, sep: char)
    requires |parts| >= 1 && parts[0] != ""
    ensures Join(parts, sep) != ""
  {
  }
}
