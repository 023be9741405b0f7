/** The monthly archive statistics (`getStatistics` of the audit statistics
  * page): device rows are classified into video, face and vehicle counters
  * per point type 1–4, checkpoint rows add vehicles, every unit gets a row
  * with its totals, the rows are sorted by unit, and a summary row carries the
  * column sums. The rows of the two queries arrive as parameters; a failed
  * device query is `None` and empties the page, a failed checkpoint query is
  * `None` and is only skipped. */
module AuditStatistics {
  import opened Wrappers
  import opened Text

  datatype Kind = Video | Face | Vehicle

  /** A counter of a statistics row: a point type with a kind, or the
    * single-soldier column. */
  datatype Cell = Typed(pointType: int, kind: Kind) | SingleSoldier

  /** A row of the table: the unit, for each point type 1–4 its video, face
    * and vehicle counters and their total, the single-soldier column and the
    * totals over the types. */
  datatype StatRow = StatRow(
    unit: string,
    type1Video: nat, type1Face: nat, type1Vehicle: nat, type1Total: nat,
    type2Video: nat, type2Face: nat, type2Vehicle: nat, type2Total: nat,
    type3Video: nat, type3Face: nat, type3Vehicle: nat, type3Total: nat,
    type4Video: nat, type4Face: nat, type4Vehicle: nat, type4Total: nat,
    singleSoldier: nat,
    totalVideo: nat, totalFace: nat, totalVehicle: nat, grandTotal: nat)

  /** A fresh row: every counter 0. */
  function Empty(unit: string): StatRow
  {
    StatRow(unit, 0, 0, 0, 0, 0, 0, 0, 0, 0, 0, 0, 0, 0, 0, 0, 0, 0, 0, 0, 0, 0)
  }

  const SummaryUnit: string := "汇总"

  /** A counter with a column: point types 1 to 4 and the single soldiers. */
  predicate Column(c: Cell)
  {
    c.Typed? ==> 1 <= c.pointType <= 4
  }

  /** The column of the row that holds counter `c` (0 when there is none). */
  function Get(r: StatRow, c: Cell): nat
  {
    match c
    case SingleSoldier => r.singleSoldier
    case Typed(p, k) =>
      if p == 1 then (match k case Video => r.type1Video case Face => r.type1Face case Vehicle => r.type1Vehicle)
      else if p == 2 then (match k case Video => r.type2Video case Face => r.type2Face case Vehicle => r.type2Vehicle)
      else if p == 3 then (match k case Video => r.type3Video case Face => r.type3Face case Vehicle => r.type3Vehicle)
      else if p == 4 then (match k case Video => r.type4Video case Face => r.type4Face case Vehicle => r.type4Vehicle)
      else 0
  }

  /** The `++` of one counter. */
  function Bump(r: StatRow, c: Cell): StatRow
  {
    match c
    case SingleSoldier => r.(singleSoldier := r.singleSoldier + 1)
    case Typed(p, k) =>
      if p == 1 then
        (match k
         case Video => r.(type1Video := r.type1Video + 1)
         case Face => r.(type1Face := r.type1Face + 1)
         case Vehicle => r.(type1Vehicle := r.type1Vehicle + 1))
      else if p == 2 then
        (match k
         case Video => r.(type2Video := r.type2Video + 1)
         case Face => r.(type2Face := r.type2Face + 1)
         case Vehicle => r.(type2Vehicle := r.type2Vehicle + 1))
      else if p == 3 then
        (match k
         case Video => r.(type3Video := r.type3Video + 1)
         case Face => r.(type3Face := r.type3Face + 1)
         case Vehicle => r.(type3Vehicle := r.type3Vehicle + 1))
      else if p == 4 then
        (match k
         case Video => r.(type4Video := r.type4Video + 1)
         case Face => r.(type4Face := r.type4Face + 1)
         case Vehicle => r.(type4Vehicle := r.type4Vehicle + 1))
      else r
  }

  /** Bumping adds one to that counter, leaves every other counter and the
    * unit, and does not touch the totals. */
  lemma BumpGet(r: StatRow, c: Cell, d: Cell)
    ensures Get(Bump(r, c), d) == Get(r, d) + (if c == d && Column(c) then 1 else 0)
    ensures Bump(r, c).unit == r.unit
  {
    match c
    case SingleSoldier =>
    case Typed(p, k) =>
      if 1 <= p <= 4 {
        match k
        case Video =>
        case Face =>
        case Vehicle =>
      }
  }

  /** The totals pass: type totals add the three kinds, type 4 without
    * vehicles; the kind totals add the types, vehicles of types 1–3 only;
    * the grand total adds the type totals and the single-soldier column. */
  function WithTotals(r: StatRow): StatRow
  {
    var t1 := r.type1Video + r.type1Face + r.type1Vehicle;
    var t2 := r.type2Video + r.type2Face + r.type2Vehicle;
    var t3 := r.type3Video + r.type3Face + r.type3Vehicle;
    var t4 := r.type4Video + r.type4Face;
    r.(type1Total := t1, type2Total := t2, type3Total := t3, type4Total := t4,
       totalVideo := r.type1Video + r.type2Video + r.type3Video + r.type4Video,
       totalFace := r.type1Face + r.type2Face + r.type3Face + r.type4Face,
       totalVehicle := r.type1Vehicle + r.type2Vehicle + r.type3Vehicle,
       grandTotal := t1 + t2 + t3 + t4 + r.singleSoldier)
  }


  /** A row of the device query: unit, point type text, camera function type
    * (NULL as None) and the single-soldier flag. */
  datatype DeviceRow = DeviceRow(unit: string, pointType: string, functionType: Option<string>, singleSoldier: int)

  /** A row of the checkpoint query: unit and point type (NULL as None). */
  datatype CheckpointRow = CheckpointRow(unit: string, pointType: Option<string>)

  /** The point type once trimmed, when it reads as an integer from 1 to 4. */
  function PointType(text: string): (r: Option<int>)
    ensures r.Some? ==> 1 <= r.value <= 4 && Atoi(TrimSpace(text)) == r
    ensures r.None? ==> match Atoi(TrimSpace(text)) case Some(n) => n < 1 || n > 4 case None => true
  {
    match Atoi(TrimSpace(text))
    case Some(n) => if n < 1 || n > 4 then None else Some(n)
    case None => None
  }

  /** Some element of the comma-separated list, trimmed, is `code`. */
  predicate HasCode(parts: seq<string>, code: string)
  {
    exists j :: 0 <= j < |parts| && TrimSpace(parts[j]) == code
  }

  lemma HasCodeStep(parts: seq<string>, i: nat, code: string)
    requires i < |parts|
    ensures HasCode(parts[..i + 1], code) <==> HasCode(parts[..i], code) || TrimSpace(parts[i]) == code
  {
    assert parts[..i + 1][i] == parts[i];
    assert forall j :: 0 <= j < i ==> parts[..i + 1][j] == parts[..i][j];
  }

  /** The camera function type decides one kind: an element "1" makes a
    * vehicle, otherwise an element "2" a face, anything else (NULL and empty
    * included) a video. */
  function KindOf(functionType: Option<string>): Kind
  {
    match functionType
    case None => Video
    case Some(t) =>
      if t == "" then Video
      else
        var parts := Split(t, ',');
        if HasCode(parts, "1") then Vehicle else if HasCode(parts, "2") then Face else Video
  }

  /** The `has1`/`has2` scan over the comma-separated function type. */
  method Classify(functionType: Option<string>) returns (k: Kind)
    ensures k == KindOf(functionType)
  {
    if functionType.Some? && functionType.value != "" {
      var parts := Split(functionType.value, ',');
      var has1, has2 := false, false;
      var i := 0;
      while i < |parts|
        invariant 0 <= i <= |parts|
        invariant has1 <==> HasCode(parts[..i], "1")
        invariant has2 <==> HasCode(parts[..i], "2")
      {
        var part := TrimSpace(parts[i]);
        HasCodeStep(parts, i, "1");
        HasCodeStep(parts, i, "2");
        if part == "1" {
          has1 := true;
        }
        if part == "2" {
          has2 := true;
        }
        i := i + 1;
      }
      assert parts[..i] == parts;
      if has1 {
        k := Vehicle;
      } else if has2 {
        k := Face;
      } else {
        k := Video;
      }
    } else {
      k := Video;
    }
  }

  /** An element "1" anywhere makes a vehicle, even beside a "2". */
  lemma VehicleBeforeFace()
    ensures KindOf(Some("2,1")) == Vehicle
  {
    var parts := Split("2,1", ',');
    assert "2,1" == "2" + [','] + "1";
    SplitPair("2", "1", ',');
    TrimSpaceUnchanged("1");
    assert TrimSpace(parts[1]) == "1";
  }

  /** Membership is per element, not per character: "12" is a video. */
  lemma WholeElementsOnly()
    ensures KindOf(Some("12")) == Video
  {
    var parts := Split("12", ',');
    SplitNone("12", ',');
    TrimSpaceUnchanged("12");
    assert TrimSpace(parts[0]) == "12";
  }

  /** The counter a device row increments, if any: a single-soldier row only
    * its own column; otherwise a point type 1–4 with its kind, except that a
    * type-4 vehicle is counted nowhere. */
  function DeviceCell(r: DeviceRow): Option<Cell>
  {
    if r.singleSoldier == 1 then Some(SingleSoldier)
    else
      match PointType(r.pointType)
      case None => None
      case Some(p) =>
        var k := KindOf(r.functionType);
        if p == 4 && k == Vehicle then None else Some(Typed(p, k))
  }

  /** A checkpoint row only opens its unit's row when its type is 1–4. */
  predicate CheckpointOpens(r: CheckpointRow)
  {
    r.pointType.Some? && r.pointType.value != "" && PointType(r.pointType.value).Some?
  }

  /** The counter a checkpoint row increments: a vehicle of types 1–3. */
  function CheckpointCell(r: CheckpointRow): Option<Cell>
  {
    if !CheckpointOpens(r) then None
    else
      var p := PointType(r.pointType.value).value;
      if p == 4 then None else Some(Typed(p, Vehicle))
  }

  /** What one row does: the unit whose row it opens (device rows always open
    * theirs, even when skipped afterwards) and the counter it increments. */
  datatype Hit = Hit(unit: string, opens: bool, cell: Option<Cell>)

  function DeviceHit(r: DeviceRow): Hit { Hit(r.unit, true, DeviceCell(r)) }
  function CheckpointHit(r: CheckpointRow): Hit { Hit(r.unit, CheckpointOpens(r), CheckpointCell(r)) }

  predicate ValidCell(c: Cell)
  {
    c.Typed? ==> 1 <= c.pointType <= 4 && c != Typed(4, Vehicle)
  }

  /** Every hit that counts opens its unit and names a real counter. */
  predicate WellFormed(hs: seq<Hit>)
  {
    forall i :: 0 <= i < |hs| && hs[i].cell.Some? ==> hs[i].opens && ValidCell(hs[i].cell.value)
  }

  function DeviceHits(rows: seq<DeviceRow>): (hs: seq<Hit>)
    ensures |hs| == |rows| && forall i :: 0 <= i < |rows| ==> hs[i] == DeviceHit(rows[i])
  {
    if |rows| == 0 then [] else DeviceHits(rows[..|rows| - 1]) + [DeviceHit(rows[|rows| - 1])]
  }

  function CheckpointHits(rows: seq<CheckpointRow>): (hs: seq<Hit>)
    ensures |hs| == |rows| && forall i :: 0 <= i < |rows| ==> hs[i] == CheckpointHit(rows[i])
  {
    if |rows| == 0 then [] else CheckpointHits(rows[..|rows| - 1]) + [CheckpointHit(rows[|rows| - 1])]
  }

  /** Both queries' rows in the order the handler reads them. */
  function Hits(devices: seq<DeviceRow>, checkpoints: Option<seq<CheckpointRow>>): (hs: seq<Hit>)
    ensures |hs| == |devices| + (if checkpoints.Some? then |checkpoints.value| else 0)
    ensures forall i :: 0 <= i < |devices| ==> hs[i] == DeviceHit(devices[i])
    ensures checkpoints.Some? ==> forall i :: 0 <= i < |checkpoints.value| ==> hs[|devices| + i] == CheckpointHit(checkpoints.value[i])
  {
    DeviceHits(devices) + (if checkpoints.Some? then CheckpointHits(checkpoints.value) else [])
  }

  lemma HitsWellFormed(devices: seq<DeviceRow>, checkpoints: Option<seq<CheckpointRow>>)
    ensures WellFormed(Hits(devices, checkpoints))
  {
  }

  // ---------------------------------------------------------------------
  // The counters the loops accumulate

  /** The counters of `start` after the rows `hs`: one increment per counted
    * row. */
  function Fold(start: StatRow, hs: seq<Hit>): StatRow
  {
    if |hs| == 0 then start else Count(Fold(start, hs[..|hs| - 1]), hs[|hs| - 1].cell)
  }

  /** The increment one row makes, if any. */
  function Count(r: StatRow, cell: Option<Cell>): StatRow
  {
    if cell.Some? then Bump(r, cell.value) else r
  }

  /** The summary row's counters. */
  function SummaryOf(hs: seq<Hit>): StatRow
  {
    Fold(Empty(SummaryUnit), hs)
  }

  /** The per-unit rows (`statsMap`): a unit's row exists once a row of that
    * unit opened it, and then collects that unit's counted rows. */
  function Tally(hs: seq<Hit>): (t: map<string, StatRow>)
    ensures forall u :: u in t ==> t[u].unit == u
  {
    if |hs| == 0 then map[] else Open(Tally(hs[..|hs| - 1]), hs[|hs| - 1])
  }

  /** What one row does to `statsMap`: when it opens its unit, the unit's
    * row is created if missing and gets the row's increment. */
  function Open(t: map<string, StatRow>, h: Hit): map<string, StatRow>
  {
    if !h.opens then t
    else t[h.unit := Count(if h.unit in t then t[h.unit] else Empty(h.unit), h.cell)]
  }

  /** Rows counted in cell `c`. */
  function Occurrences(hs: seq<Hit>, c: Cell): nat
  {
    if |hs| == 0 then 0
    else Occurrences(hs[..|hs| - 1], c) + (if hs[|hs| - 1].cell == Some(c) then 1 else 0)
  }

  /** The hits of the units in `us`. */
  function OfUnits(hs: seq<Hit>, us: set<string>): (r: seq<Hit>)
    ensures |r| <= |hs|
  {
    if |hs| == 0 then []
    else OfUnits(hs[..|hs| - 1], us) + (if hs[|hs| - 1].unit in us then [hs[|hs| - 1]] else [])
  }

  /** The rows that incremented some counter. */
  function Counted(hs: seq<Hit>): (r: seq<Hit>)
    ensures forall i :: 0 <= i < |r| ==> r[i].cell.Some?
  {
    if |hs| == 0 then []
    else Counted(hs[..|hs| - 1]) + (if hs[|hs| - 1].cell.Some? then [hs[|hs| - 1]] else [])
  }

  lemma Last<T>(s: seq<T>, x: T)
    ensures (s + [x])[..|s|] == s && (s + [x])[|s|] == x
  {
  }

  lemma OccurrencesSnoc(a: seq<Hit>, h: Hit, c: Cell)
    ensures Occurrences(a + [h], c) == Occurrences(a, c) + (if h.cell == Some(c) then 1 else 0)
  {
    Last(a, h);
  }

  lemma OfUnitsSnoc(a: seq<Hit>, h: Hit, us: set<string>)
    ensures OfUnits(a + [h], us) == OfUnits(a, us) + (if h.unit in us then [h] else [])
  {
    Last(a, h);
  }

  lemma FoldSnoc(start: StatRow, a: seq<Hit>, h: Hit)
    ensures Fold(start, a + [h]) == Count(Fold(start, a), h.cell)
  {
    Last(a, h);
  }

  lemma WellFormedPrefix(hs: seq<Hit>, n: nat)
    requires WellFormed(hs) && n <= |hs|
    ensures WellFormed(hs[..n])
  {
    assert forall i :: 0 <= i < n ==> hs[..n][i] == hs[i];
  }

  /** Each counter of a row is its starting value plus the rows counted in
    * it. */
  lemma {:induction false} FoldCounts(start: StatRow, hs: seq<Hit>, c: Cell)
    requires Column(c)
    ensures Get(Fold(start, hs), c) == Get(start, c) + Occurrences(hs, c)
    ensures Fold(start, hs).unit == start.unit
  {
    if |hs| > 0 {
      FoldCounts(start, hs[..|hs| - 1], c);
      var h := hs[|hs| - 1];
      if h.cell.Some? {
        BumpGet(Fold(start, hs[..|hs| - 1]), h.cell.value, c);
      }
    }
  }

  /** Each summary counter is the number of rows counted in it. */
  lemma SummaryCounts(hs: seq<Hit>, c: Cell)
    requires Column(c)
    ensures Get(SummaryOf(hs), c) == Occurrences(hs, c)
  {
    FoldCounts(Empty(SummaryUnit), hs, c);
  }

  /** A unit has a row exactly when some row of that unit opened it. */
  lemma {:induction false} TallyKeys(hs: seq<Hit>, u: string)
    ensures u in Tally(hs) <==> exists i :: 0 <= i < |hs| && hs[i].opens && hs[i].unit == u
  {
    if |hs| > 0 {
      var init := hs[..|hs| - 1];
      TallyKeys(init, u);
      if exists i :: 0 <= i < |init| && init[i].opens && init[i].unit == u {
        var i :| 0 <= i < |init| && init[i].opens && init[i].unit == u;
        assert hs[i] == init[i];
      }
      if exists i :: 0 <= i < |hs| && hs[i].opens && hs[i].unit == u {
        var i :| 0 <= i < |hs| && hs[i].opens && hs[i].unit == u;
        if i < |init| {
          assert init[i] == hs[i];
        }
      }
    }
  }

  /** A unit's row carries the unit's name and the counters of that unit's
    * rows alone; a unit without a row has no counted rows. */
  lemma {:induction false} TallyRows(hs: seq<Hit>, u: string)
    requires WellFormed(hs)
    ensures u in Tally(hs) ==> Tally(hs)[u] == Fold(Empty(u), OfUnits(hs, {u}))
    ensures u !in Tally(hs) ==> Fold(Empty(u), OfUnits(hs, {u})) == Empty(u)
  {
    if |hs| > 0 {
      var init, h := hs[..|hs| - 1], hs[|hs| - 1];
      WellFormedPrefix(hs, |hs| - 1);
      TallyRows(init, u);
      var sub := OfUnits(init, {u});
      assert hs == init + [h];
      OfUnitsSnoc(init, h, {u});
      if h.unit == u {
        FoldSnoc(Empty(u), sub, h);
        assert h.cell.Some? ==> h.opens;
      } else {
        assert sub + [] == sub;
      }
    }
  }

  /** Every row of `statsMap` carries its own unit's name. */
  lemma TallyNames(hs: seq<Hit>)
    requires WellFormed(hs)
    ensures forall u :: u in Tally(hs) ==> Tally(hs)[u].unit == u
  {
    forall u | u in Tally(hs) ensures Tally(hs)[u].unit == u {
      TallyRows(hs, u);
      FoldCounts(Empty(u), OfUnits(hs, {u}), SingleSoldier);
    }
  }

  /** Only valid counters are ever incremented. */
  lemma {:induction false} OccurrencesValid(hs: seq<Hit>, c: Cell)
    requires WellFormed(hs) && !ValidCell(c)
    ensures Occurrences(hs, c) == 0
  {
    if |hs| > 0 {
      WellFormedPrefix(hs, |hs| - 1);
      OccurrencesValid(hs[..|hs| - 1], c);
    }
  }

  /** Type-4 vehicles are counted nowhere. */
  lemma NoTypeFourVehicle(hs: seq<Hit>)
    requires WellFormed(hs)
    ensures Get(SummaryOf(hs), Typed(4, Vehicle)) == 0
  {
    SummaryCounts(hs, Typed(4, Vehicle));
    OccurrencesValid(hs, Typed(4, Vehicle));
  }

  // ---------------------------------------------------------------------
  // Totals

  /** The totals pass changes no counter and not the unit. */
  lemma TotalsKeepCounters(r: StatRow, c: Cell)
    ensures Get(WithTotals(r), c) == Get(r, c) && WithTotals(r).unit == r.unit
  {
  }

  /** One more counted row adds one to the grand total. */
  lemma TotalBump(r: StatRow, c: Cell)
    requires ValidCell(c)
    ensures WithTotals(Bump(r, c)).grandTotal == WithTotals(r).grandTotal + 1
  {
    match c
    case SingleSoldier =>
    case Typed(p, k) =>
      assert p == 1 || p == 2 || p == 3 || p == 4;
  }

  /** The grand total is the number of rows counted: one per single-soldier
    * row and one per classified row; skipped rows and type-4 vehicles add
    * nothing. */
  lemma {:induction false} GrandTotalCountsRows(start: StatRow, hs: seq<Hit>)
    requires WellFormed(hs)
    ensures WithTotals(Fold(start, hs)).grandTotal == WithTotals(start).grandTotal + |Counted(hs)|
  {
    if |hs| > 0 {
      WellFormedPrefix(hs, |hs| - 1);
      GrandTotalCountsRows(start, hs[..|hs| - 1]);
      var h := hs[|hs| - 1];
      if h.cell.Some? {
        TotalBump(Fold(start, hs[..|hs| - 1]), h.cell.value);
      }
    }
  }

  /** Counting from an empty row, the grand total is the number of rows
    * counted. */
  lemma {:induction false} EmptyGrandTotal(hs: seq<Hit>, u: string)
    requires WellFormed(hs)
    ensures WithTotals(Fold(Empty(u), hs)).grandTotal == |Counted(hs)|
  {
    GrandTotalCountsRows(Empty(u), hs);
  }

  /** The summary's grand total counts every counted row of both queries. */
  lemma {:induction false} SummaryGrandTotal(hs: seq<Hit>)
    requires WellFormed(hs)
    ensures WithTotals(SummaryOf(hs)).grandTotal == |Counted(hs)|
  {
    EmptyGrandTotal(hs, SummaryUnit);
  }

  // ---------------------------------------------------------------------
  // Sorting by unit

  predicate Ascending(rows: seq<StatRow>)
  {
    forall i, j :: 0 <= i < j < |rows| ==> Before(rows[i].unit, rows[j].unit)
  }

  /** Units listed in the table. */
  function UnitsOf(rows: seq<StatRow>): set<string>
  {
    set i | 0 <= i < |rows| :: rows[i].unit
  }

  /** Places a row among rows sorted by unit. */
  function InsertRow(x: StatRow, rows: seq<StatRow>): (r: seq<StatRow>)
    requires Ascending(rows) && x.unit !in UnitsOf(rows)
    ensures Ascending(r)
    ensures multiset(r) == multiset(rows) + multiset{x}
  {
    if |rows| == 0 then [x]
    else if Before(x.unit, rows[0].unit) then
      assert forall j :: 0 < j < |rows| ==> Before(x.unit, rows[j].unit) by {
        forall j | 0 < j < |rows| ensures Before(x.unit, rows[j].unit) {
          BeforeTransitive(x.unit, rows[0].unit, rows[j].unit);
        }
      }
      [x] + rows
    else
      BeforeTotal(x.unit, rows[0].unit);
      assert x.unit !in UnitsOf(rows[1..]);
      var rest := InsertRow(x, rows[1..]);
      InsertedAfter(rows[0], x, rows[1..], rest);
      assert rows == [rows[0]] + rows[1..];
      [rows[0]] + rest
  }

  /** A row before both `x` and all of `rows` is before all of their
    * merge. */
  lemma InsertedAfter(y: StatRow, x: StatRow, rows: seq<StatRow>, rest: seq<StatRow>)
    requires Before(y.unit, x.unit)
    requires forall j :: 0 <= j < |rows| ==> Before(y.unit, rows[j].unit)
    requires multiset(rest) == multiset(rows) + multiset{x}
    ensures forall j :: 0 <= j < |rest| ==> Before(y.unit, rest[j].unit)
  {
    forall j | 0 <= j < |rest| ensures Before(y.unit, rest[j].unit) {
      assert rest[j] in multiset(rest);
      if rest[j] != x {
        assert rest[j] in multiset(rows);
        var k :| 0 <= k < |rows| && rows[k] == rest[j];
      }
    }
  }

  /** What `getStatistics` returns for the rows `hs`: one row per unit that
    * was opened, sorted by unit name, each with that unit's counters and
    * totals, and the summary with every row's counters and its totals. */
  predicate Reported(stats: seq<StatRow>, summary: StatRow, hs: seq<Hit>)
  {
    var t := Tally(hs);
    Ascending(stats) &&
    UnitsOf(stats) == t.Keys &&
    (forall i :: 0 <= i < |stats| ==> stats[i].unit in t && stats[i] == WithTotals(t[stats[i].unit])) &&
    summary == WithTotals(SummaryOf(hs))
  }

  /** One row more: the unit's row is opened when the row opens it, and the
    * counter the row names is incremented in it and in the summary. */
  lemma Step(hs: seq<Hit>, h: Hit)
    ensures SummaryOf(hs + [h]) == Count(SummaryOf(hs), h.cell)
    ensures Tally(hs + [h]) == Open(Tally(hs), h)
  {
    Last(hs, h);
  }

  /** One device row: its unit's row is created if missing, then the
    * single-soldier column or the classified counter is incremented in it
    * and in the summary. */
  method CountDevice(statsMap0: map<string, StatRow>, summary0: StatRow, r: DeviceRow)
    returns (statsMap: map<string, StatRow>, summary: StatRow)
    ensures statsMap == Open(statsMap0, DeviceHit(r)) && summary == Count(summary0, DeviceCell(r))
  {
    statsMap, summary := statsMap0, summary0;
    if r.unit !in statsMap {
      statsMap := statsMap[r.unit := Empty(r.unit)];
    }
    var cell: Option<Cell> := None;
    if r.singleSoldier == 1 {
      cell := Some(SingleSoldier);
    } else {
      var pointType := PointType(r.pointType);
      if pointType.Some? {
        var kind := Classify(r.functionType);
        if !(pointType.value == 4 && kind == Vehicle) {
          cell := Some(Typed(pointType.value, kind));
        }
      }
    }
    assert cell == DeviceCell(r);
    OpenThenTick(statsMap0, DeviceHit(r));
    statsMap, summary := Tick(statsMap, summary, r.unit, cell);
  }

  /** Opening a unit's row and then counting in it is `Open`. */
  lemma OpenThenTick(t: map<string, StatRow>, h: Hit)
    requires h.opens
    ensures var t1 := if h.unit !in t then t[h.unit := Empty(h.unit)] else t;
      Open(t, h) == if h.cell.Some? then t1[h.unit := Bump(t1[h.unit], h.cell.value)] else t1
  {
    if h.unit in t && h.cell.None? {
      assert t[h.unit := t[h.unit]] == t;
    }
  }

  /** `statsMap[unit].<counter>++` and `summary.<counter>++` for the counter
    * a row names, if any. */
  method Tick(statsMap0: map<string, StatRow>, summary0: StatRow, unit: string, cell: Option<Cell>)
    returns (statsMap: map<string, StatRow>, summary: StatRow)
    requires cell.Some? ==> unit in statsMap0
    ensures statsMap == (if cell.Some? then statsMap0[unit := Bump(statsMap0[unit], cell.value)] else statsMap0)
    ensures summary == Count(summary0, cell)
  {
    statsMap, summary := statsMap0, summary0;
    if cell.Some? {
      statsMap := statsMap[unit := Bump(statsMap[unit], cell.value)];
      summary := Bump(summary, cell.value);
    }
  }

  /** The loop over the device query. A row whose scan fails (a NULL
    * organization, point type or single-soldier flag) is skipped. */
  method CountDevices(rows: seq<Option<DeviceRow>>) returns (statsMap: map<string, StatRow>, summary: StatRow)
    ensures statsMap == Tally(DeviceHits(Scanned(rows))) && summary == SummaryOf(DeviceHits(Scanned(rows)))
  {
    statsMap, summary := map[], Empty(SummaryUnit);
    var i := 0;
    ghost var seen: seq<DeviceRow> := [];
    ghost var hs: seq<Hit> := [];
    while i < |rows|
      invariant 0 <= i <= |rows|
      invariant seen == Scanned(rows[..i]) && hs == DeviceHits(seen)
      invariant statsMap == Tally(hs) && summary == SummaryOf(hs)
    {
      ScannedStep(rows, i);
      if rows[i].Some? {
        var r := rows[i].value;
        DeviceHitsSnoc(seen, r);
        Step(hs, DeviceHit(r));
        statsMap, summary := CountDevice(statsMap, summary, r);
        seen, hs := seen + [r], hs + [DeviceHit(r)];
      }
      i := i + 1;
    }
    assert rows[..i] == rows;
  }

  lemma DeviceHitsSnoc(seen: seq<DeviceRow>, r: DeviceRow)
    ensures DeviceHits(seen + [r]) == DeviceHits(seen) + [DeviceHit(r)]
  {
    assert (seen + [r])[..|seen|] == seen;
  }

  /** One checkpoint row: with a point type of 1–4 its unit's row is created
    * if missing, and types 1–3 add a vehicle to it and to the summary. */
  method CountCheckpoint(statsMap0: map<string, StatRow>, summary0: StatRow, r: CheckpointRow)
    returns (statsMap: map<string, StatRow>, summary: StatRow)
    ensures statsMap == Open(statsMap0, CheckpointHit(r)) && summary == Count(summary0, CheckpointCell(r))
  {
    statsMap, summary := statsMap0, summary0;
    var cell: Option<Cell> := None;
    if r.pointType.Some? && r.pointType.value != "" {
      var pointType := PointType(r.pointType.value);
      if pointType.Some? {
        if r.unit !in statsMap {
          statsMap := statsMap[r.unit := Empty(r.unit)];
        }
        if pointType.value != 4 {
          cell := Some(Typed(pointType.value, Vehicle));
        }
      }
    }
    assert cell == CheckpointCell(r);
    if CheckpointOpens(r) {
      OpenThenTick(statsMap0, CheckpointHit(r));
    }
    statsMap, summary := Tick(statsMap, summary, r.unit, cell);
  }

  /** The loop over the checkpoint query, continuing from the device rows.
    * A row whose scan fails (a NULL organization) is skipped. */
  method CountCheckpoints(statsMap0: map<string, StatRow>, summary0: StatRow, ghost done: seq<Hit>,
                          rows: seq<Option<CheckpointRow>>) returns (statsMap: map<string, StatRow>, summary: StatRow)
    requires statsMap0 == Tally(done) && summary0 == SummaryOf(done)
    ensures statsMap == Tally(done + CheckpointHits(Scanned(rows)))
    ensures summary == SummaryOf(done + CheckpointHits(Scanned(rows)))
  {
    statsMap, summary := statsMap0, summary0;
    var j := 0;
    ghost var seen: seq<CheckpointRow> := [];
    ghost var hs := done;
    assert done + CheckpointHits([]) == done;
    while j < |rows|
      invariant 0 <= j <= |rows|
      invariant seen == Scanned(rows[..j]) && hs == done + CheckpointHits(seen)
      invariant statsMap == Tally(hs) && summary == SummaryOf(hs)
    {
      ScannedStep(rows, j);
      if rows[j].Some? {
        var r := rows[j].value;
        CheckpointHitsSnoc(done, seen, r);
        Step(hs, CheckpointHit(r));
        statsMap, summary := CountCheckpoint(statsMap, summary, r);
        seen, hs := seen + [r], hs + [CheckpointHit(r)];
      }
      j := j + 1;
    }
    assert rows[..j] == rows;
  }

  lemma CheckpointHitsSnoc(done: seq<Hit>, seen: seq<CheckpointRow>, r: CheckpointRow)
    ensures done + CheckpointHits(seen + [r]) == (done + CheckpointHits(seen)) + [CheckpointHit(r)]
  {
    assert (seen + [r])[..|seen|] == seen;
  }

  /** The totals pass, the conversion to a slice and the sort by unit. */
  method SortedRows(statsMap: map<string, StatRow>) returns (stats: seq<StatRow>)
    requires forall u :: u in statsMap ==> statsMap[u].unit == u
    ensures Ascending(stats)
    ensures UnitsOf(stats) == statsMap.Keys
    ensures forall k :: 0 <= k < |stats| ==> stats[k].unit in statsMap && stats[k] == WithTotals(statsMap[stats[k].unit])
  {
    stats := [];
    var units := statsMap.Keys;
    while units != {}
      invariant units <= statsMap.Keys
      invariant Ascending(stats)
      invariant UnitsOf(stats) == statsMap.Keys - units
      invariant forall k :: 0 <= k < |stats| ==> stats[k].unit in statsMap && stats[k] == WithTotals(statsMap[stats[k].unit])
      decreases units
    {
      var u :| u in units;
      var row := WithTotals(statsMap[u]);
      ghost var before := stats;
      stats := InsertRow(row, stats);
      InsertedUnits(row, before, stats);
      units := units - {u};
    }
  }

  /** Inserting a row adds its unit and keeps the others' rows. */
  lemma InsertedUnits(x: StatRow, before: seq<StatRow>, after: seq<StatRow>)
    requires multiset(after) == multiset(before) + multiset{x}
    ensures UnitsOf(after) == UnitsOf(before) + {x.unit}
    ensures forall k :: 0 <= k < |after| ==> after[k] == x || after[k] in before
  {
    forall k | 0 <= k < |after| ensures after[k] == x || after[k] in before {
      assert after[k] in multiset(after);
    }
    forall v | v in UnitsOf(before) + {x.unit} ensures v in UnitsOf(after) {
      if v == x.unit {
        assert x in multiset(after);
        var k :| 0 <= k < |after| && after[k] == x;
      } else {
        var k :| 0 <= k < |before| && before[k].unit == v;
        assert before[k] in multiset(after);
        var m :| 0 <= m < |after| && after[m] == before[k];
      }
    }
  }

  /** The checkpoint rows the handler reads: none when the query failed,
    * otherwise those that scan. */
  function ScannedCheckpoints(checkpoints: Option<seq<Option<CheckpointRow>>>): (r: Option<seq<CheckpointRow>>)
    ensures r.Some? <==> checkpoints.Some?
    ensures r.Some? ==> forall x :: x in r.value <==> Some(x) in checkpoints.value
  {
    if checkpoints.Some? then Some(Scanned(checkpoints.value)) else None
  }

  /** `getStatistics`: the device loop, the checkpoint loop, the totals, the
    * conversion to a slice and the sort by unit. A failed device query shows
    * nothing but an empty summary; a failed checkpoint query is skipped; a
    * row of either query whose scan fails is skipped. */
  method GetStatistics(devices: Option<seq<Option<DeviceRow>>>, checkpoints: Option<seq<Option<CheckpointRow>>>)
    returns (stats: seq<StatRow>, summary: StatRow)
    ensures devices.None? ==> stats == [] && summary == Empty(SummaryUnit)
    ensures devices.Some? ==> Reported(stats, summary, Hits(Scanned(devices.value), ScannedCheckpoints(checkpoints)))
  {
    if devices.None? {
      return [], Empty(SummaryUnit);
    }
    var scanned := Scanned(devices.value);
    var statsMap, sums := CountDevices(devices.value);
    if checkpoints.Some? {
      statsMap, sums := CountCheckpoints(statsMap, sums, DeviceHits(scanned), checkpoints.value);
    } else {
      assert DeviceHits(scanned) + [] == DeviceHits(scanned);
    }
    HitsWellFormed(scanned, ScannedCheckpoints(checkpoints));
    TallyNames(Hits(scanned, ScannedCheckpoints(checkpoints)));
    stats := SortedRows(statsMap);
    summary := WithTotals(sums);
  }

  // ---------------------------------------------------------------------
  // The summary row is the column sums

  function ColumnSum(rows: seq<StatRow>, c: Cell): nat
  {
    if |rows| == 0 then 0 else Get(rows[0], c) + ColumnSum(rows[1..], c)
  }

  /** Hits of `u` and hits of the other units `us` add up separately. */
  lemma {:induction false} SplitUnit(hs: seq<Hit>, u: string, us: set<string>, c: Cell)
    requires u !in us
    ensures Occurrences(OfUnits(hs, {u} + us), c) == Occurrences(OfUnits(hs, {u}), c) + Occurrences(OfUnits(hs, us), c)
  {
    if |hs| > 0 {
      var init, h := hs[..|hs| - 1], hs[|hs| - 1];
      assert hs == init + [h];
      SplitUnit(init, u, us, c);
      UnitOccurrencesSnoc(init, h, {u}, c);
      UnitOccurrencesSnoc(init, h, us, c);
      UnitOccurrencesSnoc(init, h, {u} + us, c);
    }
  }

  lemma UnitOccurrencesSnoc(a: seq<Hit>, h: Hit, us: set<string>, c: Cell)
    ensures Occurrences(OfUnits(a + [h], us), c) == Occurrences(OfUnits(a, us), c) + (if h.unit in us && h.cell == Some(c) then 1 else 0)
  {
    OfUnitsSnoc(a, h, us);
    if h.unit in us {
      OccurrencesSnoc(OfUnits(a, us), h, c);
    } else {
      assert OfUnits(a, us) + [] == OfUnits(a, us);
    }
  }

  /** Hits outside the listed units are not counted anywhere. */
  lemma {:induction false} AllUnits(hs: seq<Hit>, us: set<string>, c: Cell)
    requires forall i :: 0 <= i < |hs| && hs[i].cell.Some? ==> hs[i].unit in us
    ensures Occurrences(OfUnits(hs, us), c) == Occurrences(hs, c)
  {
    if |hs| > 0 {
      var init, h := hs[..|hs| - 1], hs[|hs| - 1];
      assert hs == init + [h];
      assert forall i :: 0 <= i < |init| ==> init[i] == hs[i];
      AllUnits(init, us, c);
      OfUnitsSnoc(init, h, us);
      OccurrencesSnoc(init, h, c);
      if h.unit in us {
        OccurrencesSnoc(OfUnits(init, us), h, c);
      } else {
        assert OfUnits(init, us) + [] == OfUnits(init, us);
      }
    }
  }

  lemma {:induction false} EmptyUnits(hs: seq<Hit>)
    ensures OfUnits(hs, {}) == []
  {
    if |hs| > 0 {
      EmptyUnits(hs[..|hs| - 1]);
    }
  }

  /** The units of sorted rows are the first row's unit, which no later row
    * repeats, and the units of the rest. */
  lemma UnitsOfCons(stats: seq<StatRow>)
    requires Ascending(stats) && |stats| > 0
    ensures UnitsOf(stats) == {stats[0].unit} + UnitsOf(stats[1..])
    ensures stats[0].unit !in UnitsOf(stats[1..])
  {
    var u, rest := stats[0].unit, stats[1..];
    forall v | v in UnitsOf(stats) ensures v in {u} + UnitsOf(rest) {
      var k :| 0 <= k < |stats| && stats[k].unit == v;
      if k > 0 { assert rest[k - 1].unit == v; }
    }
    forall v | v in UnitsOf(rest) ensures v in UnitsOf(stats) {
      var k :| 0 <= k < |rest| && rest[k].unit == v;
      assert stats[k + 1].unit == v;
    }
    if u in UnitsOf(rest) {
      var k :| 0 <= k < |rest| && rest[k].unit == u;
      assert Before(stats[0].unit, stats[k + 1].unit);
      BeforeIrreflexive(u);
    }
  }

  /** The column sum over sorted rows of distinct units is the count over
    * those units' hits. */
  lemma {:induction false} ColumnSumUnits(stats: seq<StatRow>, hs: seq<Hit>, c: Cell)
    requires Column(c) && WellFormed(hs)
    requires Ascending(stats)
    requires forall i :: 0 <= i < |stats| ==> stats[i].unit in Tally(hs) && stats[i] == WithTotals(Tally(hs)[stats[i].unit])
    ensures ColumnSum(stats, c) == Occurrences(OfUnits(hs, UnitsOf(stats)), c)
  {
    if |stats| == 0 {
      assert UnitsOf(stats) == {};
      EmptyUnits(hs);
    } else {
      var u, rest := stats[0].unit, stats[1..];
      ColumnSumUnits(rest, hs, c);
      UnitsOfCons(stats);
      SplitUnit(hs, u, UnitsOf(rest), c);
      TallyRows(hs, u);
      TotalsKeepCounters(Tally(hs)[u], c);
      FoldCounts(Empty(u), OfUnits(hs, {u}), c);
    }
  }

  /** Every counter column of the summary row is the sum of that column over
    * the unit rows. */
  lemma ColumnSums(stats: seq<StatRow>, summary: StatRow, hs: seq<Hit>, c: Cell)
    requires WellFormed(hs) && Column(c)
    requires Reported(stats, summary, hs)
    ensures ColumnSum(stats, c) == Get(summary, c)
  {
    ColumnSumUnits(stats, hs, c);
    forall i | 0 <= i < |hs| && hs[i].cell.Some? ensures hs[i].unit in UnitsOf(stats) {
      TallyKeys(hs, hs[i].unit);
    }
    AllUnits(hs, UnitsOf(stats), c);
    SummaryCounts(hs, c);
    TotalsKeepCounters(SummaryOf(hs), c);
  }
}
