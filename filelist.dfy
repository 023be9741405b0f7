/** The device file list's spreadsheet import and the row helpers it shares
  * with the audit pages: a cell is trimmed and stored as text, or as NULL
  * when it is blank and its column is optional; every data row is padded
  * to 73 cells and mapped to the 71 insert parameters; the whole import
  * is one transaction. */
module FileList {
  import opened Wrappers
  import opened Text
  import opened GoTime
  import opened DisplayTime

  /** A value bound to an insert parameter. `Float` keeps the cell the
    * value is parsed from. */
  datatype DbValue = Null | Str(s: string) | Int(n: int) | Float(cell: string)

  /** `toDBValue`: blank means "" for a required column and NULL for an
    * optional one; anything else is the trimmed text. */
  function ToDBValue(s: string, required: bool): (r: DbValue)
    ensures r.Null? <==> TrimSpace(s) == "" && !required
    ensures r.Str? <==> TrimSpace(s) != "" || required
    ensures r.Str? ==> r.s == TrimSpace(s)
  {
    var t := TrimSpace(s);
    if t == "" then (if required then Str("") else Null) else Str(t)
  }

  /** Storing a stored text again stores the same value. */
  lemma ToDBValueStable(s: string, required: bool)
    requires ToDBValue(s, required).Str?
    ensures ToDBValue(ToDBValue(s, required).s, required) == ToDBValue(s, required)
  {
    TrimSpaceIdempotent(s);
  }

  /** `getRowValue`: a missing cell reads as "". */
  function GetRowValue(row: seq<string>, idx: nat): (v: string)
    ensures idx < |row| ==> v == row[idx]
    ensures idx >= |row| ==> v == ""
  {
    if idx < |row| then row[idx] else ""
  }

  /** `getAuditStatusText`. */
  function AuditStatusText(status: int): (t: string)
  {
    match status
    case 0 => "未审核未建档"
    case 1 => "已审核未建档"
    case 2 => "已建档"
    case _ => "未知状态"
  }

  /** Reading a label back as its status code. */
  function StatusOfText(t: string): (r: Option<int>)
  {
    if t == "未审核未建档" then Some(0)
    else if t == "已审核未建档" then Some(1)
    else if t == "已建档" then Some(2)
    else None
  }

  /** The three codes have three different labels, and every other code is
    * shown as unknown. */
  lemma AuditStatusTextRoundTrip(status: int)
    ensures StatusOfText(AuditStatusText(status)) == if 0 <= status <= 2 then Some(status) else None
  {
    assert "已审核未建档"[0] != "未审核未建档"[0];
    assert |"已建档"| != |"未审核未建档"| && |"未知状态"| != |"未审核未建档"| && |"未知状态"| != |"已建档"|;
  }

  const ExpectedCols: nat := 73
  const ParamCount: nat := 71

  /** A row padded with empty cells to at least 73. */
  function Padded(row: seq<string>): (r: seq<string>)
    ensures |r| >= ExpectedCols
  {
    if |row| >= ExpectedCols then row else row + seq(ExpectedCols - |row|, _ => "")
  }

  /** The padding loop of `ImportHandler`. */
  method PadRow(row0: seq<string>) returns (row: seq<string>)
    ensures row == Padded(row0)
  {
    row := row0;
    while |row| < ExpectedCols
      invariant |row0| <= |row| && row[..|row0|] == row0
      invariant |row0| >= ExpectedCols ==> row == row0
      invariant |row0| < ExpectedCols ==> |row| <= ExpectedCols
      invariant forall i :: |row0| <= i < |row| ==> row[i] == ""
      decreases ExpectedCols - |row|
    {
      row := row + [""];
    }
    if |row0| < ExpectedCols {
      assert row == row0 + seq(ExpectedCols - |row0|, _ => "");
    }
  }

  /** Padding changes no cell: each of the 73 reads as `getRowValue` of the
    * original row. */
  lemma PaddedCells(row: seq<string>, idx: nat)
    requires idx < ExpectedCols
    ensures Padded(row)[idx] == GetRowValue(row, idx)
  {
  }

  /** The columns whose blank cells are stored as "". */
  const RequiredColumns: set<int> :=
    {1, 3, 4, 5, 8, 9, 10, 11, 12, 13, 14, 15, 16, 18, 20, 21, 22, 27, 28, 29, 30, 33, 34, 35, 38, 39, 41, 50, 71}

  /** The enabled time: blank is NULL, an RFC 3339 time is reformatted to
    * the second, anything else is kept as the trimmed text. */
  function EnabledTime(cell: string): (r: DbValue)
    ensures TrimSpace(cell) == "" <==> r.Null?
    ensures r.Str? && Parse(L_RFC3339, TrimSpace(cell)).Some? ==> |r.s| == 19
    ensures r.Str? && Parse(L_RFC3339, TrimSpace(cell)).None? ==> r.s == TrimSpace(cell)
  {
    var t := TrimSpace(cell);
    if t == "" then Null
    else
      match Parse(L_RFC3339, t)
      case Some(f) =>
        ParseFormattable(L_RFC3339, t);
        FormatSecondLength(f);
        Str(FormatSecond(f))
      case None => Str(t)
  }

  /** The value bound for spreadsheet column `col` (parameter `col - 1`). */
  function ColumnValue(row: seq<string>, col: nat): (v: DbValue)
    requires 1 <= col <= ParamCount && |row| >= ExpectedCols
  {
    if col == 31 || col == 32 then Float(row[col])
    else if col == 64 then Int(AtoiIgnoringError(row[64]))
    else if col == 48 then EnabledTime(row[48])
    else ToDBValue(row[col], col in RequiredColumns)
  }

  /** The parameters of one data row. */
  function RowParams(row: seq<string>): (ps: seq<DbValue>)
    ensures |ps| == ParamCount
  {
    var padded := Padded(row);
    seq(ParamCount, j requires 0 <= j < ParamCount => ColumnValue(padded, j + 1))
  }

  /** A data row of the import, mapped to its 71 parameters. */
  method MapRow(row0: seq<string>) returns (params: seq<DbValue>)
    ensures params == RowParams(row0)
  {
    var row := PadRow(row0);
    var a := new DbValue[ParamCount](_ => Null);
    for j := 0 to ParamCount
      invariant forall k :: 0 <= k < j ==> a[k] == ColumnValue(row, k + 1)
    {
      var excelIdx := j + 1;
      if excelIdx == 31 || excelIdx == 32 {
        a[j] := Float(row[excelIdx]);
      } else if excelIdx == 64 {
        a[j] := Int(AtoiIgnoringError(row[64]));
      } else if excelIdx == 48 {
        var timeStr := TrimSpace(row[excelIdx]);
        if timeStr == "" {
          a[j] := Null;
        } else {
          var parsed := Parse(L_RFC3339, timeStr);
          if parsed.Some? {
            ParseFormattable(L_RFC3339, timeStr);
            a[j] := Str(FormatSecond(parsed.value));
          } else {
            a[j] := Str(timeStr);
          }
        }
      } else if excelIdx in RequiredColumns {
        a[j] := ToDBValue(row[excelIdx], true);
      } else {
        a[j] := ToDBValue(row[excelIdx], false);
      }
    }
    params := a[..];
    assert forall k :: 0 <= k < ParamCount ==> params[k] == RowParams(row0)[k];
  }

  /** Parameter j comes from column j + 1 of the row as `getRowValue`
    * reads it; a blank cell is NULL except in a required column, and no
    * other column than 31, 32, 48 and 64 is converted. */
  lemma RowParamsCells(row: seq<string>, j: nat)
    requires j < ParamCount && j + 1 !in {31, 32, 48, 64}
    ensures RowParams(row)[j] == ToDBValue(GetRowValue(row, j + 1), j + 1 in RequiredColumns)
    ensures TrimSpace(GetRowValue(row, j + 1)) == "" ==>
      RowParams(row)[j] == if j + 1 in RequiredColumns then Str("") else Null
  {
    PaddedCells(row, j + 1);
    assert RowParams(row)[j] == ColumnValue(Padded(row), j + 1);
  }

  /** The outcome of an import. */
  datatype ImportResult = Imported(count: nat) | PrepareFailed | RowFailed(line: nat) | CommitFailed

  /** The rows the import inserts: every row after the header. */
  function DataParams(rows: seq<seq<string>>): (ps: seq<seq<DbValue>>)
    ensures |ps| == if |rows| == 0 then 0 else |rows| - 1
  {
    if |rows| <= 1 then [] else DataParams(rows[..|rows| - 1]) + [RowParams(rows[|rows| - 1])]
  }

  /** The first data row whose insert fails, by index in the sheet. */
  function FirstFailure(rows: seq<seq<string>>, fails: set<nat>): (r: Option<nat>)
    ensures r.Some? ==> 1 <= r.value < |rows| && r.value in fails
    ensures r.Some? ==> forall i :: 1 <= i < r.value ==> i !in fails
    ensures r.None? ==> forall i :: 1 <= i < |rows| ==> i !in fails
  {
    if |rows| <= 1 then None
    else
      var front := FirstFailure(rows[..|rows| - 1], fails);
      if front.Some? then front
      else if |rows| - 1 in fails then Some(|rows| - 1)
      else None
  }

  /** The device table the import writes. */
  class FileTable {
    var rows: seq<seq<DbValue>>

    constructor ()
      ensures rows == []
    {
      rows := [];
    }

    /** The transaction of `ImportHandler` over the sheet's rows: the
      * header is skipped, each data row is inserted in order, the first
      * failing insert rolls everything back and names its line (the sheet
      * index plus one); `prepareFails`, `fails` and `commitFails` stand for
      * database errors. */
    method Import(sheet: seq<seq<string>>, prepareFails: bool, fails: set<nat>, commitFails: bool)
      returns (r: ImportResult)
      modifies this
      ensures prepareFails ==> r == PrepareFailed
      ensures !prepareFails && FirstFailure(sheet, fails).Some? ==> r == RowFailed(FirstFailure(sheet, fails).value + 1)
      ensures !prepareFails && FirstFailure(sheet, fails).None? ==>
        r == (if commitFails then CommitFailed else Imported(|DataParams(sheet)|))
      ensures r.Imported? ==> rows == old(rows) + DataParams(sheet)
      ensures !r.Imported? ==> rows == old(rows)
    {
      if prepareFails {
        return PrepareFailed;
      }
      var pending: seq<seq<DbValue>> := [];
      var importedCount := 0;
      for i := 0 to |sheet|
        invariant pending == DataParams(sheet[..i]) && importedCount == |pending|
        invariant FirstFailure(sheet[..i], fails).None?
        invariant rows == old(rows)
      {
        assert sheet[..i + 1][..i] == sheet[..i];
        if i == 0 {
          continue;
        }
        var params := MapRow(sheet[i]);
        if i in fails {
          assert FirstFailure(sheet[..i + 1][..i], fails).None?;
          assert FirstFailure(sheet[..i + 1], fails) == Some(i);
          FirstFailureExtends(sheet, i + 1, fails);
          return RowFailed(i + 1);
        }
        pending := pending + [params];
        importedCount := importedCount + 1;
      }
      assert sheet[..|sheet|] == sheet;
      assert pending == DataParams(sheet) && FirstFailure(sheet, fails).None?;
      if commitFails {
        return CommitFailed;
      }
      rows := rows + pending;
      r := Imported(importedCount);
    }
  }

  /** A failure found in a prefix is the first failure of the whole sheet. */
  lemma {:induction false} FirstFailureExtends(rows: seq<seq<string>>, n: nat, fails: set<nat>)
    requires n <= |rows| && FirstFailure(rows[..n], fails).Some?
    ensures FirstFailure(rows, fails) == FirstFailure(rows[..n], fails)
    decreases |rows| - n
  {
    if n < |rows| {
      assert rows[..n + 1][..n] == rows[..n];
      FirstFailureExtends(rows, n + 1, fails);
    } else {
      assert rows[..n] == rows;
    }
  }
}
