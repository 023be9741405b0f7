/** Running a table-creation script at start-up: comment lines are dropped,
  * the rest is cut at every ';', and each trimmed, non-empty statement is
  * executed in order, a failing statement not stopping the others. The
  * script text is an input (None when the file cannot be read), and the
  * executed statements are returned in order. */
module SqlScript {
  import opened Wrappers
  import opened Text

  /** A line whose trimmed text starts with "--". */
  predicate IsComment(line: string)
  {
    HasPrefix(TrimSpace(line), "--")
  }

  /** The lines the cleaning loop keeps, in order. */
  function KeptLines(lines: seq<string>): (r: seq<string>)
    ensures |r| <= |lines|
    ensures forall i :: 0 <= i < |r| ==> !IsComment(r[i]) && r[i] in lines
  {
    if |lines| == 0 then []
    else
      var front := KeptLines(lines[..|lines| - 1]);
      var last := lines[|lines| - 1];
      if IsComment(last) then front else front + [last]
  }

  /** The trimmed, non-empty pieces, in order. */
  function NonEmptyStatements(pieces: seq<string>): (r: seq<string>)
    ensures |r| <= |pieces|
    ensures forall i :: 0 <= i < |r| ==> r[i] != "" && exists j :: 0 <= j < |pieces| && r[i] == TrimSpace(pieces[j])
  {
    if |pieces| == 0 then []
    else
      var front := NonEmptyStatements(pieces[..|pieces| - 1]);
      var s := TrimSpace(pieces[|pieces| - 1]);
      if s == "" then front else front + [s]
  }

  /** The script with its comment lines removed. */
  function CleanText(sql: string): string
  {
    Join(KeptLines(Split(sql, '\n')), '\n')
  }

  /** The statements the script runs. */
  function Statements(sql: string): seq<string>
  {
    NonEmptyStatements(Split(CleanText(sql), ';'))
  }

  /** The cleaning loop of `executeSQLFile`. */
  method CleanScript(sql: string) returns (clean: string)
    ensures clean == CleanText(sql)
  {
    var lines := Split(sql, '\n');
    var cleanLines: seq<string> := [];
    for i := 0 to |lines|
      invariant cleanLines == KeptLines(lines[..i])
    {
      assert lines[..i + 1][..i] == lines[..i];
      var trimmed := TrimSpace(lines[i]);
      if !HasPrefix(trimmed, "--") {
        cleanLines := cleanLines + [lines[i]];
      }
    }
    assert lines[..|lines|] == lines;
    clean := Join(cleanLines, '\n');
  }

  /** `executeSQLFile`: an unreadable file is an error with nothing run;
    * otherwise every statement is attempted in order and the result is
    * nil. A statement the database rejects is only logged, so which
    * statements fail changes neither the attempts nor the result. */
  method ExecuteSqlFile(file: Option<string>) returns (r: Outcome, attempted: seq<string>)
    ensures file.None? ==> r.Failure? && attempted == []
    ensures file.Some? ==> r == Success && attempted == Statements(file.value)
  {
    if file.None? {
      return Failure("read error"), [];
    }
    var sql := CleanScript(file.value);
    var statements := Split(sql, ';');
    attempted := [];
    for i := 0 to |statements|
      invariant attempted == NonEmptyStatements(statements[..i])
    {
      assert statements[..i + 1][..i] == statements[..i];
      var stmt := TrimSpace(statements[i]);
      if stmt == "" {
        continue;
      }
      attempted := attempted + [stmt];
    }
    assert statements[..|statements|] == statements;
    r := Success;
  }

  /** `InitAuditTables` and `InitCheckpointTables`: the table script, then
    * the field script; an unreadable script is only logged, so the result
    * is always nil. */
  method InitTables(tableScript: Option<string>, fieldScript: Option<string>)
    returns (r: Outcome, attempted: seq<string>)
    ensures r == Success
    ensures attempted == (if tableScript.Some? then Statements(tableScript.value) else [])
                       + (if fieldScript.Some? then Statements(fieldScript.value) else [])
  {
    var _, first := ExecuteSqlFile(tableScript);
    var _, second := ExecuteSqlFile(fieldScript);
    attempted := first + second;
    r := Success;
  }

  /** No line of the cleaned script is a comment. */
  lemma CleanHasNoComments(sql: string)
    ensures forall l :: l in Split(CleanText(sql), '\n') ==> !IsComment(l)
  {
    var kept := KeptLines(Split(sql, '\n'));
    assert forall i :: 0 <= i < |kept| ==> '\n' !in kept[i] by {
      forall i | 0 <= i < |kept| ensures '\n' !in kept[i] {
        assert kept[i] in Split(sql, '\n');
      }
    }
    if |kept| == 0 {
      assert Split("", '\n') == [""];
      assert !IsComment("") by { assert TrimSpace("") == ""; }
    } else {
      SplitJoin(kept, '\n');
    }
  }

  /** Every statement run is non-empty, trimmed and free of ';'. */
  lemma StatementsAreTrimmed(sql: string)
    ensures forall s :: s in Statements(sql) ==> s != "" && TrimSpace(s) == s && ';' !in s
  {
    var pieces := Split(CleanText(sql), ';');
    forall s | s in Statements(sql) ensures s != "" && TrimSpace(s) == s && ';' !in s {
      var j :| 0 <= j < |pieces| && s == TrimSpace(pieces[j]);
      TrimSpaceIdempotent(pieces[j]);
      TrimSpaceWithin(pieces[j], ';');
    }
  }

  lemma {:induction false} KeptAll(lines: seq<string>)
    requires forall i :: 0 <= i < |lines| ==> !IsComment(lines[i])
    ensures KeptLines(lines) == lines
  {
    if |lines| > 0 {
      KeptAll(lines[..|lines| - 1]);
      assert lines[..|lines| - 1] + [lines[|lines| - 1]] == lines;
    }
  }

  /** A script without comment lines is left as it is. */
  lemma CleanWithoutComments(sql: string)
    requires forall l :: l in Split(sql, '\n') ==> !IsComment(l)
    ensures CleanText(sql) == sql
  {
    var lines := Split(sql, '\n');
    assert forall i :: 0 <= i < |lines| ==> !IsComment(lines[i]) by {
      forall i | 0 <= i < |lines| ensures !IsComment(lines[i]) {
        assert lines[i] in lines;
      }
    }
    KeptAll(lines);
  }
}
