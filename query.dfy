/** The SQL the list and statistics pages send: WHERE clauses built from the
  * filter form, the ORDER BY and LIMIT/OFFSET tail, and the page arithmetic
  * around them. Only the generated text and argument list are modelled; what
  * the database does with them is not. */
module Query {
  import opened Wrappers
  import opened Text
  import opened GoTime
  import opened GoTimeFacts
  import Workflow

  /** An argument passed to the driver next to the statement. */
  datatype Arg = Str(s: string) | Num(n: int)

  /** How an argument reads once written into the statement. */
  function Inline(a: Arg): string
  {
    match a
    case Str(s) => "'" + s + "'"
    case Num(n) => IntToString(n)
  }

  /** Statement text: literal SQL, or one `?` placeholder. The literal
    * fragments the program writes contain no `?`. */
  datatype Piece = Sql(text: string) | Hole

  function Holes(ps: seq<Piece>): nat
  {
    if |ps| == 0 then 0 else (if ps[0].Hole? then 1 else 0) + Holes(ps[1..])
  }

  /** The statement the database runs: each placeholder replaced, left to
    * right, by the next argument; None when the counts differ and the driver
    * refuses the call. */
  function Bind(ps: seq<Piece>, args: seq<Arg>): (r: Option<string>)
    ensures r.Some? <==> Holes(ps) == |args|
  {
    if |ps| == 0 then (if |args| == 0 then Some("") else None)
    else
      match ps[0]
      case Sql(t) =>
        var rest := Bind(ps[1..], args);
        if rest.Some? then Some(t + rest.value) else None
      case Hole =>
        if |args| == 0 then None
        else
          var rest := Bind(ps[1..], args[1..]);
          if rest.Some? then Some(Inline(args[0]) + rest.value) else None
  }

  /** Binding a concatenation binds each part to its own arguments. */
  lemma {:induction false} BindAppend(a: seq<Piece>, x: seq<Arg>, b: seq<Piece>, y: seq<Arg>)
    requires Holes(a) == |x|
    ensures Bind(a + b, x + y) ==
      if Bind(b, y).Some? then Some(Bind(a, x).value + Bind(b, y).value) else None
  {
    if |a| == 0 {
      assert a + b == b && x + y == y;
      if Bind(b, y).Some? {
        assert Bind(a, x).value + Bind(b, y).value == Bind(b, y).value;
      }
    } else {
      assert (a + b)[1..] == a[1..] + b;
      match a[0]
      case Sql(t) =>
        BindAppend(a[1..], x, b, y);
        if Bind(b, y).Some? {
          var u, v := Bind(a[1..], x).value, Bind(b, y).value;
          assert t + (u + v) == (t + u) + v;
        }
      case Hole =>
        assert (x + y)[1..] == x[1..] + y;
        BindAppend(a[1..], x[1..], b, y);
        if Bind(b, y).Some? {
          var u, v := Bind(a[1..], x[1..]).value, Bind(b, y).value;
          assert Inline(x[0]) + (u + v) == (Inline(x[0]) + u) + v;
        }
    }
  }

  // ---------------------------------------------------------------------
  // Filter conditions

  datatype SampleKind = SampledOk | SampledNeedsFix | AwaitingSample

  /** One condition as the handlers append it to the clause. */
  datatype Cond =
    | Eq(column: string, value: Arg)                  // " AND <column> = ?"
    | Like(column: string, text: string)              // " AND <column> LIKE ?", bound to "%text%"
    | InMonth(column: string, year: int, month: int)  // " AND YEAR(<column>) = ? AND MONTH(<column>) = ?"
    | InDays(column: string, first: string, last: string) // " AND DATE(<column>) >= ? AND DATE(<column>) <= ?"
    | Stale                                           // more than 15 days since the last update
    | NotOverdue                                      // not (needing a fix and stale)
    | SampleFilter(kind: SampleKind)                  // a sample-status condition; each pins 已完成

  const WhereHead: string := " WHERE 1=1"
  const StaleSql: string := " AND DATEDIFF(NOW(), updated_at) > 15"
  const NotOverdueSql: string := " AND NOT (audit_status = '已审核待整改' AND DATEDIFF(NOW(), updated_at) > 15)"
  const PinCompleted: string := " AND audit_status = '已完成' \n\t\t\t\t\t"

  function SampleSql(k: SampleKind): string
  {
    PinCompleted +
    match k
    case SampledOk =>
      "AND is_sampled = 1 \n\t\t\t\t\tAND COALESCE((SELECT sample_result FROM audit_sample_records \n\t\t\t\t\t\tWHERE task_id = audit_tasks.id \n\t\t\t\t\t\tORDER BY sampled_at DESC LIMIT 1), '') != '待整改'"
    case SampledNeedsFix =>
      "AND is_sampled = 1 \n\t\t\t\t\tAND (SELECT sample_result FROM audit_sample_records \n\t\t\t\t\t\tWHERE task_id = audit_tasks.id \n\t\t\t\t\t\tORDER BY sampled_at DESC LIMIT 1) = '待整改'"
    case AwaitingSample =>
      "AND (is_sampled = 0 OR is_sampled IS NULL)"
  }

  function CondSql(c: Cond): seq<Piece>
  {
    match c
    case Eq(col, _) => [Sql(" AND " + col + " = "), Hole]
    case Like(col, _) => [Sql(" AND " + col + " LIKE "), Hole]
    case InMonth(col, _, _) => [Sql(" AND YEAR(" + col + ") = "), Hole, Sql(" AND MONTH(" + col + ") = "), Hole]
    case InDays(col, _, _) => [Sql(" AND DATE(" + col + ") >= "), Hole, Sql(" AND DATE(" + col + ") <= "), Hole]
    case Stale => [Sql(StaleSql)]
    case NotOverdue => [Sql(NotOverdueSql)]
    case SampleFilter(k) => [Sql(SampleSql(k))]
  }

  function CondArgs(c: Cond): seq<Arg>
  {
    match c
    case Eq(_, v) => [v]
    case Like(_, t) => [Str("%" + t + "%")]
    case InMonth(_, y, m) => [Num(y), Num(m)]
    case InDays(_, a, b) => [Str(a), Str(b)]
    case _ => []
  }

  lemma BindLit(a: string)
    ensures Bind([Sql(a)], []) == Some(a)
  {
    assert a + "" == a;
  }

  /** Binding text first: the text, then the rest bound. */
  lemma BindSqlHead(t: string, ps: seq<Piece>, args: seq<Arg>)
    ensures Bind([Sql(t)] + ps, args) == if Bind(ps, args).Some? then Some(t + Bind(ps, args).value) else None
  {
    assert ([Sql(t)] + ps)[1..] == ps;
  }

  /** Binding a placeholder first: the first argument, then the rest bound. */
  lemma BindHoleHead(ps: seq<Piece>, x: Arg, args: seq<Arg>)
    ensures Bind([Hole] + ps, [x] + args) == if Bind(ps, args).Some? then Some(Inline(x) + Bind(ps, args).value) else None
  {
    assert ([Hole] + ps)[1..] == ps && ([x] + args)[1..] == args;
  }

  lemma BindOne(a: string, x: Arg)
    ensures Bind([Sql(a), Hole], [x]) == Some(a + Inline(x))
  {
    assert [Sql(a), Hole][1..] == [Hole];
    assert [Hole][1..] == [] && [x][1..] == [];
    assert Bind([], []) == Some("");
    assert Bind([Hole], [x]) == Some(Inline(x) + "");
    assert Inline(x) + "" == Inline(x);
  }

  lemma BindTwo(a: string, x: Arg, b: string, y: Arg)
    ensures Bind([Sql(a), Hole, Sql(b), Hole], [x, y]) == Some(a + Inline(x) + b + Inline(y))
  {
    BindOne(b, y);
    BindHoleHead([Sql(b), Hole], x, [y]);
    BindSqlHead(a, [Hole] + [Sql(b), Hole], [x] + [y]);
    assert [Sql(a)] + ([Hole] + [Sql(b), Hole]) == [Sql(a), Hole, Sql(b), Hole];
    assert [x] + [y] == [x, y];
    assert a + (Inline(x) + (b + Inline(y))) == a + Inline(x) + b + Inline(y);
  }

  /** The condition with its values written in: binding the condition's own
    * text to its own arguments gives exactly this. */
  function CondText(c: Cond): (t: string)
    ensures Bind(CondSql(c), CondArgs(c)) == Some(t)
  {
    match c
    case Eq(col, v) =>
      BindOne(" AND " + col + " = ", v);
      " AND " + col + " = " + Inline(v)
    case Like(col, x) =>
      BindOne(" AND " + col + " LIKE ", Str("%" + x + "%"));
      " AND " + col + " LIKE " + Inline(Str("%" + x + "%"))
    case InMonth(col, y, m) =>
      assert CondSql(c) == [Sql(" AND YEAR(" + col + ") = "), Hole, Sql(" AND MONTH(" + col + ") = "), Hole];
      assert CondArgs(c) == [Num(y), Num(m)];
      assert Inline(Num(y)) == IntToString(y) && Inline(Num(m)) == IntToString(m);
      var year, month := " AND YEAR(" + col + ") = ", " AND MONTH(" + col + ") = ";
      BindTwo(year, Num(y), month, Num(m));
      year + IntToString(y) + month + IntToString(m)
    case InDays(col, a, b) =>
      var from, to := " AND DATE(" + col + ") >= ", " AND DATE(" + col + ") <= ";
      BindTwo(from, Str(a), to, Str(b));
      from + Inline(Str(a)) + to + Inline(Str(b))
    case Stale =>
      BindLit(StaleSql);
      StaleSql
    case NotOverdue =>
      BindLit(NotOverdueSql);
      NotOverdueSql
    case SampleFilter(k) =>
      BindLit(SampleSql(k));
      SampleSql(k)
  }

  /** A clause: the head followed by the conditions in the order appended. */
  function ClauseSql(cs: seq<Cond>): seq<Piece>
  {
    if |cs| == 0 then [Sql(WhereHead)] else ClauseSql(cs[..|cs| - 1]) + CondSql(cs[|cs| - 1])
  }

  function ClauseArgs(cs: seq<Cond>): seq<Arg>
  {
    if |cs| == 0 then [] else ClauseArgs(cs[..|cs| - 1]) + CondArgs(cs[|cs| - 1])
  }

  function ClauseText(cs: seq<Cond>): string
  {
    if |cs| == 0 then WhereHead else ClauseText(cs[..|cs| - 1]) + CondText(cs[|cs| - 1])
  }

  lemma AddCond(cs: seq<Cond>, c: Cond)
    ensures ClauseSql(cs + [c]) == ClauseSql(cs) + CondSql(c)
    ensures ClauseArgs(cs + [c]) == ClauseArgs(cs) + CondArgs(c)
    ensures ClauseText(cs + [c]) == ClauseText(cs) + CondText(c)
  {
    assert (cs + [c])[..|cs|] == cs;
  }

  /** `whereSQL += …; args = append(args, …)` for one condition. */
  method Append(whereSQL: seq<Piece>, args: seq<Arg>, ghost conds: seq<Cond>, c: Cond)
    returns (whereSQL': seq<Piece>, args': seq<Arg>)
    requires whereSQL == ClauseSql(conds) && args == ClauseArgs(conds)
    ensures whereSQL' == ClauseSql(conds + [c]) && args' == ClauseArgs(conds + [c])
  {
    AddCond(conds, c);
    whereSQL', args' := whereSQL + CondSql(c), args + CondArgs(c);
  }

  /** An `if guard { whereSQL += …; args = append(args, …) }` block. */
  method AppendIf(whereSQL: seq<Piece>, args: seq<Arg>, ghost conds: seq<Cond>, guard: bool, c: Cond)
    returns (whereSQL': seq<Piece>, args': seq<Arg>)
    requires whereSQL == ClauseSql(conds) && args == ClauseArgs(conds)
    ensures whereSQL' == ClauseSql(AddIf(conds, guard, c)) && args' == ClauseArgs(AddIf(conds, guard, c))
  {
    whereSQL', args' := whereSQL, args;
    if guard {
      whereSQL', args' := Append(whereSQL, args, conds, c);
    }
  }

  /** Every placeholder of a built clause meets its own argument: the
    * placeholder count equals the argument count, and binding writes each
    * condition's values into that condition. */
  lemma {:induction false} ClauseBinds(cs: seq<Cond>)
    ensures Holes(ClauseSql(cs)) == |ClauseArgs(cs)|
    ensures Bind(ClauseSql(cs), ClauseArgs(cs)) == Some(ClauseText(cs))
  {
    if |cs| == 0 {
      assert Bind([Sql(WhereHead)], []) == Some(WhereHead + "");
      assert WhereHead + "" == WhereHead;
    } else {
      var init, c := cs[..|cs| - 1], cs[|cs| - 1];
      ClauseBinds(init);
      assert Bind(CondSql(c), CondArgs(c)) == Some(CondText(c));
      BindAppend(ClauseSql(init), ClauseArgs(init), CondSql(c), CondArgs(c));
    }
  }

  // ---------------------------------------------------------------------
  // The audit task list (`BuildWhereClause`, `GetOrderByClause`, `QueryTasks`)

  datatype TaskQuery = TaskQuery(searchName: string, auditStatus: string, archiveType: string,
                                 sampleStatus: string, tag: string, tab: string, page: int, pageSize: int)

  const OverdueTab: string := "overdue"

  predicate ValidArchiveType(s: string)
  {
    s == "新增" || s == "取推" || s == "补档案" || s == "变更"
  }

  function SampleKindOf(s: string): (k: Option<SampleKind>)
    ensures k.Some? <==> s == "已抽检" || s == "待整改" || s == "待抽检"
  {
    if s == "已抽检" then Some(SampledOk)
    else if s == "待整改" then Some(SampledNeedsFix)
    else if s == "待抽检" then Some(AwaitingSample)
    else None
  }

  function TabConds(tab: string): seq<Cond>
  {
    if tab == OverdueTab then [Eq("audit_status", Str(Workflow.StatusNeedsFix)), Stale] else [NotOverdue]
  }

  /** One optional filter: `c` is appended when `guard` holds. */
  function AddIf(cs: seq<Cond>, guard: bool, c: Cond): seq<Cond>
  {
    if guard then cs + [c] else cs
  }

  lemma InAddIf(cs: seq<Cond>, guard: bool, c: Cond, x: Cond)
    ensures x in AddIf(cs, guard, c) <==> x in cs || (guard && x == c)
  {
  }

  /** The nested tests that guard the status, archive-type and sample blocks. */
  predicate StatusGuard(o: TaskQuery) { o.auditStatus != "" && Workflow.ValidStatus(o.auditStatus) && o.tab != OverdueTab }
  predicate ArchiveGuard(o: TaskQuery) { o.archiveType != "" && ValidArchiveType(o.archiveType) }
  predicate SampleGuard(o: TaskQuery) { o.sampleStatus != "" && o.tab != OverdueTab && SampleKindOf(o.sampleStatus).Some? }

  function SampleCond(o: TaskQuery): Cond
  {
    match SampleKindOf(o.sampleStatus)
    case Some(k) => SampleFilter(k)
    case None => SampleFilter(AwaitingSample)
  }

  /** The tab's conditions and the two text searches. */
  function SearchConds(o: TaskQuery): seq<Cond>
  {
    var cs := AddIf(TabConds(o.tab), o.searchName != "", Like("file_name", o.searchName));
    AddIf(cs, o.tag != "", Like("tag", o.tag))
  }

  /** The conditions `BuildWhereClause` appends, in order. */
  function TaskConds(o: TaskQuery): seq<Cond>
  {
    var cs := AddIf(SearchConds(o), StatusGuard(o), Eq("audit_status", Str(o.auditStatus)));
    var cs := AddIf(cs, ArchiveGuard(o), Eq("archive_type", Str(o.archiveType)));
    AddIf(cs, SampleGuard(o), SampleCond(o))
  }

  /** The first block of `BuildWhereClause`: the tab's own conditions. */
  method TabWhere(tab: string) returns (whereSQL: seq<Piece>, args: seq<Arg>)
    ensures whereSQL == ClauseSql(TabConds(tab)) && args == ClauseArgs(TabConds(tab))
  {
    whereSQL, args := [Sql(WhereHead)], [];
    ghost var conds: seq<Cond> := [];
    if tab == OverdueTab {
      var c := Eq("audit_status", Str(Workflow.StatusNeedsFix));
      whereSQL, args := Append(whereSQL, args, conds, c);
      conds := conds + [c];
      whereSQL, args := Append(whereSQL, args, conds, Stale);
      conds := conds + [Stale];
    } else {
      whereSQL, args := Append(whereSQL, args, conds, NotOverdue);
      conds := conds + [NotOverdue];
    }
    assert conds == TabConds(tab);
  }

  /** `BuildWhereClause`: the clause and its arguments, appended condition by
    * condition; every placeholder has its argument. */
  method BuildWhereClause(o: TaskQuery) returns (whereSQL: seq<Piece>, args: seq<Arg>)
    ensures whereSQL == ClauseSql(TaskConds(o)) && args == ClauseArgs(TaskConds(o))
    ensures Holes(whereSQL) == |args|
  {
    whereSQL, args := SearchWhere(o);
    ghost var conds := SearchConds(o);
    whereSQL, args := AppendIf(whereSQL, args, conds, StatusGuard(o), Eq("audit_status", Str(o.auditStatus)));
    conds := AddIf(conds, StatusGuard(o), Eq("audit_status", Str(o.auditStatus)));
    whereSQL, args := AppendIf(whereSQL, args, conds, ArchiveGuard(o), Eq("archive_type", Str(o.archiveType)));
    conds := AddIf(conds, ArchiveGuard(o), Eq("archive_type", Str(o.archiveType)));
    whereSQL, args := AppendIf(whereSQL, args, conds, SampleGuard(o), SampleCond(o));
    conds := AddIf(conds, SampleGuard(o), SampleCond(o));
    ClauseBinds(conds);
  }

  /** The tab block and the name and tag searches of `BuildWhereClause`. */
  method SearchWhere(o: TaskQuery) returns (whereSQL: seq<Piece>, args: seq<Arg>)
    ensures whereSQL == ClauseSql(SearchConds(o)) && args == ClauseArgs(SearchConds(o))
  {
    whereSQL, args := TabWhere(o.tab);
    ghost var conds := TabConds(o.tab);
    whereSQL, args := AppendIf(whereSQL, args, conds, o.searchName != "", Like("file_name", o.searchName));
    conds := AddIf(conds, o.searchName != "", Like("file_name", o.searchName));
    whereSQL, args := AppendIf(whereSQL, args, conds, o.tag != "", Like("tag", o.tag));
  }

  /** The overdue tab pins the status to 已审核待整改 and the staleness test;
    * every other tab carries the negation instead, and only one of the two
    * ever appears. */
  lemma TabRule(o: TaskQuery)
    ensures o.tab == OverdueTab <==> Stale in TaskConds(o)
    ensures o.tab != OverdueTab <==> NotOverdue in TaskConds(o)
    ensures !(Stale in TaskConds(o) && NotOverdue in TaskConds(o))
  {
  }

  /** A status comparison appears for exactly one value: 已审核待整改 on the
    * overdue tab whatever was asked, otherwise the requested status when it
    * is one of the three valid ones. */
  lemma StatusFilterRule(o: TaskQuery, v: string)
    ensures Eq("audit_status", Str(v)) in TaskConds(o) <==>
      (if o.tab == OverdueTab then v == Workflow.StatusNeedsFix
       else Workflow.ValidStatus(o.auditStatus) && v == o.auditStatus)
  {
  }

  /** The archive-type comparison appears exactly for the four known types. */
  lemma ArchiveFilterRule(o: TaskQuery, v: string)
    ensures Eq("archive_type", Str(v)) in TaskConds(o) <==> ValidArchiveType(o.archiveType) && v == o.archiveType
  {
  }

  /** A sample-status condition appears exactly when a known status is asked
    * for outside the overdue tab, and then it is that status's condition. */
  lemma SampleFilterRule(o: TaskQuery, k: SampleKind)
    ensures SampleFilter(k) in TaskConds(o) <==> o.tab != OverdueTab && SampleKindOf(o.sampleStatus) == Some(k)
  {
  }

  /** The name and tag searches match by substring, and only when non-empty. */
  lemma SearchRule(o: TaskQuery, t: string)
    ensures Like("file_name", t) in TaskConds(o) <==> o.searchName != "" && t == o.searchName
    ensures Like("tag", t) in TaskConds(o) <==> o.tag != "" && t == o.tag
  {
    LikeInSearch(o, Like("file_name", t));
    LikeInSearch(o, Like("tag", t));
    assert "file_name"[0] != "tag"[0];
  }

  /** A text search is in the conditions exactly when it is one of the two
    * searches: the tab and the later filters have none. */
  lemma LikeInSearch(o: TaskQuery, x: Cond)
    requires x.Like?
    ensures x in TaskConds(o) <==>
      (o.searchName != "" && x == Like("file_name", o.searchName)) || (o.tag != "" && x == Like("tag", o.tag))
  {
    var c1 := AddIf(TabConds(o.tab), o.searchName != "", Like("file_name", o.searchName));
    InAddIf(TabConds(o.tab), o.searchName != "", Like("file_name", o.searchName), x);
    InAddIf(c1, o.tag != "", Like("tag", o.tag), x);
    var c3 := AddIf(SearchConds(o), StatusGuard(o), Eq("audit_status", Str(o.auditStatus)));
    var c4 := AddIf(c3, ArchiveGuard(o), Eq("archive_type", Str(o.archiveType)));
    InAddIf(SearchConds(o), StatusGuard(o), Eq("audit_status", Str(o.auditStatus)), x);
    InAddIf(c3, ArchiveGuard(o), Eq("archive_type", Str(o.archiveType)), x);
    InAddIf(c4, SampleGuard(o), SampleCond(o), x);
  }

  /** Every sample-status condition also requires the task to be 已完成. */
  lemma SampleFilterPinsCompleted(k: SampleKind)
    ensures CondText(SampleFilter(k))[..|PinCompleted|] == PinCompleted
  {
  }

  function OrderBy(tab: string): (r: string)
    ensures tab == OverdueTab <==> r == " ORDER BY updated_at DESC"
    ensures tab != OverdueTab <==> r == " ORDER BY id DESC"
  {
    if tab == OverdueTab then " ORDER BY updated_at DESC" else " ORDER BY id DESC"
  }

  /** Rows skipped before the requested page, `(Page - 1) * PageSize` in
    * Go's 64-bit `int`: the product wraps modulo 2^64. */
  function Offset(page: int, pageSize: int): int
  {
    WrapInt64((page - 1) * pageSize)
  }

  const SelectTasks: string := "SELECT id, file_name, organization, import_time, audit_status, record_count, audit_comment, updated_at, is_single_soldier, archive_type, tag, is_sampled, last_sampled_at FROM audit_tasks "

  /** A statement: a fixed head, the clause, then `order` with LIMIT and
    * OFFSET placeholders for the page size and offset. */
  function Statement(head: string, cs: seq<Cond>, order: string, size: int, offset: int): (seq<Piece>, seq<Arg>)
  {
    ([Sql(head)] + ClauseSql(cs) + [Sql(order + " LIMIT "), Hole, Sql(" OFFSET "), Hole],
     ClauseArgs(cs) + [Num(size), Num(offset)])
  }

  /** A paged statement always binds: its last two placeholders take the
    * page size and the offset, after the clause's own arguments. */
  lemma StatementBinds(head: string, cs: seq<Cond>, order: string, size: int, offset: int)
    ensures Bind(Statement(head, cs, order, size, offset).0, Statement(head, cs, order, size, offset).1) ==
      Some(head + ClauseText(cs) + (order + " LIMIT " + IntToString(size) + " OFFSET " + IntToString(offset)))
  {
    ClauseBinds(cs);
    BindTwo(order + " LIMIT ", Num(size), " OFFSET ", Num(offset));
    BindAround(head, ClauseSql(cs), ClauseArgs(cs), ClauseText(cs),
               [Sql(order + " LIMIT "), Hole, Sql(" OFFSET "), Hole], [Num(size), Num(offset)],
               order + " LIMIT " + IntToString(size) + " OFFSET " + IntToString(offset));
  }

  lemma BindAround(head: string, mid: seq<Piece>, margs: seq<Arg>, mtext: string,
                   tail: seq<Piece>, targs: seq<Arg>, ttext: string)
    requires Bind(mid, margs) == Some(mtext) && Bind(tail, targs) == Some(ttext)
    ensures Bind([Sql(head)] + mid + tail, margs + targs) == Some(head + mtext + ttext)
  {
    BindAppend(mid, margs, tail, targs);
    BindLit(head);
    BindAppend([Sql(head)], [], mid + tail, margs + targs);
    assert [Sql(head)] + mid + tail == [Sql(head)] + (mid + tail);
    assert [] + (margs + targs) == margs + targs;
    assert head + (mtext + ttext) == head + mtext + ttext;
  }

  /** The list statement of `QueryTasks`: offset (page − 1) × pageSize. */
  function ListStatement(o: TaskQuery): (seq<Piece>, seq<Arg>)
  {
    Statement(SelectTasks, TaskConds(o), OrderBy(o.tab), o.pageSize, Offset(o.page, o.pageSize))
  }

  /** Consecutive pages follow each other without gap or overlap, modulo
    * 2^64; while page × size fits in 64 bits the offsets are the plain,
    * non-negative products and the pages tile exactly. */
  lemma OffsetsTile(page: int, pageSize: int)
    ensures Offset(page + 1, pageSize) == WrapInt64(Offset(page, pageSize) + pageSize)
    ensures page >= 1 && pageSize >= 0 && page * pageSize <= MaxInt64 ==>
      Offset(page, pageSize) == (page - 1) * pageSize >= 0 &&
      Offset(page + 1, pageSize) == Offset(page, pageSize) + pageSize
  {
    WrapCongruent(page * pageSize, (page - 1) * pageSize + pageSize);
    var w := WrapInt64((page - 1) * pageSize);
    WrapCongruent(w + pageSize, (page - 1) * pageSize + pageSize);
    if page >= 1 && pageSize >= 0 && page * pageSize <= MaxInt64 {
      MulMono(0, page - 1, pageSize);
      MulMono(page - 1, page, pageSize);
    }
  }

  /** Past MaxInt64 / size the offset wraps: page MaxInt64 of 30 rows a page
    * asks for offset −60. */
  lemma OffsetWraps()
    ensures Offset(MaxInt64, AuditPageSize) == -60
  {
  }

  // ---------------------------------------------------------------------
  // The month and status filters of the statistics and checkpoint list pages

  /** A value `time.Parse("2006-01", …)` accepts is four digits, '-' and two
    * digits, and the parsed year and month are those digits. */
  lemma MonthShape(month: string)
    requires Parse(L_Month, month).Some?
    ensures |month| == 7 && month[4] == '-'
    ensures AllDigits(month[..4]) && AllDigits(month[5..])
    ensures Parse(L_Month, month).value.year == DigitsValue(month[..4])
    ensures Parse(L_Month, month).value.month == DigitsValue(month[5..])
  {
    var s := month;
    assert L_Month[1..] == [Lit('-'), Month2] && L_Month[1..][1..] == [Month2];
    var c1 := Consume(Year4, NextIsFraction(L_Month[1..]), s, Start);
    assert c1.Some?;
    var f1 := c1.value.1;
    assert c1.value.0 == 4 && AllDigits(s[..4]) && f1.year == DigitsValue(s[..4]);
    var c2 := Consume(Lit('-'), NextIsFraction([Month2]), s[4..], f1);
    assert c2.Some? && c2.value == (1, f1);
    assert s[4..][1..] == s[5..];
    var c3 := Consume(Month2, false, s[5..], f1);
    assert c3.Some?;
    var g := GetNum(s[5..], true);
    assert g.Some? && g.value.1 == 2;
    assert s[5..][2..] == [];
    assert s[5..][..2] == s[5..];
  }

  /** After a successful parse `strings.Split(month, "-")` has exactly two
    * parts and `Atoi` reads them back as the parsed year and month. */
  lemma MonthSplit(month: string)
    requires Parse(L_Month, month).Some?
    ensures Split(month, '-') == [month[..4], month[5..]]
    ensures Atoi(month[..4]) == Some(Parse(L_Month, month).value.year)
    ensures Atoi(month[5..]) == Some(Parse(L_Month, month).value.month)
  {
    MonthShape(month);
    var y, m := month[..4], month[5..];
    assert month == y + ['-'] + m;
    assert '-' !in y && '-' !in m by {
      assert !IsDigit('-');
    }
    SplitPair(y, m, '-');
    DigitsValue4(y);
    DigitsValue2(m);
    AtoiDigits(y);
    AtoiDigits(m);
  }

  /** The month condition on `column`: added only when the value parses as
    * YYYY-MM, carrying the year and month, two arguments. */
  function MonthConds(month: string, column: string): seq<Cond>
  {
    if month != "" && Parse(L_Month, month).Some? then
      var parts := Split(month, '-');
      if |parts| == 2 then [InMonth(column, Atoi(parts[0]).GetOr(0), Atoi(parts[1]).GetOr(0))] else []
    else []
  }

  lemma MonthRule(month: string, column: string)
    ensures MonthConds(month, column) ==
      match Parse(L_Month, month)
      case Some(f) => [InMonth(column, f.year, f.month)]
      case None => []
  {
    if Parse(L_Month, month).Some? {
      MonthSplit(month);
      assert month != "" by { MonthShape(month); }
    }
  }

  /** The status condition on `column`: added only for a number 0, 1 or 2. */
  function StatusCodeConds(status: string, column: string): seq<Cond>
  {
    var v := Atoi(status);
    if status != "" && v.Some? && 0 <= v.value <= 2 then [Eq(column, Num(v.value))] else []
  }

  /** The `if auditStatus != "" { … Atoi … }` block: a status condition on
    * `column` for a number 0, 1 or 2. */
  method AppendStatus(whereSQL: seq<Piece>, args: seq<Arg>, ghost conds: seq<Cond>, status: string, column: string)
    returns (whereSQL': seq<Piece>, args': seq<Arg>)
    requires whereSQL == ClauseSql(conds) && args == ClauseArgs(conds)
    ensures whereSQL' == ClauseSql(conds + StatusCodeConds(status, column))
    ensures args' == ClauseArgs(conds + StatusCodeConds(status, column))
  {
    whereSQL', args' := whereSQL, args;
    assert conds + [] == conds;
    if status != "" {
      var statusInt := Atoi(status);
      if statusInt.Some? && (statusInt.value == 0 || statusInt.value == 1 || statusInt.value == 2) {
        whereSQL', args' := Append(whereSQL, args, conds, Eq(column, Num(statusInt.value)));
      }
    }
  }

  lemma StatusCodeRule(status: string, column: string, v: int)
    ensures Eq(column, Num(v)) in StatusCodeConds(status, column) <==> Atoi(status) == Some(v) && 0 <= v <= 2
  {
  }

  /** The column the monthly statistics filter on: completed_at for the
    * status "2", import_time for anything else. */
  function StatsMonthColumn(taskPrefix: string, auditStatus: string): string
  {
    taskPrefix + (if auditStatus == "2" then ".completed_at" else ".import_time")
  }

  /** The conditions `buildWhereSQL` of the monthly statistics appends. */
  function StatsConds(month: string, auditStatus: string, taskPrefix: string, detailPrefix: string): seq<Cond>
  {
    MonthConds(month, StatsMonthColumn(taskPrefix, auditStatus))
    + StatusCodeConds(auditStatus, detailPrefix + ".audit_status")
  }

  /** `buildWhereSQL`: the clause and its arguments for the statistics page. */
  method BuildStatsWhere(month: string, auditStatus: string, taskPrefix: string, detailPrefix: string)
    returns (whereSQL: seq<Piece>, args: seq<Arg>)
    ensures whereSQL == ClauseSql(StatsConds(month, auditStatus, taskPrefix, detailPrefix))
    ensures args == ClauseArgs(StatsConds(month, auditStatus, taskPrefix, detailPrefix))
    ensures Holes(whereSQL) == |args|
  {
    whereSQL, args := [Sql(WhereHead)], [];
    ghost var conds: seq<Cond> := [];
    whereSQL, args := AppendStatsMonth(whereSQL, args, conds, month, auditStatus, taskPrefix);
    conds := conds + MonthConds(month, StatsMonthColumn(taskPrefix, auditStatus));
    whereSQL, args := AppendStatus(whereSQL, args, conds, auditStatus, detailPrefix + ".audit_status");
    conds := conds + StatusCodeConds(auditStatus, detailPrefix + ".audit_status");
    assert conds == StatsConds(month, auditStatus, taskPrefix, detailPrefix);
    ClauseBinds(conds);
  }

  /** The statistics page's month block: a month that parses and splits in
    * two adds a year-and-month condition on the column the status picks. */
  method AppendStatsMonth(whereSQL: seq<Piece>, args: seq<Arg>, ghost conds: seq<Cond>, month: string, auditStatus: string, taskPrefix: string)
    returns (whereSQL': seq<Piece>, args': seq<Arg>)
    requires whereSQL == ClauseSql(conds) && args == ClauseArgs(conds)
    ensures whereSQL' == ClauseSql(conds + MonthConds(month, StatsMonthColumn(taskPrefix, auditStatus)))
    ensures args' == ClauseArgs(conds + MonthConds(month, StatsMonthColumn(taskPrefix, auditStatus)))
  {
    whereSQL', args' := whereSQL, args;
    assert conds + [] == conds;
    if month != "" {
      if Parse(L_Month, month).Some? {
        var parts := Split(month, '-');
        if |parts| == 2 {
          var year := Atoi(parts[0]).GetOr(0);
          var monthNum := Atoi(parts[1]).GetOr(0);
          var column := taskPrefix + (if auditStatus == "2" then ".completed_at" else ".import_time");
          whereSQL', args' := Append(whereSQL, args, conds, InMonth(column, year, monthNum));
        }
      }
    }
  }

  /** The statistics month filter follows the status text exactly: "2"
    * filters on completion, any other text (even "+2" or "02", which still
    * select status 2) on import. */
  lemma StatsMonthColumnRule(month: string, taskPrefix: string, detailPrefix: string, f: Fields)
    requires Parse(L_Month, month) == Some(f)
    ensures StatsConds(month, "2", taskPrefix, detailPrefix)[0] == InMonth(taskPrefix + ".completed_at", f.year, f.month)
    ensures StatsConds(month, "02", taskPrefix, detailPrefix)[0] == InMonth(taskPrefix + ".import_time", f.year, f.month)
    ensures Eq(detailPrefix + ".audit_status", Num(2)) in StatsConds(month, "02", taskPrefix, detailPrefix)
  {
    MonthRule(month, StatsMonthColumn(taskPrefix, "2"));
    MonthRule(month, StatsMonthColumn(taskPrefix, "02"));
    assert StatsMonthColumn(taskPrefix, "02") == taskPrefix + ".import_time";
    LeadingZeroTwo();
    StatusCodeRule("02", detailPrefix + ".audit_status", 2);
  }

  lemma LeadingZeroTwo()
    ensures Atoi("02") == Some(2)
  {
    assert AllDigits("02");
    DigitsValue2("02");
  }

  const CheckpointMonthColumn: string := "cd.update_time"

  /** The conditions the checkpoint detail list appends. */
  function CheckpointConds(code: string, name: string, month: string, auditStatus: string): seq<Cond>
  {
    var cs := AddIf([], code != "", Like("cd.checkpoint_code", code));
    var cs := AddIf(cs, name != "", Like("cd.checkpoint_name", name));
    cs + MonthConds(month, CheckpointMonthColumn)
    + StatusCodeConds(auditStatus, "cd.audit_status")
  }

  /** The checkpoint list's month block: the month text is appended as soon
    * as the value parses, its two arguments only once the split yields two
    * parts, which a parsed value always does. */
  method AppendCheckpointMonth(whereSQL: seq<Piece>, args: seq<Arg>, ghost conds: seq<Cond>, month: string)
    returns (whereSQL': seq<Piece>, args': seq<Arg>)
    requires whereSQL == ClauseSql(conds) && args == ClauseArgs(conds)
    ensures whereSQL' == ClauseSql(conds + MonthConds(month, CheckpointMonthColumn))
    ensures args' == ClauseArgs(conds + MonthConds(month, CheckpointMonthColumn))
  {
    whereSQL', args' := whereSQL, args;
    assert conds + [] == conds;
    if month != "" {
      if Parse(L_Month, month).Some? {
        whereSQL' := whereSQL + CondSql(InMonth(CheckpointMonthColumn, 0, 0));
        var parts := Split(month, '-');
        MonthSplit(month);
        if |parts| == 2 {
          var c := InMonth(CheckpointMonthColumn, Atoi(parts[0]).GetOr(0), Atoi(parts[1]).GetOr(0));
          args' := args + CondArgs(c);
          AddCond(conds, c);
        }
      }
    }
  }

  /** The checkpoint detail list's filter: the clause and its arguments;
    * every placeholder has its argument. */
  method BuildCheckpointWhere(code: string, name: string, month: string, auditStatus: string)
    returns (whereSQL: seq<Piece>, args: seq<Arg>)
    ensures whereSQL == ClauseSql(CheckpointConds(code, name, month, auditStatus))
    ensures args == ClauseArgs(CheckpointConds(code, name, month, auditStatus))
    ensures Holes(whereSQL) == |args|
  {
    whereSQL, args := [Sql(WhereHead)], [];
    ghost var conds: seq<Cond> := [];

    whereSQL, args := AppendIf(whereSQL, args, conds, code != "", Like("cd.checkpoint_code", code));
    conds := AddIf(conds, code != "", Like("cd.checkpoint_code", code));
    whereSQL, args := AppendIf(whereSQL, args, conds, name != "", Like("cd.checkpoint_name", name));
    conds := AddIf(conds, name != "", Like("cd.checkpoint_name", name));
    whereSQL, args := AppendCheckpointMonth(whereSQL, args, conds, month);
    conds := conds + MonthConds(month, CheckpointMonthColumn);
    ghost var done := conds;

    if auditStatus != "" {
      var statusInt := Atoi(auditStatus);
      if statusInt.Some? && (statusInt.value == 0 || statusInt.value == 1 || statusInt.value == 2) {
        var c := Eq("cd.audit_status", Num(statusInt.value));
        whereSQL, args := Append(whereSQL, args, conds, c);
        conds := conds + [c];
      }
    }
    assert conds == done + StatusCodeConds(auditStatus, "cd.audit_status");

    assert conds == CheckpointConds(code, name, month, auditStatus);
    ClauseBinds(conds);
  }

  // ---------------------------------------------------------------------
  // Pagination of the list pages

  const AuditPageSize: nat := 30
  const CheckpointPageSize: nat := 50
  const FilePageSize: nat := 20

  /** The page the request asks for, `page, _ := strconv.Atoi(…)` raised to
    * 1: a number that reads is kept when at least 1, unreadable text reads
    * as 1, and digits beyond 64 bits read as the 64-bit bound, so a huge
    * page reads as MaxInt64. */
  function RequestedPage(pageText: string): (p: int)
    ensures 1 <= p <= MaxInt64
    ensures Atoi(pageText).Some? ==> p == (if Atoi(pageText).value < 1 then 1 else Atoi(pageText).value)
    ensures Atoi(pageText).None? ==> p == 1 || p == MaxInt64
  {
    var n := AtoiIgnoringError(pageText);
    if n < 1 then 1 else n
  }

  /** Pages needed for `count` rows: the least n ≥ 1 with count ≤ n × size. */
  function PageCount(count: nat, pageSize: nat): (n: nat)
    requires pageSize > 0
    ensures n >= 1 && count <= n * pageSize
    ensures n == 1 || (n - 1) * pageSize < count
  {
    var t := (count + pageSize - 1) / pageSize;
    assert t * pageSize <= count + pageSize - 1 < (t + 1) * pageSize;
    if t == 0 then 1 else t
  }

  datatype Paging = Paging(page: int, totalPages: int, offset: int)

  /** The handlers' page arithmetic as written: the offset is computed from
    * the requested page before that page is clamped to the last one. */
  function Paginate(pageText: string, pageSize: nat, count: nat): (p: Paging)
    requires pageSize > 0
    ensures p.totalPages == PageCount(count, pageSize)
    ensures 1 <= p.page <= p.totalPages
    ensures p.page == RequestedPage(pageText) || p.page == p.totalPages
    ensures InInt64(p.offset) && (p.offset - (RequestedPage(pageText) - 1) * pageSize) % Two64 == 0
    ensures (RequestedPage(pageText) - 1) * pageSize <= MaxInt64 ==>
      p.offset == (RequestedPage(pageText) - 1) * pageSize
  {
    var page := RequestedPage(pageText);
    var skipped := (page - 1) * pageSize;
    MulMono(0, page - 1, pageSize);
    var offset := WrapInt64(skipped);
    var totalPages := PageCount(count, pageSize);
    Paging(if page > totalPages then totalPages else page, totalPages, offset)
  }

  /** The same arithmetic with the offset taken from the clamped page. */
  function PaginateIntended(pageText: string, pageSize: nat, count: nat): (p: Paging)
    requires pageSize > 0
    ensures p.totalPages == PageCount(count, pageSize)
    ensures 1 <= p.page <= p.totalPages
    ensures p.page == RequestedPage(pageText) || p.page == p.totalPages
    ensures p.offset == (p.page - 1) * pageSize && 0 <= p.offset <= count
  {
    var page := RequestedPage(pageText);
    var totalPages := PageCount(count, pageSize);
    var clamped := if page > totalPages then totalPages else page;
    MulMono(0, clamped - 1, pageSize);
    MulMono(clamped - 1, totalPages - 1, pageSize);
    Paging(clamped, totalPages, (clamped - 1) * pageSize)
  }

  /** The page query: MySQL refuses a negative OFFSET, which the handlers
    * answer with 数据库查询失败; otherwise the rows of `Fetched`. */
  function FetchPage(count: nat, offset: int, limit: nat): (r: Option<nat>)
    ensures r.None? <==> offset < 0
    ensures r.Some? ==> r.value <= limit && (r.value == 0 <==> offset >= count || limit == 0)
  {
    if offset < 0 then None else Some(Fetched(count, offset, limit))
  }

  /** Every page text reading as MaxInt64 — any number from
    * 9223372036854775807 up — makes the audit list's query fail, whatever
    * the row count. */
  lemma HugePageFails(pageText: string, count: nat)
    requires Atoi(pageText).None? && RequestedPage(pageText) == MaxInt64
    ensures Paginate(pageText, AuditPageSize, count).offset == -60
    ensures FetchPage(count, Paginate(pageText, AuditPageSize, count).offset, AuditPageSize).None?
  {
    OffsetWraps();
  }

  /** The page "9223372036854775808" (2^63, one past MaxInt64) is a range
    * error that reads as MaxInt64, so with 100 rows the audit list claims
    * page 4 of 4 while its query asks for offset −60 and fails. */
  lemma OverflowPageFails()
    ensures RequestedPage(NatToString(MaxInt64 + 1)) == MaxInt64
    ensures Paginate(NatToString(MaxInt64 + 1), AuditPageSize, 100) == Paging(4, 4, -60)
    ensures FetchPage(100, -60, AuditPageSize).None?
  {
    AtoiDecimal(MaxInt64 + 1);
    HugePageFails(NatToString(MaxInt64 + 1), 100);
  }

  /** The page "614891469123651722" fits in 64 bits, but its offset wraps to
    * 14, so with 100 rows the audit list shows rows 15 to 44 as page 4. */
  lemma WrappedPageShowsRows()
    ensures RequestedPage(NatToString(614891469123651722)) == 614891469123651722
    ensures Paginate(NatToString(614891469123651722), AuditPageSize, 100) == Paging(4, 4, 14)
    ensures FetchPage(100, 14, AuditPageSize) == Some(30)
  {
    AtoiDecimal(614891469123651722);
    var page := RequestedPage(NatToString(614891469123651722));
    assert (page - 1) * AuditPageSize == 18446744073709551630;
    WrapOnce(18446744073709551630);
    assert PageCount(100, AuditPageSize) == 4;
  }

  /** Rows `LIMIT limit OFFSET offset` returns out of `count`. */
  function Fetched(count: nat, offset: int, limit: nat): (n: nat)
    requires offset >= 0
    ensures n <= limit
    ensures n == 0 <==> offset >= count || limit == 0
    ensures n > 0 ==> offset + n <= count
    ensures n < limit ==> offset + n >= count
  {
    if offset >= count then 0 else if count - offset < limit then count - offset else limit
  }

  /** The "records a to b" line of the audit list; 0 to 0 for no rows. */
  function RecordRange(page: int, pageSize: nat, count: nat): (r: (int, int))
  {
    if count == 0 then (0, 0)
    else
      var start := (page - 1) * pageSize + 1;
      var end := if page * pageSize > count then count else page * pageSize;
      (start, end)
  }

  lemma MulMono(a: int, b: int, k: nat)
    requires a <= b
    ensures a * k <= b * k
  {
  }

  /** The page shown is inside [1, totalPages], totalPages ≥ 1, and the
    * record range is 0 to 0 for no rows and otherwise a non-empty stretch of
    * at most one page ending at min(page × size, count). */
  lemma RecordRangeRule(pageText: string, pageSize: nat, count: nat)
    requires pageSize > 0
    ensures var p := Paginate(pageText, pageSize, count);
      var (s, e) := RecordRange(p.page, pageSize, count);
      (count == 0 ==> s == 0 && e == 0) &&
      (count > 0 ==> 1 <= s <= e <= count && e - s < pageSize &&
                     e == (if p.page * pageSize < count then p.page * pageSize else count))
  {
    var p := Paginate(pageText, pageSize, count);
    if count > 0 {
      MulMono(p.page - 1, p.totalPages - 1, pageSize);
    }
  }

  /** As written, a request past the last page shows the last page's number
    * and record range, while the rows come from the requested offset. */
  lemma StalePageShowsNoRows()
    ensures Paginate("2", AuditPageSize, 30) == Paging(1, 1, 30)
    ensures RecordRange(1, AuditPageSize, 30) == (1, 30)
    ensures Fetched(30, Paginate("2", AuditPageSize, 30).offset, AuditPageSize) == 0
  {
    assert Atoi("2") == Some(2) by {
      assert AllDigits("2");
      assert "2"[..0] == [];
    }
  }

  /** On any existing page, the rows fetched at that page's offset are the
    * records its range line claims. */
  lemma PageShowsItsRecords(page: int, pageSize: nat, count: nat)
    requires pageSize > 0 && 1 <= page <= PageCount(count, pageSize)
    ensures var (s, e) := RecordRange(page, pageSize, count);
      Fetched(count, (page - 1) * pageSize, pageSize) == (if count == 0 then 0 else e - s + 1)
  {
    var offset := (page - 1) * pageSize;
    var n := PageCount(count, pageSize);
    assert page * pageSize == offset + pageSize;
    if count > 0 {
      MulMono(page - 1, n - 1, pageSize);
      assert offset < count;
    }
  }

  /** With the offset taken after clamping, the rows fetched are exactly the
    * records the page claims to show. */
  lemma IntendedPageShowsItsRecords(pageText: string, pageSize: nat, count: nat)
    requires pageSize > 0
    ensures var p := PaginateIntended(pageText, pageSize, count);
      var (s, e) := RecordRange(p.page, pageSize, count);
      Fetched(count, p.offset, pageSize) == (if count == 0 then 0 else e - s + 1)
  {
    var p := PaginateIntended(pageText, pageSize, count);
    PageShowsItsRecords(p.page, pageSize, count);
  }

  /** The two agree whenever the requested page exists. */
  lemma AsWrittenAgreesInRange(pageText: string, pageSize: nat, count: nat)
    requires pageSize > 0
    requires RequestedPage(pageText) <= PageCount(count, pageSize)
    requires count <= MaxInt64
    ensures Paginate(pageText, pageSize, count) == PaginateIntended(pageText, pageSize, count)
  {
    var page := RequestedPage(pageText);
    if page > 1 {
      MulMono(page - 1, PageCount(count, pageSize) - 1, pageSize);
    }
  }

  /** The checkpoint and file lists report a zero row count as 1. */
  function ReportedCount(count: nat): (n: nat)
    ensures n >= 1
    ensures count > 0 ==> n == count
  {
    if count == 0 then 1 else count
  }

  datatype ListPage = ListPage(totalCount: nat, paging: Paging)

  /** The page data of the checkpoint detail list and the device file list
    * (page sizes 50 and 20): the reported count, then the same arithmetic as
    * the audit list, offset taken before the clamp. */
  function ListPaging(pageText: string, pageSize: nat, count: nat): (r: ListPage)
    requires pageSize > 0
    ensures r.totalCount >= 1 && r.paging.totalPages >= 1
    ensures 1 <= r.paging.page <= r.paging.totalPages
    ensures count == 0 ==> r.totalCount == 1 && r.paging.totalPages == 1 && r.paging.page == 1
    ensures InInt64(r.paging.offset)
    ensures (RequestedPage(pageText) - 1) * pageSize <= MaxInt64 ==>
      r.paging.offset == (RequestedPage(pageText) - 1) * pageSize
  {
    var reported := ReportedCount(count);
    ListPage(reported, Paginate(pageText, pageSize, reported))
  }
}
