/** The raw-query fallback of the checkpoint file list's export: when the
  * parsed query leaves a filter empty and the raw query is not empty, the
  * raw query is unescaped (or, when it does not unescape, its "%26", "%3d"
  * and "%3D" are rewritten by hand), cut at every '&', and each `key=value`
  * element fills its filter only while that filter is still empty. */
module CheckpointExport {
  import opened Wrappers
  import opened Text
  import opened RawQuery

  /** The export's four filters. */
  datatype Params = Params(checkpointCode: string, checkpointName: string, month: string, auditStatus: string)

  datatype Key = CheckpointCode | CheckpointName | Month | AuditStatus

  function Name(key: Key): string
  {
    match key
    case CheckpointCode => "checkpoint_code"
    case CheckpointName => "checkpoint_name"
    case Month => "month"
    case AuditStatus => "audit_status"
  }

  /** The filter a raw key names, if any. */
  function KeyOf(k: string): (r: Option<Key>)
    ensures r.Some? ==> Name(r.value) == k
  {
    if k == "checkpoint_code" then Some(CheckpointCode)
    else if k == "checkpoint_name" then Some(CheckpointName)
    else if k == "month" then Some(Month)
    else if k == "audit_status" then Some(AuditStatus)
    else None
  }

  /** Lower-case letters and underscores only. */
  predicate Word(s: string)
  {
    forall i :: 0 <= i < |s| ==> ('a' <= s[i] <= 'z') || s[i] == '_'
  }

  /** A word is a byte string that can be written before an '=' and read
    * back untrimmed. */
  lemma WordIsPlain(s: string)
    requires Word(s) && s != []
    ensures '=' !in s && '&' !in s && TrimSpace(s) == s
    ensures forall i :: 0 <= i < |s| ==> s[i] as int < 256
  {
    TrimSpaceUnchanged(s);
  }

  lemma KeyOfName(key: Key)
    ensures KeyOf(Name(key)) == Some(key)
  {
    match key
    case CheckpointCode =>
    case CheckpointName => assert Name(key)[11] != "checkpoint_code"[11];
    case Month => assert |Name(key)| != |"checkpoint_code"|;
    case AuditStatus => assert |Name(key)| != |"checkpoint_code"| && |Name(key)| != |"month"|;
  }

  /** Each key name is read back as its key, and can be written before an
    * '=' without being trimmed or split. */
  lemma KeyName(key: Key)
    ensures KeyOf(Name(key)) == Some(key)
    ensures '=' !in Name(key) && '&' !in Name(key) && TrimSpace(Name(key)) == Name(key)
    ensures forall i :: 0 <= i < |Name(key)| ==> Name(key)[i] as int < 256
  {
    KeyOfName(key);
    assert Word(Name(key));
    WordIsPlain(Name(key));
  }

  function Field(p: Params, key: Key): string
  {
    match key
    case CheckpointCode => p.checkpointCode
    case CheckpointName => p.checkpointName
    case Month => p.month
    case AuditStatus => p.auditStatus
  }

  function With(p: Params, key: Key, v: string): (q: Params)
    ensures forall k :: Field(q, k) == if k == key then v else Field(p, k)
  {
    match key
    case CheckpointCode => p.(checkpointCode := v)
    case CheckpointName => p.(checkpointName := v)
    case Month => p.(month := v)
    case AuditStatus => p.(auditStatus := v)
  }

  /** Parameters agree when every field does. */
  lemma FieldsEqual(p: Params, q: Params)
    requires Field(p, CheckpointCode) == Field(q, CheckpointCode) && Field(p, CheckpointName) == Field(q, CheckpointName)
    requires Field(p, Month) == Field(q, Month) && Field(p, AuditStatus) == Field(q, AuditStatus)
    ensures p == q
  {
  }

  /** Some filter came back empty from the parsed query. */
  predicate AnyEmpty(p: Params)
  {
    p.checkpointCode == "" || p.checkpointName == "" || p.month == "" || p.auditStatus == ""
  }

  /** One element of the raw query: a known key fills its filter only while
    * the filter is empty. */
  function Assign(p: Params, part: string): Params
  {
    match Pair(part)
    case None => p
    case Some((k, v)) =>
      match KeyOf(k)
      case Some(key) => if Field(p, key) == "" then With(p, key, v) else p
      case None => p
  }

  function AssignAll(p: Params, parts: seq<string>): Params
  {
    if |parts| == 0 then p else Assign(AssignAll(p, parts[..|parts| - 1]), parts[|parts| - 1])
  }

  /** `url.QueryUnescape` of the raw query, or the hand-made replacements
    * when it fails. */
  function Decode(raw: string): string
  {
    match Unescape(raw)
    case Some(d) => d
    case None => ReplaceAll(ReplaceAll(ReplaceAll(raw, "%26", "&"), "%3d", "="), "%3D", "=")
  }

  /** The filters after the fallback. */
  function Fallback(p: Params, raw: string): Params
  {
    if raw != "" && AnyEmpty(p) then AssignAll(p, Split(Decode(raw), '&')) else p
  }

  /** The parameter reading of `ExportHandler`. */
  method ExportParams(p: Params, raw: string) returns (q: Params)
    ensures q == Fallback(p, raw)
  {
    q := p;
    if raw != "" && (p.checkpointCode == "" || p.checkpointName == "" || p.month == "" || p.auditStatus == "") {
      var decodedQuery: string;
      var unescaped := Unescape(raw);
      if unescaped.Some? {
        decodedQuery := unescaped.value;
      } else {
        decodedQuery := ReplaceAll(raw, "%26", "&");
        decodedQuery := ReplaceAll(decodedQuery, "%3d", "=");
        decodedQuery := ReplaceAll(decodedQuery, "%3D", "=");
      }
      var parts := Split(decodedQuery, '&');
      for i := 0 to |parts|
        invariant q == AssignAll(p, parts[..i])
      {
        assert parts[..i + 1][..i] == parts[..i];
        q := AssignPart(q, parts[i]);
      }
      assert parts[..|parts|] == parts;
    }
  }

  /** The loop body: split at the first '=', trim, and fill the filter the
    * key names when it is still empty. */
  method AssignPart(q0: Params, part: string) returns (q: Params)
    ensures q == Assign(q0, part)
  {
    q := q0;
    if '=' in part {
      var kv := SplitOnce(part, '=');
      var key, value := TrimSpace(kv[0]), TrimSpace(kv[1]);
      if key == "checkpoint_code" && q.checkpointCode == "" {
        q := q.(checkpointCode := value);
      } else if key == "checkpoint_name" && q.checkpointName == "" {
        q := q.(checkpointName := value);
      } else if key == "month" && q.month == "" {
        q := q.(month := value);
      } else if key == "audit_status" && q.auditStatus == "" {
        q := q.(auditStatus := value);
      }
    }
  }

  /** The first non-empty value given for `key`, reading from the front. */
  function FirstValue(parts: seq<string>, key: Key): (r: Option<string>)
    ensures r.Some? ==> r.value != ""
  {
    if |parts| == 0 then None
    else
      match Pair(parts[0])
      case Some((k, v)) =>
        if KeyOf(k) == Some(key) && v != "" then Some(v) else FirstValue(parts[1..], key)
      case None => FirstValue(parts[1..], key)
  }

  lemma {:induction false} FirstValueSnoc(parts: seq<string>, x: string, key: Key)
    ensures FirstValue(parts + [x], key) ==
      if FirstValue(parts, key).Some? then FirstValue(parts, key) else FirstValue([x], key)
  {
    if |parts| == 0 {
      assert parts + [x] == [x];
    } else {
      assert (parts + [x])[0] == parts[0];
      assert (parts + [x])[1..] == parts[1..] + [x];
      FirstValueSnoc(parts[1..], x, key);
    }
  }

  /** The first value of a list is that of its front, or else the last
    * element's. */
  lemma FirstValueLast(parts: seq<string>, key: Key)
    requires |parts| > 0
    ensures FirstValue(parts, key) ==
      var front := FirstValue(parts[..|parts| - 1], key);
      if front.Some? then front else ValueFor(parts[|parts| - 1], key)
  {
    var front, x := parts[..|parts| - 1], parts[|parts| - 1];
    assert front + [x] == parts;
    FirstValueSnoc(front, x, key);
    FirstValueOne(x, key);
  }

  /** The first occurrence wins: a filter given by the parsed query is kept,
    * and an empty one takes the first non-empty value its key is given, an
    * empty value leaving it open for a later one. */
  lemma {:induction false} FirstWins(p: Params, parts: seq<string>, key: Key)
    ensures Field(AssignAll(p, parts), key) ==
      if Field(p, key) != "" then Field(p, key) else FirstValue(parts, key).GetOr("")
  {
    if |parts| > 0 {
      var front, x := parts[..|parts| - 1], parts[|parts| - 1];
      FirstWins(p, front, key);
      FirstValueLast(parts, key);
      AssignField(AssignAll(p, front), x, key);
    }
  }

  /** The value one element gives `key`, if non-empty. */
  function ValueFor(part: string, key: Key): (r: Option<string>)
    ensures r.Some? ==> r.value != ""
  {
    match Pair(part)
    case Some((k, v)) => if KeyOf(k) == Some(key) && v != "" then Some(v) else None
    case None => None
  }

  lemma FirstValueOne(x: string, key: Key)
    ensures FirstValue([x], key) == ValueFor(x, key)
  {
    assert [x][0] == x && [x][1..] == [];
  }

  /** What one element does to one filter: an empty filter takes the
    * element's value for it, empty or not. */
  lemma AssignField(q: Params, x: string, key: Key)
    ensures Field(Assign(q, x), key) ==
      if Field(q, key) == "" && ValueFor(x, key).Some? then ValueFor(x, key).value else Field(q, key)
  {
  }

  /** The fallback never overwrites a filter the parsed query gave. */
  lemma FallbackKeepsGiven(p: Params, raw: string, key: Key)
    requires Field(p, key) != ""
    ensures Field(Fallback(p, raw), key) == Field(p, key)
  {
    if raw != "" && AnyEmpty(p) {
      FirstWins(p, Split(Decode(raw), '&'), key);
    }
  }

  // ---------------------------------------------------------------------
  // The page's own query string read back

  /** A value the page can write into its query and read back. */
  predicate Plain(v: string)
  {
    '&' !in v && TrimSpace(v) == v && Bytes(v)
  }

  /** The element one filter writes. */
  function Element(key: Key, v: string): seq<string>
  {
    if v != "" then [Name(key) + "=" + v] else []
  }

  /** The list page's filters as `key=value` elements. */
  function PageParams(f: Params): seq<string>
  {
    Element(CheckpointCode, f.checkpointCode) + Element(CheckpointName, f.checkpointName)
      + Element(Month, f.month) + Element(AuditStatus, f.auditStatus)
  }

  lemma FirstValueAppend(a: seq<string>, b: seq<string>, key: Key)
    ensures FirstValue(a + b, key) == if FirstValue(a, key).Some? then FirstValue(a, key) else FirstValue(b, key)
    decreases |a|
  {
    if |a| == 0 {
      assert a + b == b;
    } else {
      assert (a + b)[0] == a[0] && (a + b)[1..] == a[1..] + b;
      FirstValueAppend(a[1..], b, key);
    }
  }

  /** One filter's element gives its value for its own key only. */
  lemma ElementValue(k: Key, v: string, key: Key)
    requires TrimSpace(v) == v
    ensures FirstValue(Element(k, v), key) == if key == k && v != "" then Some(v) else None
  {
    if v != "" {
      var e := Name(k) + "=" + v;
      KeyName(k);
      PairOf(Name(k), v);
      FirstValueOne(e, key);
      assert Element(k, v) == [e];
    }
  }

  lemma PageFirstValue(f: Params, key: Key)
    requires Plain(f.checkpointCode) && Plain(f.checkpointName) && Plain(f.month) && Plain(f.auditStatus)
    ensures FirstValue(PageParams(f), key) == if Field(f, key) != "" then Some(Field(f, key)) else None
  {
    var a, b := Element(CheckpointCode, f.checkpointCode), Element(CheckpointName, f.checkpointName);
    var c, d := Element(Month, f.month), Element(AuditStatus, f.auditStatus);
    ElementValue(CheckpointCode, f.checkpointCode, key);
    ElementValue(CheckpointName, f.checkpointName, key);
    ElementValue(Month, f.month, key);
    ElementValue(AuditStatus, f.auditStatus, key);
    FirstValueAppend(a + b + c, d, key);
    FirstValueAppend(a + b, c, key);
    FirstValueAppend(a, b, key);
  }

  /** Assigning the page's elements to empty filters recovers them. */
  lemma AssignPage(f: Params)
    requires Plain(f.checkpointCode) && Plain(f.checkpointName) && Plain(f.month) && Plain(f.auditStatus)
    ensures AssignAll(Params("", "", "", ""), PageParams(f)) == f
  {
    var none, ps := Params("", "", "", ""), PageParams(f);
    PageFirstValue(f, CheckpointCode);
    PageFirstValue(f, CheckpointName);
    PageFirstValue(f, Month);
    PageFirstValue(f, AuditStatus);
    FirstWins(none, ps, CheckpointCode);
    FirstWins(none, ps, CheckpointName);
    FirstWins(none, ps, Month);
    FirstWins(none, ps, AuditStatus);
    FieldsEqual(AssignAll(none, ps), f);
  }

  /** Characters of one byte each. */
  predicate Bytes(s: string)
  {
    forall i :: 0 <= i < |s| ==> s[i] as int < 256
  }

  /** The element of a plain value holds no '&' and only bytes. */
  lemma ElementFree(k: Key, v: string)
    requires Plain(v)
    ensures forall x :: x in Element(k, v) ==> '&' !in x && Bytes(x)
  {
    if v != "" {
      KeyName(k);
      var e := Name(k) + "=" + v;
      forall j | 0 <= j < |e| ensures e[j] != '&' && e[j] as int < 256 {
        if j < |Name(k)| {
          assert e[j] == Name(k)[j];
        } else if j > |Name(k)| {
          assert e[j] == v[j - |Name(k)| - 1];
        }
      }
    }
  }

  lemma PageParamsFree(f: Params)
    requires Plain(f.checkpointCode) && Plain(f.checkpointName) && Plain(f.month) && Plain(f.auditStatus)
    ensures forall i :: 0 <= i < |PageParams(f)| ==> '&' !in PageParams(f)[i] && Bytes(PageParams(f)[i])
  {
    ElementFree(CheckpointCode, f.checkpointCode);
    ElementFree(CheckpointName, f.checkpointName);
    ElementFree(Month, f.month);
    ElementFree(AuditStatus, f.auditStatus);
    var ps := PageParams(f);
    forall i | 0 <= i < |ps| ensures '&' !in ps[i] && Bytes(ps[i]) {
      assert ps[i] in ps;
    }
  }

  /** A joined text keeps the byte range of its parts. */
  lemma {:induction false} JoinBytes(parts: seq<string>)
    requires forall i :: 0 <= i < |parts| ==> Bytes(parts[i])
    ensures Bytes(Join(parts, '&'))
  {
    if |parts| > 1 {
      JoinBytes(parts[1..]);
      var j := Join(parts[1..], '&');
      assert Join(parts, '&') == parts[0] + ['&'] + j;
      assert Bytes(parts[0]);
    }
  }

  /** Escaping a non-empty text gives a non-empty text. */
  lemma EscapeNonEmpty(s: string)
    requires |s| > 0 && forall i :: 0 <= i < |s| ==> s[i] as int < 256
    ensures Escape(s) != ""
  {
  }

  /** The list page's query string: its filters joined by '&'. */
  function PageQuery(f: Params): (q: string)
    requires Plain(f.checkpointCode) && Plain(f.checkpointName) && Plain(f.month) && Plain(f.auditStatus)
    ensures Bytes(q)
    ensures Split(q, '&') == PageParams(f) || (q == "" && PageParams(f) == [])
  {
    var ps := PageParams(f);
    PageParamsFree(f);
    JoinBytes(ps);
    if ps != [] then
      assert ps[0] != "";
      SplitJoin(ps, '&');
      Join(ps, '&')
    else ""
  }

  /** The page's filters, written as one escaped query string (the form the
    * fallback exists for: the parsed query then holds a single key and
    * every filter comes back empty), are read back in full. */
  lemma FallbackReadsEscapedQuery(f: Params)
    requires Plain(f.checkpointCode) && Plain(f.checkpointName) && Plain(f.month) && Plain(f.auditStatus)
    ensures Fallback(Params("", "", "", ""), Escape(PageQuery(f))) == f
  {
    var q := PageQuery(f);
    var none := Params("", "", "", "");
    if q == "" {
      assert PageParams(f) == [];
      assert Escape(q) == "";
      FieldsEqual(none, f);
    } else {
      UnescapeEscape(q);
      EscapeNonEmpty(q);
      FallbackUnescaped(none, Escape(q), q);
      AssignPage(f);
    }
  }

  /** A raw query that unescapes is cut after unescaping. */
  lemma FallbackUnescaped(p: Params, raw: string, decoded: string)
    requires raw != "" && AnyEmpty(p) && Unescape(raw) == Some(decoded)
    ensures Fallback(p, raw) == AssignAll(p, Split(decoded, '&'))
  {
  }
}
