/** Reading parameters out of a raw query string by hand, as the export
  * handlers do when the parsed query comes back empty: the `key=value`
  * elements, and Go's `url.QueryUnescape` with `url.QueryEscape` as its
  * partner. Bytes are written as the characters with the same codes. */
module RawQuery {
  import opened Wrappers
  import opened Text

  /** One `key=value` element: split at the first '=', key and value
    * trimmed; an element without '=' is ignored. */
  function Pair(part: string): (r: Option<(string, string)>)
    ensures r.Some? <==> '=' in part
  {
    if '=' in part then
      var kv := SplitOnce(part, '=');
      Some((TrimSpace(kv[0]), TrimSpace(kv[1])))
    else None
  }

  /** A trimmed key free of '=' and a trimmed value are read back as
    * written; the value may itself hold '='. */
  lemma PairOf(key: string, value: string)
    requires '=' !in key && TrimSpace(key) == key && TrimSpace(value) == value
    ensures Pair(key + "=" + value) == Some((key, value))
  {
    assert key + "=" + value == key + ['='] + value;
    assert (key + "=" + value)[|key|] == '=';
    SplitOnceAt(key, value, '=');
  }

  predicate IsHex(c: char)
  {
    ('0' <= c <= '9') || ('a' <= c <= 'f') || ('A' <= c <= 'F')
  }

  function HexValue(c: char): (n: nat)
    requires IsHex(c)
    ensures n < 16
  {
    if '0' <= c <= '9' then c as int - '0' as int
    else if 'a' <= c <= 'f' then c as int - 'a' as int + 10
    else c as int - 'A' as int + 10
  }

  /** `url.QueryUnescape`: "%XX" becomes the byte XX and '+' a space; a '%'
    * not followed by two hex digits makes the whole input an error. */
  function Unescape(s: string): (r: Option<string>)
    ensures r.Some? ==> |r.value| <= |s|
    ensures (forall i :: 0 <= i < |s| ==> s[i] != '%') ==> r.Some? && |r.value| == |s|
    decreases |s|
  {
    if |s| == 0 then Some("")
    else if s[0] == '%' then
      if |s| >= 3 && IsHex(s[1]) && IsHex(s[2]) then
        var rest := Unescape(s[3..]);
        if rest.Some? then Some([(HexValue(s[1]) * 16 + HexValue(s[2])) as char] + rest.value) else None
      else None
    else
      var rest := Unescape(s[1..]);
      if rest.Some? then Some([if s[0] == '+' then ' ' else s[0]] + rest.value) else None
  }

  /** Characters `url.QueryEscape` leaves as they are. */
  predicate Unreserved(c: char)
  {
    ('A' <= c <= 'Z') || ('a' <= c <= 'z') || ('0' <= c <= '9') || c == '-' || c == '_' || c == '.' || c == '~'
  }

  function HexDigit(n: nat): (c: char)
    requires n < 16
    ensures IsHex(c) && HexValue(c) == n
  {
    "0123456789ABCDEF"[n]
  }

  /** The escape of one byte. */
  function EscapeByte(c: char): string
    requires c as int < 256
  {
    if Unreserved(c) then [c]
    else if c == ' ' then "+"
    else ['%', HexDigit(c as int / 16), HexDigit(c as int % 16)]
  }

  /** `url.QueryEscape` of a byte string. */
  function Escape(s: string): (r: string)
    requires forall i :: 0 <= i < |s| ==> s[i] as int < 256
    ensures |s| <= |r| <= 3 * |s|
  {
    if |s| == 0 then "" else EscapeByte(s[0]) + Escape(s[1..])
  }

  /** Unescaping reads one escaped byte back and continues after it. */
  lemma UnescapeByte(c: char, rest: string)
    requires c as int < 256
    ensures Unescape(EscapeByte(c) + rest) ==
      match Unescape(rest)
      case Some(r) => Some([c] + r)
      case None => None
  {
    var e := EscapeByte(c);
    var s := e + rest;
    if Unreserved(c) {
      assert s[0] == c && s[1..] == rest;
    } else if c == ' ' {
      assert s[0] == '+' && s[1..] == rest;
    } else {
      assert s[0] == '%' && s[1] == e[1] && s[2] == e[2] && s[3..] == rest;
      assert HexValue(e[1]) * 16 + HexValue(e[2]) == c as int;
    }
  }

  /** Unescaping undoes escaping, for every byte string. */
  lemma {:induction false} UnescapeEscape(s: string)
    requires forall i :: 0 <= i < |s| ==> s[i] as int < 256
    ensures Unescape(Escape(s)) == Some(s)
  {
    if |s| > 0 {
      UnescapeEscape(s[1..]);
      UnescapeByte(s[0], Escape(s[1..]));
      assert s == [s[0]] + s[1..];
    }
  }

  /** An escaped text has no '&' and no '=': it stays one value when a raw
    * query is split. */
  lemma {:induction false} EscapeHasNoSeparators(s: string)
    requires forall i :: 0 <= i < |s| ==> s[i] as int < 256
    ensures '&' !in Escape(s) && '=' !in Escape(s)
  {
    if |s| > 0 {
      EscapeHasNoSeparators(s[1..]);
      var e := EscapeByte(s[0]);
      assert '&' !in e && '=' !in e;
    }
  }

  /** A lone '%' is an error, whatever follows. */
  lemma BadEscape(rest: string)
    requires |rest| < 2 || !IsHex(rest[0]) || !IsHex(rest[1])
    ensures Unescape("%" + rest) == None
  {
    assert ("%" + rest)[0] == '%';
  }
}
