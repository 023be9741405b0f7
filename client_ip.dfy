/** The client address the operation log records: the first entry of
  * X-Forwarded-For when that header is present, otherwise the host part of
  * the connection's remote address, split as Go's `net.SplitHostPort`
  * splits it. */
module ClientAddress {
  import opened Wrappers
  import opened Text

  /** Index of the last occurrence of `c`, or -1. */
  function LastIndexOf(s: string, c: char): (k: int)
    ensures -1 <= k < |s|
    ensures k >= 0 ==> s[k] == c
    ensures forall i :: k < i < |s| ==> s[i] != c
  {
    if |s| == 0 then -1
    else if s[|s| - 1] == c then |s| - 1
    else LastIndexOf(s[..|s| - 1], c)
  }

  /** The checks `net.SplitHostPort` makes after finding the host: no '['
    * from position `j` on, no ']' from position `k` on; the port follows
    * the last ':' at `i`. */
  function HostPortTail(hp: string, host: string, j: nat, k: nat, i: nat): Option<(string, string)>
    requires j <= |hp| && k <= |hp| && i < |hp|
  {
    if '[' in hp[j..] then None
    else if ']' in hp[k..] then None
    else Some((host, hp[i + 1..]))
  }

  /** `net.SplitHostPort`: the port follows the last ':'; a host in
    * brackets may hold colons, any other host may not. */
  function SplitHostPort(hp: string): (r: Option<(string, string)>)
    ensures r.Some? ==> ':' !in r.value.1
    ensures r.Some? && |hp| > 0 && hp[0] != '[' ==> hp == r.value.0 + ":" + r.value.1 && ':' !in r.value.0
  {
    var i := LastIndexOf(hp, ':');
    if i < 0 then None
    else if hp[0] == '[' then
      var end := IndexOf(hp, ']');
      if end == |hp| || end + 1 != i then None
      else HostPortTail(hp, hp[1..end], 1, end + 1, i)
    else
      var host := hp[..i];
      if ':' in host then None
      else
        assert hp == host + ":" + hp[i + 1..];
        HostPortTail(hp, host, 0, 0, i)
  }

  /** Free of the characters that separate host and port. */
  predicate PlainPart(s: string)
  {
    ':' !in s && '[' !in s && ']' !in s
  }

  /** A host and port joined by ':' split back into the two. */
  lemma SplitJoinedHostPort(host: string, port: string)
    requires PlainPart(host) && PlainPart(port)
    ensures SplitHostPort(host + ":" + port) == Some((host, port))
  {
    var hp := host + ":" + port;
    assert hp[|host|] == ':';
    assert forall i :: |host| < i < |hp| ==> hp[i] == port[i - |host| - 1];
    assert LastIndexOf(hp, ':') == |host|;
    assert hp[..|host|] == host && hp[|host| + 1..] == port;
    assert forall i :: 0 <= i < |hp| ==> hp[i] != '[' && hp[i] != ']';
    if |host| > 0 {
      assert hp[0] == host[0];
    }
  }

  /** A bracketed IPv6 host and a port split back into the two. */
  lemma SplitBracketedHostPort(host: string, port: string)
    requires '[' !in host && ']' !in host && PlainPart(port)
    ensures SplitHostPort("[" + host + "]:" + port) == Some((host, port))
  {
    var hp := "[" + host + "]:" + port;
    var n := |host|;
    BracketedPieces(host, port);
    LastColon("[" + host + "]", port);
    FirstBracket("[" + host, ":" + port);
    assert '[' !in hp[1..] && ']' !in hp[n + 2..];
    SplitBracketedShape(hp, n + 1, n + 2);
  }

  /** The pieces of "[host]:port". */
  lemma BracketedPieces(host: string, port: string)
    ensures var hp := "[" + host + "]:" + port;
      && hp == ("[" + host) + "]" + (":" + port)
      && hp == ("[" + host + "]") + ":" + port
      && hp[1..] == host + "]" + (":" + port)
      && hp[|host| + 2..] == ":" + port
      && hp[1..|host| + 1] == host && hp[|host| + 3..] == port
  {
    var hp := "[" + host + "]:" + port;
    var n := |host|;
    assert hp == ("[" + host) + "]" + (":" + port);
    assert hp == ("[" + host + "]") + ":" + port;
    assert hp[1..] == host + "]" + (":" + port);
    assert hp[n + 2..] == ":" + port;
  }

  /** `net.SplitHostPort` on a bracketed host whose ']' comes right before
    * the last ':'. */
  lemma SplitBracketedShape(hp: string, end: nat, i: nat)
    requires 0 < end < i < |hp| && hp[0] == '['
    requires LastIndexOf(hp, ':') == i && IndexOf(hp, ']') == end && end + 1 == i
    requires '[' !in hp[1..] && ']' !in hp[end + 1..]
    ensures SplitHostPort(hp) == Some((hp[1..end], hp[i + 1..]))
  {
  }

  /** The last ':' of a text is the one before a colon-free tail. */
  lemma LastColon(head: string, tail: string)
    requires ':' !in tail
    ensures LastIndexOf(head + ":" + tail, ':') == |head|
  {
    var hp := head + ":" + tail;
    var k := LastIndexOf(hp, ':');
    assert hp[|head|] == ':';
  }

  /** The first ']' of a text is the one after a bracket-free head. */
  lemma FirstBracket(head: string, tail: string)
    requires ']' !in head
    ensures IndexOf(head + "]" + tail, ']') == |head|
  {
    var hp := head + "]" + tail;
    var k := IndexOf(hp, ']');
    assert hp[|head|] == ']';
  }

  /** A remote address without a port is not split. */
  lemma NoPortNoSplit(hp: string)
    requires ':' !in hp
    ensures SplitHostPort(hp) == None
  {
  }

  /** `clientIP`: X-Forwarded-For wins when present, and its first
    * comma-separated entry is taken, trimmed; otherwise the remote
    * address's host, or the whole remote address when it does not split. */
  function ClientIP(xff: string, remoteAddr: string): (r: string)
    ensures xff != "" ==> r == TrimSpace(xff[..IndexOf(xff, ',')])
    ensures xff == "" && SplitHostPort(remoteAddr).None? ==> r == remoteAddr
    ensures xff == "" && SplitHostPort(remoteAddr).Some? ==> r == SplitHostPort(remoteAddr).value.0
  {
    if xff != "" then
      var parts := Split(xff, ',');
      assert parts[0] == xff[..IndexOf(xff, ',')];
      TrimSpace(parts[0])
    else
      match SplitHostPort(remoteAddr)
      case None => remoteAddr
      case Some((host, _)) => host
  }

  /** With no forwarding header, a peer's "host:port" gives its host. */
  lemma PeerHost(host: string, port: string)
    requires PlainPart(host) && PlainPart(port)
    ensures ClientIP("", host + ":" + port) == host
  {
    SplitJoinedHostPort(host, port);
  }

  /** With no forwarding header, a peer's "[ipv6]:port" gives the address
    * without brackets. */
  lemma PeerIPv6Host(host: string, port: string)
    requires '[' !in host && ']' !in host && PlainPart(port)
    ensures ClientIP("", "[" + host + "]:" + port) == host
  {
    SplitBracketedHostPort(host, port);
  }

  /** The header's first entry is taken whatever the remote address. */
  lemma ForwardedFirst(first: string, rest: string, remoteAddr: string)
    requires ',' !in first
    ensures ClientIP(first + "," + rest, remoteAddr) == TrimSpace(first)
  {
    var xff := first + "," + rest;
    assert xff[|first|] == ',';
    assert forall i :: 0 <= i < |first| ==> xff[i] == first[i];
    assert IndexOf(xff, ',') == |first|;
    assert xff[..|first|] == first;
  }
}
