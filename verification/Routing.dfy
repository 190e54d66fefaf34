/** Public URLs and the way back: the host of an issued URL, host parsing in `proxy` and the health check
    (internal/server/server.go). */
module Routing {
  import opened Wrappers
  import opened Text
  import opened Names

  function Decimal(n: nat): (s: string)
    ensures s != "" && Free(s) && '.' !in s && forall i :: 0 <= i < |s| ==> '0' <= s[i] <= '9'
  {
    var digit := ['0' + (n % 10) as char];
    if n < 10 then digit else Decimal(n / 10) + digit
  }

  /** The number that a string of digits denotes. */
  function Reading(s: string): int {
    if s == "" then 0 else 10 * Reading(s[..|s| - 1]) + (s[|s| - 1] as int - '0' as int)
  }

  /** The digits denote the number, and none is superfluous. */
  lemma {:induction false} DecimalReads(n: nat)
    ensures Reading(Decimal(n)) == n
    ensures Decimal(n)[0] == '0' <==> n == 0
    ensures n == 0 ==> Decimal(n) == "0"
  {
    if n >= 10 {
      DecimalReads(n / 10);
      assert Decimal(n)[..|Decimal(n)| - 1] == Decimal(n / 10);
    } else {
      assert Decimal(n)[..|Decimal(n)| - 1] == "";
    }
  }

  /** The host part of the URL in the welcome message; ports 0 and 443 are not written. */
  function PublicHost(base: string, port: nat, name: string): string {
    name + "." + base + if port != 0 && port != 443 then ":" + Decimal(port) else ""
  }

  predicate Free(s: string) {
    ':' !in s && '[' !in s && ']' !in s
  }

  /** Go's net.SplitHostPort; None stands for every error. */
  function SplitHostPort(s: string): Option<(string, string)> {
    var port := AfterLast(s, ':');
    if port == 0 then None
    else if s[0] == '[' then
      var end := IndexOf(s, ']');
      if end + 2 != port || end == |s| || '[' in s[1..] || ']' in s[end + 1..] then None
          else Some((s[1..end], s[port..]))
    else if ':' in s[..port - 1] || '[' in s || ']' in s then None
    else Some((s[..port - 1], s[port..]))
  }

  function WithoutPort(host: string): string {
    match SplitHostPort(host)
    case Some((parsed, _)) => parsed
    case None => TrimSuffix(host, ".")
  }

  function HostWithoutPort(fold: Casing, value: string): string {
    WithoutPort(Lower(fold, value))
  }

  datatype RouteError = UnknownHost | InvalidHost

  /** The name `proxy` looks up in the registry. The base domain is compared as configured. */
  function Route(fold: Casing, base: string, host: string): Result<string, RouteError> {
    var lowered := Lower(fold, HostWithoutPort(fold, host));
    var suffix := "." + base;
    if !HasSuffix(lowered, suffix) then Err(UnknownHost)
    else if '.' in TrimSuffix(lowered, suffix) then Err(InvalidHost)
    else Ok(TrimSuffix(lowered, suffix))
  }

  /** The health handler answers itself instead of proxying. */
  predicate HealthAnswers(fold: Casing, base: string, host: string) {
    HostWithoutPort(fold, host) in {"localhost", "127.0.0.1", "::1", "status." + Lower(fold, base)}
  }

  // ---------------------------------------------------------------- splitting

  lemma IndexIs(s: string, c: char, i: nat)
    requires i <= |s| && c !in s[..i] && (i < |s| ==> s[i] == c)
    ensures IndexOf(s, c) == i
  {
  }

  lemma IndexAfter(s: string, t: string, c: char)
    requires c !in s
    ensures IndexOf(s + t, c) == |s| + IndexOf(t, c)
  {
    var i := |s| + IndexOf(t, c);
    assert (s + t)[..i] == s + t[..IndexOf(t, c)];
    IndexIs(s + t, c, i);
  }

  lemma AfterLastIs(s: string, c: char, i: nat)
    requires i <= |s| && c !in s[i..] && (i > 0 ==> s[i - 1] == c)
    ensures AfterLast(s, c) == i
  {
  }

  /** `s` is exactly of the form host:port, so that SplitHostPort takes the part after the colon for a port. */
  predicate HostPortShaped(s: string) {
    var i := IndexOf(s, ':');
    i < |s| && Free(s[..i]) && Free(s[i + 1..])
  }

  lemma FreeAround(s: string, i: nat)
    requires i < |s| && s[i] == ':'
    ensures Free(s[..i]) && Free(s[i + 1..]) <==> ':' !in s[..i] && ':' !in s[i + 1..] && '[' !in s && ']' !in s
  {
    assert s == s[..i] + [':'] + s[i + 1..];
  }

  /** Without a leading bracket, SplitHostPort accepts exactly the host:port shape. */
  lemma SplitUnbracketed(s: string)
    requires s != "" && s[0] != '['
    ensures SplitHostPort(s) ==
            if HostPortShaped(s) then Some((s[..IndexOf(s, ':')], s[IndexOf(s, ':') + 1..])) else None
  {
    var i, p := IndexOf(s, ':'), AfterLast(s, ':');
    if p > 0 {
      FreeAround(s, p - 1);
      if ':' !in s[..p - 1] {
        IndexIs(s, ':', p - 1);
      }
    }
    if HostPortShaped(s) {
      AfterLastIs(s, ':', i + 1);
    }
  }

  lemma SplitSound(s: string)
    requires SplitHostPort(s).Some?
    ensures var (host, port) := SplitHostPort(s).value;
            Free(port) && (s == host + ":" + port || s == "[" + host + "]:" + port)
  {
    var p := AfterLast(s, ':');
    if s[0] == '[' {
      var end := IndexOf(s, ']');
      assert s == "[" + s[1..end] + "]:" + s[p..];
      assert s[1..][p - 1..] == s[p..] && s[end + 1..][p - end - 1..] == s[p..];
    } else {
      SplitUnbracketed(s);
    }
  }

  predicate NoBrackets(s: string) {
    '[' !in s && ']' !in s
  }

  ghost predicate IsSplit(s: string, host: string, port: string) {
    Free(port) && ((Free(host) && s == host + ":" + port) || (NoBrackets(host) && s == "[" + host + "]:" + port))
  }

  lemma SplitPlain(host: string, port: string)
    requires Free(host) && Free(port)
    ensures SplitHostPort(host + ":" + port) == Some((host, port))
  {
    var s := host + ":" + port;
    assert s[..|host|] == host && s[|host| + 1..] == port && s[|host|] == ':';
    assert s == host + (":" + port);
    AfterLastIs(s, ':', |host| + 1);
    assert s[0] != '[';
    assert '[' !in s && ']' !in s;
  }

  lemma SplitBracketed(host: string, port: string)
    requires NoBrackets(host) && Free(port)
    ensures SplitHostPort("[" + host + "]:" + port) == Some((host, port))
  {
    var s := "[" + host + "]:" + port;
    var end := |host| + 1;
    assert s[end] == ']' && s[end + 1] == ':' && s[end + 2..] == port && s[1..end] == host;
    AfterLastIs(s, ':', end + 2);
    assert s[..end] == "[" + host;
    IndexIs(s, ']', end);
    assert s[1..] == host + "]:" + port;
    assert s[end + 1..] == ":" + port;
  }

  lemma SplitBracketsSound(s: string)
    requires SplitHostPort(s).Some? && s[0] == '['
    ensures NoBrackets(SplitHostPort(s).value.0)
  {
    var end := IndexOf(s, ']');
    var host := s[1..end];
    forall i | 0 <= i < |host|
      ensures host[i] != '[' && host[i] != ']'
    {
      assert host[i] == s[1..][i] == s[..end][i + 1];
    }
  }

  /** What SplitHostPort accepts, and what it yields: `host:port` with a host free of colons and brackets, or
      `[host]:port` with one free of brackets. */
  lemma SplitExactly(s: string, host: string, port: string)
    ensures SplitHostPort(s) == Some((host, port)) <==> IsSplit(s, host, port)
  {
    if SplitHostPort(s) == Some((host, port)) {
      SplitSound(s);
      if s[0] == '[' {
        SplitBracketsSound(s);
        assert s == "[" + host + "]:" + port by { BracketedForm(s); }
      } else {
        SplitUnbracketed(s);
      }
    } else if IsSplit(s, host, port) {
      if Free(host) && s == host + ":" + port {
        SplitPlain(host, port);
      } else {
        SplitBracketed(host, port);
      }
    }
  }

  lemma BracketedForm(s: string)
    requires SplitHostPort(s).Some? && s[0] == '['
    ensures var (host, port) := SplitHostPort(s).value; s == "[" + host + "]:" + port
  {
  }

  /** The ways to write a host: as it is, with a trailing dot, or with a port, with or without brackets. */
  ghost predicate Writes(l: string, host: string) {
    l == host || l == host + "."
    || exists port :: Free(port) && (l == host + ":" + port || l == "[" + host + "]:" + port)
  }

  /** Parsing yields a plain host exactly for the ways to write it. */
  lemma ParsedExactly(l: string, host: string)
    requires host != "" && Free(host) && !HasSuffix(host, ".")
    ensures WithoutPort(l) == host <==> Writes(l, host)
  {
    if WithoutPort(l) == host {
      if SplitHostPort(l).Some? {
        SplitSound(l);
        assert Free(SplitHostPort(l).value.1);
      }
    }
    if Writes(l, host) {
      if port :| Free(port) && (l == host + ":" + port || l == "[" + host + "]:" + port) {
        SplitExactly(l, host, port);
        assert IsSplit(l, host, port);
      } else {
        PlainIsNotSplit(l);
        assert host[|host| - 1..] == [host[|host| - 1]];
      }
    }
  }

  lemma PlainIsNotSplit(l: string)
    requires Free(l)
    ensures SplitHostPort(l).None?
  {
  }

  /** The result of parsing is a slice of the lower-cased host. */
  lemma ParsedIsLower(fold: Casing, host: string)
    ensures Lower(fold, HostWithoutPort(fold, host)) == HostWithoutPort(fold, host)
  {
    var l := Lower(fold, host);
    LowerIdempotent(fold, host);
    if SplitHostPort(l).Some? {
      if l[0] == '[' {
        LowerSlice(fold, l, 1, IndexOf(l, ']'));
      } else {
        LowerSlice(fold, l, 0, AfterLast(l, ':') - 1);
      }
    } else if HasSuffix(l, ".") {
      LowerSlice(fold, l, 0, |l| - 1);
    }
  }

  lemma LowerSlice(fold: Casing, s: string, i: nat, j: nat)
    requires i <= j <= |s| && Lower(fold, s) == s
    ensures Lower(fold, s[i..j]) == s[i..j]
  {
    assert forall k :: i <= k < j ==> fold(s[k]) == s[k];
  }

  lemma NameIsFree(name: string)
    requires IsName(name)
    ensures Free(name) && '.' !in name && name[0] != '['
  {
    assert forall i :: 0 <= i < |name| ==> IsLabelChar(name[i]);
  }

  // ---------------------------------------------------------------- routing

  /** What routing means: the parsed host is the name, a dot and the base domain, and the name has no dot. */
  lemma RouteMeaning(fold: Casing, base: string, host: string, name: string)
    ensures Route(fold, base, host) == Ok(name) <==> HostWithoutPort(fold, host) == name + "." + base && '.' !in name
  {
    ParsedIsLower(fold, host);
    var parsed := HostWithoutPort(fold, host);
    assert name + "." + base == name + ("." + base);
    if parsed == name + "." + base {
      assert parsed[|parsed| - |base| - 1..] == "." + base;
      assert TrimSuffix(parsed, "." + base) == name;
    }
  }

  /** Lower-casing the issued host touches only the base domain. */
  lemma LowerHost(fold: Casing, base: string, port: nat, name: string)
    requires IsName(name)
    ensures Lower(fold, PublicHost(base, port, name)) == PublicHost(Lower(fold, base), port, name)
  {
    LabelIsPlain(fold, name);
    var tail := if port != 0 && port != 443 then ":" + Decimal(port) else "";
    LowerConcat(fold, name + "." + base, tail);
    LowerConcat(fold, name + ".", base);
    LowerConcat(fold, name, ".");
    LowerPlain(fold, tail);
    LowerPlain(fold, ".");
  }

  lemma LowerPlain(fold: Casing, s: string)
    requires forall i :: 0 <= i < |s| ==> '0' <= s[i] <= '9' || s[i] == ':' || s[i] == '.'
    ensures Lower(fold, s) == s
  {
  }

  /** When issued URLs come back: the base domain must be lower-case; without a port in the URL it must not end in
      a dot and must not itself look like host:port; with a port it must be free of colons and brackets. */
  predicate RoundTrips(fold: Casing, base: string, port: nat) {
    Lower(fold, base) == base &&
    if port != 0 && port != 443 then Free(base) else !HasSuffix(base, ".") && !HostPortShaped(base)
  }

  /** Public URLs and routing undo each other: a host that is the issued one up to letter case is routed to
      exactly its name if and only if the configuration meets `RoundTrips`. */
  lemma URLRoundTrip(fold: Casing, base: string, port: nat, name: string, host: string)
    requires IsName(name) && base != ""
    requires Lower(fold, host) == Lower(fold, PublicHost(base, port, name))
    ensures Route(fold, base, host) == Ok(name) <==> RoundTrips(fold, base, port)
  {
    LowerHost(fold, base, port, name);
    NameIsFree(name);
    RouteMeaning(fold, base, host, name);
    if port != 0 && port != 443 {
      ParsedWithPort(fold, base, port, name, host);
    } else {
      ParsedWithoutPort(fold, base, port, name, host);
    }
  }

  /** The host is that of the URL issued for the name, under a configuration that lets it be routed back. */
  ghost predicate Addresses(fold: Casing, base: string, port: nat, host: string, name: string) {
    IsName(name) && base != "" && RoundTrips(fold, base, port)
        && Lower(fold, host) == Lower(fold, PublicHost(base, port, name))
  }

  lemma AddressedIsRouted(fold: Casing, base: string, port: nat, host: string)
    ensures forall name :: Addresses(fold, base, port, host, name) ==> Route(fold, base, host) == Ok(name)
  {
    forall name | Addresses(fold, base, port, host, name)
      ensures Route(fold, base, host) == Ok(name)
    {
      URLRoundTrip(fold, base, port, name, host);
    }
  }

  lemma SameTail(name: string, lower: string, base: string)
    requires name + "." + lower == name + "." + base
    ensures lower == base
  {
    assert lower == (name + "." + lower)[|name| + 1..];
    assert base == (name + "." + base)[|name| + 1..];
  }

  /** After a first label, only the rest decides whether there is a port. */
  lemma ShapeAfter(front: string, rest: string)
    requires Free(front)
    ensures HostPortShaped(front + rest) <==> HostPortShaped(rest)
  {
    IndexAfter(front, rest, ':');
    var i := IndexOf(rest, ':');
    if i < |rest| {
      assert (front + rest)[..|front| + i] == front + rest[..i];
      assert (front + rest)[|front| + i + 1..] == rest[i + 1..];
    }
  }

  lemma DotSuffix(front: string, rest: string)
    requires rest != ""
    ensures HasSuffix(front + rest, ".") <==> HasSuffix(rest, ".")
  {
    assert (front + rest)[|front + rest| - 1..] == rest[|rest| - 1..];
  }

  lemma ParsedWithoutPort(fold: Casing, base: string, port: nat, name: string, host: string)
    requires IsName(name) && base != "" && (port == 0 || port == 443)
    requires Lower(fold, host) == PublicHost(Lower(fold, base), port, name)
    ensures HostWithoutPort(fold, host) == name + "." + base <==> RoundTrips(fold, base, port)
  {
    var lower := Lower(fold, base);
    var l := name + "." + lower;
    NameIsFree(name);
    assert Lower(fold, host) == l && l[0] == name[0];
    SplitUnbracketed(l);
    ShapeAfter(name + ".", lower);
    DotSuffix(name + ".", lower);
    if l == name + "." + base {
      SameTail(name, lower, base);
    }
  }

  lemma ParsedWithPort(fold: Casing, base: string, port: nat, name: string, host: string)
    requires IsName(name) && base != "" && port != 0 && port != 443
    requires Lower(fold, host) == PublicHost(Lower(fold, base), port, name)
    ensures HostWithoutPort(fold, host) == name + "." + base <==> RoundTrips(fold, base, port)
  {
    var lower := Lower(fold, base);
    FreeAfterLabel(name, lower);
    var front := name + "." + lower;
    assert PublicHost(lower, port, name) == front + ":" + Decimal(port);
    BeforePort(front, Decimal(port), name + "." + base);
    if front == name + "." + base {
      SameTail(name, lower, base);
    }
  }

  lemma FreeAfterLabel(name: string, rest: string)
    requires IsName(name)
    ensures var host := name + "." + rest;
            host != "" && host[0] != '[' && (Free(host) <==> Free(rest))
  {
    NameIsFree(name);
    assert (name + "." + rest)[0] == name[0];
  }

  /** What is parsed from a host with a port: the part before the port if it is free of colons and brackets,
      and otherwise nothing of that length. */
  lemma BeforePort(front: string, port: string, other: string)
    requires front != "" && front[0] != '[' && port != "" && Free(port) && '.' !in port && |other| == |front|
    ensures WithoutPort(front + ":" + port) == other <==> Free(front) && front == other
  {
    var l := front + ":" + port;
    assert l[0] == front[0];
    SplitUnbracketed(l);
    if Free(front) {
      FrontParsed(front, port);
    } else if HostPortShaped(l) {
      assert l[..|front|] == front;
    } else {
      assert l[|l| - 1] == port[|port| - 1] && l[|l| - 1..] == [l[|l| - 1]];
    }
  }

  lemma FrontParsed(front: string, port: string)
    requires Free(front) && Free(port)
    ensures var l := front + ":" + port;
            HostPortShaped(l) && l[..IndexOf(l, ':')] == front
  {
    var l := front + ":" + port;
    assert l == front + (":" + port);
    IndexAfter(front, ":" + port, ':');
    assert l[..|front|] == front && l[|front| + 1..] == port;
  }

  /** The host is the name under the base domain, up to case, a trailing dot, a port and brackets. */
  ghost predicate Spells(fold: Casing, base: string, host: string, name: string) {
    Writes(Lower(fold, host), name + "." + base)
  }

  /** For a plain lower-case base domain the hosts that reach a name are exactly those that spell it. */
  lemma RouteExactly(fold: Casing, base: string, host: string, name: string)
    requires Free(base) && base != "" && !HasSuffix(base, ".")
    requires Free(name) && '.' !in name
    ensures Route(fold, base, host) == Ok(name) <==> Spells(fold, base, host, name)
  {
    var full := name + "." + base;
    RouteMeaning(fold, base, host, name);
    DotSuffix(name + ".", base);
    ParsedExactly(Lower(fold, host), full);
  }

  /** The other way round: whatever host is routed to a name is the name, a dot and the base domain,
      up to letter case, one trailing dot, a port, and brackets around a host with a port. */
  lemma RouteSound(fold: Casing, base: string, host: string, name: string)
    requires Route(fold, base, host) == Ok(name)
    ensures Spells(fold, base, host, name)
  {
    RouteMeaning(fold, base, host, name);
    var l := Lower(fold, host);
    if SplitHostPort(l).Some? {
      SplitSound(l);
      var p := SplitHostPort(l).value.1;
      assert Free(p);
    }
  }

  /** No name's health path is intercepted, except that 127 under the base domain 0.0.1 is a loopback address. */
  lemma HealthLeavesTunnelsAlone(fold: Casing, base: string, port: nat, name: string, host: string)
    requires IsName(name) && base != "" && RoundTrips(fold, base, port)
    requires Lower(fold, host) == Lower(fold, PublicHost(base, port, name))
    ensures HealthAnswers(fold, base, host) <==> name == "127" && base == "0.0.1"
  {
    URLRoundTrip(fold, base, port, name, host);
    RouteMeaning(fold, base, host, name);
    NameIsFree(name);
    LocalHosts(name, base);
  }

  /** Where the health handler answers: on the ways to write localhost, 127.0.0.1 and the status host, and on ::1. */
  lemma HealthExactly(fold: Casing, base: string, host: string)
    requires base != "" && Free(Lower(fold, base)) && !HasSuffix(Lower(fold, base), ".")
    ensures var l := Lower(fold, host);
            HealthAnswers(fold, base, host) <==>
              Writes(l, "localhost") || Writes(l, "127.0.0.1") || Writes(l, "status." + Lower(fold, base))
              || l == "::1" || l == "::1." || exists port :: Free(port) && l == "[" + "::1" + "]:" + port
  {
    var l := Lower(fold, host);
    ParsedExactly(l, "localhost");
    ParsedExactly(l, "127.0.0.1");
    DotSuffix("status.", Lower(fold, base));
    ParsedExactly(l, "status." + Lower(fold, base));
    ParsedColons(l, "::1");
  }

  /** The same for a host that starts with two colons: it needs brackets to have a port. */
  lemma ParsedColons(l: string, host: string)
    requires |host| >= 2 && host[0] == ':' && host[1] == ':' && NoBrackets(host) && !HasSuffix(host, ".")
    ensures WithoutPort(l) == host <==>
            l == host || l == host + "." || exists port :: Free(port) && l == "[" + host + "]:" + port
  {
    if l == host || l == host + "." {
      TwoColons(l);
      assert host[|host| - 1..] == [host[|host| - 1]];
    } else if SplitHostPort(l).Some? {
      var (parsed, port) := SplitHostPort(l).value;
      SplitExactly(l, parsed, port);
      assert Free(parsed) ==> parsed != host;
    }
    if port :| Free(port) && l == "[" + host + "]:" + port {
      SplitExactly(l, host, port);
    }
  }

  lemma TwoColons(s: string)
    requires |s| >= 2 && s[0] == ':' && s[1] == ':'
    ensures SplitHostPort(s).None?
  {
    SplitUnbracketed(s);
    assert s[1..][0] == ':';
  }

  lemma LocalHosts(name: string, base: string)
    requires '.' !in name
    ensures name + "." + base !in {"localhost", "::1"}
    ensures name + "." + base == "127.0.0.1" <==> name == "127" && base == "0.0.1"
    ensures name + "." + base == "status." + base <==> name == "status"
  {
    var host := name + "." + base;
    assert host[|name|] == '.' && '.' in host;
    assert '.' !in "localhost" && '.' !in "::1";
    FirstLabels(name, base, "127", "0.0.1");
    assert "127" + "." + "0.0.1" == "127.0.0.1";
    FirstLabels(name, base, "status", base);
    assert "status" + "." + base == "status." + base;
  }

  /** Distinct names have distinct public hosts, in any letter case and for any configuration. */
  lemma DistinctHosts(fold: Casing, base: string, port: nat, name: string, other: string)
    requires IsName(name) && IsName(other)
    requires Lower(fold, PublicHost(base, port, name)) == Lower(fold, PublicHost(base, port, other))
    ensures name == other
  {
    LowerHost(fold, base, port, name);
    LowerHost(fold, base, port, other);
    NameIsFree(name);
    NameIsFree(other);
    var rest := Lower(fold, base) + if port != 0 && port != 443 then ":" + Decimal(port) else "";
    assert PublicHost(Lower(fold, base), port, name) == name + "." + rest;
    assert PublicHost(Lower(fold, base), port, other) == other + "." + rest;
    FirstLabels(name, rest, other, rest);
  }

  /** No issued host is that of a reserved name; in particular none is the relay host. */
  lemma IssuedIsNotReserved(base: string, name: string, reserved: string)
    requires IsName(name) && reserved in {"admin", "api", "relay", "status", "tcp", "www"}
    ensures PublicHost(base, 0, name) != reserved + "." + base
  {
    NameIsFree(name);
    assert PublicHost(base, 0, name) == name + "." + base;
    assert '.' !in reserved;
    FirstLabels(name, base, reserved, base);
  }

  /** Two hosts are equal only if their first labels and the rests are. */
  lemma FirstLabels(name: string, base: string, other: string, rest: string)
    requires '.' !in name && '.' !in other
    ensures name + "." + base == other + "." + rest <==> name == other && base == rest
  {
    FirstLabel(name, base);
    FirstLabel(other, rest);
    if name + "." + base == other + "." + rest {
      SameTail(name, base, rest);
    }
  }

  /** The first label of a host is what stands before its first dot. */
  lemma FirstLabel(name: string, base: string)
    requires '.' !in name
    ensures IndexOf(name + "." + base, '.') == |name| && (name + "." + base)[..|name|] == name
  {
    IndexAfter(name, "." + base, '.');
    assert name + "." + base == name + ("." + base);
  }
}
