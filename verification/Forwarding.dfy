/** Forwarding headers: addForwardingHeaders and the order of the header steps in `proxy`
    (internal/server/server.go). */
module Forwarding {
  import opened Wrappers
  import opened Text
  import opened Headers
  import Routing

  // ---------------------------------------------------------------- over any distinct keys

  /** The keys the pipeline treats specially. */
  datatype Keys = Keys(
    connection: string, fixed: set<string>, client: string, host: string, proto: string, forwarded: string,
    realIp: string)
  {
    function Spoofable(): set<string> { {client, host, proto, forwarded, realIp} }

    ghost predicate Apart() {
      && client !in {host, proto, forwarded, realIp} && host !in {proto, forwarded, realIp}
      && proto !in {forwarded, realIp} && connection !in Spoofable() && client !in fixed
    }
  }

  /** A request as far as its headers depend on it; `remote` is the peer's address with its port. */
  datatype Request = Request(headers: Table, remote: string, host: string, secure: bool)

  predicate HasPeer(remote: string) {
    Routing.SplitHostPort(remote).Some?
  }

  function Peer(remote: string): string
    requires HasPeer(remote)
  {
    Routing.SplitHostPort(remote).value.0
  }

  function Chained(h: Table, client: string, remote: string, trust: bool): Table {
    if !HasPeer(remote) then h
    else h[client := [if trust && First(h, client) != "" then First(h, client) + ", " + Peer(remote) else Peer(remote)]]
  }

  function Annotated(keys: Keys, h: Table, remote: string, host: string, secure: bool, trust: bool): Table {
    var chained := Chained(h, keys.client, remote, trust);
    var cleaned := if trust then chained else chained - {keys.forwarded, keys.realIp};
    cleaned[keys.host := [host]][keys.proto := [if secure then "https" else "http"]]
  }

  function Stripped(keys: Keys, h: Table): Table {
    h - (ConnectionKeys(ValuesAt(h, keys.connection)) + keys.fixed)
  }

  function Sent(keys: Keys, request: Request, trust: bool): Table {
    Annotated(keys, Stripped(keys, request.headers), request.remote, request.host, request.secure, trust)
  }

  /** Equal up to the forwarding headers the sender supplied. */
  ghost predicate SameRequest(keys: Keys, a: Request, b: Request) {
    && a.headers - keys.Spoofable() == b.headers - keys.Spoofable()
    && a.remote == b.remote && a.host == b.host && a.secure == b.secure
  }

  lemma SameElsewhere(hidden: set<string>, a: Table, b: Table, key: string)
    requires a - hidden == b - hidden && key !in hidden
    ensures (key in a <==> key in b) && (key in a ==> a[key] == b[key])
  {
    assert key in a <==> key in a - hidden;
    assert key in b <==> key in b - hidden;
    if key in a - hidden {
      assert (a - hidden)[key] == (b - hidden)[key];
    }
  }

  lemma SameSent(keys: Keys, a: Request, b: Request)
    requires keys.Apart() && SameRequest(keys, a, b) && HasPeer(a.remote)
    ensures Sent(keys, a, false) == Sent(keys, b, false)
  {
    var hidden := keys.Spoofable();
    SameElsewhere(hidden, a.headers, b.headers, keys.connection);
    var x, y := Sent(keys, a, false), Sent(keys, b, false);
    forall key
      ensures (key in x <==> key in y) && (key in x && key in y ==> x[key] == y[key])
    {
      if key !in hidden {
        SameElsewhere(hidden, a.headers, b.headers, key);
      }
    }
  }

  lemma AnnotationsPresent(keys: Keys, request: Request, trust: bool)
    requires keys.Apart()
    ensures var out := Sent(keys, request, trust);
            && ValuesAt(out, keys.host) == [request.host]
            && ValuesAt(out, keys.proto) == [if request.secure then "https" else "http"]
            && (HasPeer(request.remote) ==> |ValuesAt(out, keys.client)| == 1)
            && (HasPeer(request.remote) && !trust ==> ValuesAt(out, keys.client) == [Peer(request.remote)])
            && (!trust ==> ValuesAt(out, keys.forwarded) == [] && ValuesAt(out, keys.realIp) == [])
  {
  }

  predicate SameAt(a: Table, b: Table, key: string) {
    (key in a <==> key in b) && (key in a && key in b ==> a[key] == b[key])
  }

  /** The first value under the key, if it says anything. */
  predicate SaysAt(h: Table, key: string) {
    ValuesAt(h, key) != [] && ValuesAt(h, key)[0] != ""
  }

  /** What is sent under every key. */
  lemma SentAt(keys: Keys, request: Request, trust: bool, key: string)
    requires keys.Apart()
    ensures var kept, out := Stripped(keys, request.headers), Sent(keys, request, trust);
            && (key == keys.host ==> ValuesAt(out, key) == [request.host])
            && (key == keys.proto ==> ValuesAt(out, key) == [if request.secure then "https" else "http"])
            && (key == keys.client && HasPeer(request.remote) ==>
                  ValuesAt(out, key) == [if trust && SaysAt(kept, key) then kept[key][0] + ", " + Peer(request.remote)
                                         else Peer(request.remote)])
            && (key == keys.client && !HasPeer(request.remote) ==> SameAt(kept, out, key))
            && (key in {keys.forwarded, keys.realIp} ==> if trust then SameAt(kept, out, key) else key !in out)
            && (key !in keys.Spoofable() ==> SameAt(kept, out, key))
  {
  }

  lemma HopAppends(keys: Keys, request: Request)
    requires keys.Apart() && HasPeer(request.remote)
    requires keys.client !in ConnectionKeys(ValuesAt(request.headers, keys.connection))
    ensures var existing := First(request.headers, keys.client);
            First(Sent(keys, request, true), keys.client)
            == if existing == "" then Peer(request.remote) else existing + ", " + Peer(request.remote)
  {
  }

  // ---------------------------------------------------------------- the program's keys

  const KEYS := Keys(Canonical("Connection"), KeysOf(HOP_BY_HOP), Canonical("X-Forwarded-For"),
                     Canonical("X-Forwarded-Host"), Canonical("X-Forwarded-Proto"), Canonical("Forwarded"),
                     Canonical("X-Real-IP"))

  lemma CanonicalShape(name: string)
    ensures |Canonical(name)| == |name|
    ensures name != "" && 'A' <= name[0] <= 'Z' ==> Canonical(name)[0] == name[0]
  {
  }

  lemma ApartByShape(keys: Keys)
    requires |keys.client| == 15 && |keys.host| == 16 && |keys.proto| == 17 && |keys.connection| == 10
    requires |keys.forwarded| == |keys.realIp| == 9 && keys.forwarded[0] == 'F' && keys.realIp[0] == 'X'
    requires forall key :: key in keys.fixed ==> |key| != 15
    ensures keys.Apart()
  {
  }

  lemma KeysApart()
    ensures KEYS.Apart()
  {
    CanonicalShape("X-Forwarded-For");
    CanonicalShape("X-Forwarded-Host");
    CanonicalShape("X-Forwarded-Proto");
    CanonicalShape("Forwarded");
    CanonicalShape("X-Real-IP");
    CanonicalShape("Connection");
    FixedLengths();
    ApartByShape(KEYS);
  }

  lemma FixedLengths()
    ensures forall key :: key in KeysOf(HOP_BY_HOP) ==> |key| != 15
  {
    FixedListIsBare();
    forall i | 0 <= i < |HOP_BY_HOP|
      ensures |HOP_BY_HOP[i]| != 15 && Bare(HOP_BY_HOP[i])
    {
    }
    forall key
      ensures key in KeysOf(HOP_BY_HOP) ==> |key| != 15
    {
      KeysOfFixed(key);
    }
  }

  method AddForwardingHeaders(headers: Header, remote: string, host: string, secure: bool, trustIncoming: bool)
    modifies headers
    ensures headers.table == Annotated(KEYS, old(headers.table), remote, host, secure, trustIncoming)
  {
    SetClient(headers, "X-Forwarded-For", remote, trustIncoming);
    if !trustIncoming {
      DelClaims(headers, "Forwarded", "X-Real-IP");
    }
    SetOwn(headers, "X-Forwarded-Host", host, "X-Forwarded-Proto", if secure then "https" else "http");
  }

  method DelClaims(headers: Header, forwarded: string, realIp: string)
    modifies headers
    ensures headers.table == old(headers.table) - {Canonical(forwarded), Canonical(realIp)}
  {
    headers.Del(forwarded);
    headers.Del(realIp);
  }

  method SetOwn(headers: Header, hostName: string, host: string, protoName: string, proto: string)
    modifies headers
    ensures headers.table == old(headers.table)[Canonical(hostName) := [host]][Canonical(protoName) := [proto]]
  {
    headers.Set(hostName, host);
    headers.Set(protoName, proto);
  }

  method SetClient(headers: Header, name: string, remote: string, trustIncoming: bool)
    modifies headers
    ensures headers.table == Chained(old(headers.table), Canonical(name), remote, trustIncoming)
  {
    var client := Routing.SplitHostPort(remote);
    if client.Some? {
      var existing := Get(headers.table, name);
      if trustIncoming && existing != "" {
        headers.Set(name, existing + ", " + client.value.0);
      } else {
        headers.Set(name, client.value.0);
      }
    }
  }

  /** The header part of `proxy`: hop-by-hop removal first, forwarding headers after. */
  method PrepareHeaders(headers: Header, remote: string, host: string, secure: bool, trustIncoming: bool)
    modifies headers
    ensures headers.table == Outgoing(Request(old(headers.table), remote, host, secure), trustIncoming)
  {
    headers.RemoveHopByHop();
    assert headers.table == Stripped(KEYS, old(headers.table));
    AddForwardingHeaders(headers, remote, host, secure, trustIncoming);
  }

  function Outgoing(request: Request, trust: bool): Table {
    Sent(KEYS, request, trust)
  }

  /** What is sent for a header, from what hop-by-hop removal has kept. */
  ghost predicate SentAs(request: Request, trust: bool, name: string, kept: Table, out: Table) {
    var key := Canonical(name);
    if SameButCase("X-Forwarded-Host", name) then ValuesAt(out, key) == [request.host]
    else if SameButCase("X-Forwarded-Proto", name) then
      ValuesAt(out, key) == [if request.secure then "https" else "http"]
    else if SameButCase("X-Forwarded-For", name) && HasPeer(request.remote) then
      ValuesAt(out, key) == [if trust && SaysAt(kept, key) then kept[key][0] + ", " + Peer(request.remote)
                             else Peer(request.remote)]
    else if (SameButCase("Forwarded", name) || SameButCase("X-Real-IP", name)) && !trust then key !in out
    else SameAt(kept, out, key)
  }

  /** The whole of what `proxy` sends, header by header and whatever the spelling of the name: its own three headers,
      Forwarded and X-Real-IP only from a trusted sender, and everything else as hop-by-hop removal left it. */
  lemma OutgoingExactly(request: Request, trust: bool, name: string)
    requires IsToken(name)
    ensures SentAs(request, trust, name, EndToEnd(request.headers), Outgoing(request, trust))
  {
    KeysApart();
    NamesOfKeys(KEYS, name);
    OutgoingIs(KEYS, request, trust);
    SentUnder(KEYS, request, trust, name, EndToEnd(request.headers), Outgoing(request, trust));
  }

  lemma SentUnder(keys: Keys, request: Request, trust: bool, name: string, kept: Table, out: Table)
    requires keys.Apart() && Named(keys, name)
    requires kept == Stripped(keys, request.headers) && out == Sent(keys, request, trust)
    ensures SentAs(request, trust, name, kept, out)
  {
    SentAt(keys, request, trust, Canonical(name));
  }

  /** The name's key is one of the special ones exactly if the name spells it. */
  ghost predicate Named(keys: Keys, name: string) {
    && (Canonical(name) == keys.host <==> SameButCase("X-Forwarded-Host", name))
    && (Canonical(name) == keys.proto <==> SameButCase("X-Forwarded-Proto", name))
    && (Canonical(name) == keys.client <==> SameButCase("X-Forwarded-For", name))
    && (Canonical(name) == keys.forwarded <==> SameButCase("Forwarded", name))
    && (Canonical(name) == keys.realIp <==> SameButCase("X-Real-IP", name))
  }

  lemma NamesOfKeys(keys: Keys, name: string)
    requires keys == KEYS && IsToken(name)
    ensures Named(keys, name)
  {
    CanonicalAgainst("X-Forwarded-Host", name);
    CanonicalAgainst("X-Forwarded-Proto", name);
    CanonicalAgainst("X-Forwarded-For", name);
    CanonicalAgainst("Forwarded", name);
    CanonicalAgainst("X-Real-IP", name);
  }

  lemma OutgoingIs(keys: Keys, request: Request, trust: bool)
    requires keys == KEYS
    ensures EndToEnd(request.headers) == Stripped(keys, request.headers)
    ensures Outgoing(request, trust) == Sent(keys, request, trust)
  {
  }

  /** The peer is the host part of the remote address, without its port and without brackets. */
  lemma PeerExactly(remote: string, host: string)
    ensures HasPeer(remote) && Peer(remote) == host <==> exists port :: Routing.IsSplit(remote, host, port)
  {
    if HasPeer(remote) {
      var port := Routing.SplitHostPort(remote).value.1;
      Routing.SplitExactly(remote, Peer(remote), port);
    }
    if port :| Routing.IsSplit(remote, host, port) {
      Routing.SplitExactly(remote, host, port);
    }
  }

  /** Without trust, what a sender claims about forwarding has no effect at all, exactly when the peer address parses:
      an address that does not parse lets a claimed X-Forwarded-For through. */
  lemma ClaimsHaveNoEffect(remote: string, host: string, secure: bool)
    ensures HasPeer(remote) <==>
            forall a: Request, b: Request ::
                a.remote == remote && a.host == host && a.secure == secure && SameRequest(KEYS, a, b) ==>
                             Outgoing(a, false) == Outgoing(b, false)
  {
    KeysApart();
    var keys := KEYS;
    if HasPeer(remote) {
      forall a: Request, b: Request | a.remote == remote && a.host == host && a.secure == secure
          && SameRequest(keys, a, b)
        ensures Sent(keys, a, false) == Sent(keys, b, false)
      {
        SameSent(keys, a, b);
      }
    } else {
      LeakWithoutPeer(keys, remote, host, secure);
    }
  }

  lemma LeakWithoutPeer(keys: Keys, remote: string, host: string, secure: bool)
    requires keys.Apart() && !HasPeer(remote)
    ensures exists a: Request, b: Request ::
            a.remote == remote && a.host == host && a.secure == secure && SameRequest(keys, a, b)
                           && Sent(keys, a, false) != Sent(keys, b, false)
  {
    var a := Request(map[], remote, host, secure);
    var b := Request(map[keys.client := ["203.0.113.9"]], remote, host, secure);
    assert SameRequest(keys, a, b);
    assert keys.client in Sent(keys, b, false) && keys.client !in Sent(keys, a, false);
  }

  /** Whatever Connection lists, the added headers are there; without trust their values are the server's own. */
  lemma AddedHeadersSurvive(request: Request, trust: bool)
    ensures var out := Outgoing(request, trust);
            && ValuesAt(out, KEYS.host) == [request.host]
            && ValuesAt(out, KEYS.proto) == [if request.secure then "https" else "http"]
            && (HasPeer(request.remote) ==> |ValuesAt(out, KEYS.client)| == 1)
            && (HasPeer(request.remote) && !trust ==> ValuesAt(out, KEYS.client) == [Peer(request.remote)])
            && (!trust ==> ValuesAt(out, KEYS.forwarded) == [] && ValuesAt(out, KEYS.realIp) == [])
  {
    KeysApart();
    AnnotationsPresent(KEYS, request, trust);
  }

  /** A hop of a trusted chain: its peer is known and no Connection value lists X-Forwarded-For. */
  ghost predicate IsHop(keys: Keys, request: Request) {
    HasPeer(request.remote) && Peer(request.remote) != ""
        && keys.client !in ConnectionKeys(ValuesAt(request.headers, keys.connection))
  }

  /** Each hop's X-Forwarded-For is what the hop before it sent. */
  ghost predicate IsChain(keys: Keys, requests: seq<Request>, first: string) {
    && (forall i :: 0 <= i < |requests| ==> IsHop(keys, requests[i]))
    && (requests != [] ==> Received(keys, requests[0]) == first)
    && (forall i, j | 0 <= i < j < |requests| :: j == i + 1 ==>
         Received(keys, requests[j]) == Passed(keys, requests[i]))
  }

  function Peers(requests: seq<Request>): seq<string>
    requires forall i :: 0 <= i < |requests| ==> HasPeer(requests[i].remote)
  {
    seq(|requests|, i requires 0 <= i < |requests| => Peer(requests[i].remote))
  }

  function Received(keys: Keys, request: Request): string {
    First(request.headers, keys.client)
  }

  function Passed(keys: Keys, request: Request): string {
    First(Sent(keys, request, true), keys.client)
  }

  function Outer(first: string): seq<string> {
    if first == "" then [] else [first]
  }

  /** The same chain over whatever hops receive, pass on and add. */
  lemma {:induction false} ChainOf<R>(
    hops: seq<R>, receive: R -> string, pass: R -> string, peer: R -> string, peers: seq<string>)
    requires |hops| == |peers| > 0
    requires forall i :: 0 <= i < |hops| ==> peers[i] == peer(hops[i]) != ""
    requires forall i :: 0 <= i < |hops| ==>
               pass(hops[i]) == if receive(hops[i]) == "" then peers[i] else receive(hops[i]) + ", " + peers[i]
    requires forall i, j | 0 <= i < j < |hops| :: j == i + 1 ==> receive(hops[j]) == pass(hops[i])
    ensures pass(hops[|hops| - 1]) == Join(Outer(receive(hops[0])) + peers, ", ")
  {
    var n := |hops| - 1;
    var start := Outer(receive(hops[0]));
    var front := start + peers[..n];
    assert start + peers == front + [peers[n]];
    JoinAppend(front, peers[n], ", ");
    if n > 0 {
      var fewer := hops[..n];
      assert fewer[0] == hops[0] && fewer[n - 1] == hops[n - 1];
      ChainOf(fewer, receive, pass, peer, peers[..n]);
      assert receive(hops[n]) == pass(hops[n - 1]);
      FirstNonEmpty(start, peers[..n]);
    }
  }

  lemma FirstNonEmpty(start: seq<string>, peers: seq<string>)
    requires peers != [] && peers[0] != "" && (start != [] ==> start[0] != "")
    ensures Join(start + peers, ", ") != ""
  {
    JoinNonEmpty(start + peers, ", ");
  }

  lemma HopOf(keys: Keys, request: Request)
    requires keys.Apart() && IsHop(keys, request)
    ensures Passed(keys, request)
            == if Received(keys, request) == "" then Peer(request.remote)
               else Received(keys, request) + ", " + Peer(request.remote)
  {
    HopAppends(keys, request);
  }

  lemma ChainBy(
    keys: Keys, requests: seq<Request>, first: string, receive: Request -> string, pass: Request -> string)
    requires keys.Apart() && requests != [] && IsChain(keys, requests, first)
    requires forall r :: receive(r) == Received(keys, r) && pass(r) == Passed(keys, r)
    ensures pass(requests[|requests| - 1]) == Join(Outer(first) + Peers(requests), ", ")
  {
    forall i | 0 <= i < |requests|
      ensures pass(requests[i])
              == if receive(requests[i]) == "" then Peers(requests)[i]
                 else receive(requests[i]) + ", " + Peers(requests)[i]
    {
      HopOf(keys, requests[i]);
    }
    var peer := (r: Request) => if HasPeer(r.remote) then Peer(r.remote) else "";
    ChainOf(requests, receive, pass, peer, Peers(requests));
  }

  /** With trust, n hops leave the original chain followed by the n peers in order. */
  lemma ChainGrows(requests: seq<Request>, first: string)
    requires requests != [] && IsChain(KEYS, requests, first)
    ensures Passed(KEYS, requests[|requests| - 1]) == Join(Outer(first) + Peers(requests), ", ")
  {
    KeysApart();
    var keys := KEYS;
    ChainBy(keys, requests, first, r => Received(keys, r), r => Passed(keys, r));
  }

  lemma {:induction false} JoinAppend(parts: seq<string>, last: string, separator: string)
    ensures Join(parts + [last], separator) == if parts == [] then last else Join(parts, separator) + separator + last
  {
    if |parts| > 1 {
      assert (parts + [last])[1..] == parts[1..] + [last];
      JoinAppend(parts[1..], last, separator);
    }
  }

  lemma JoinNonEmpty(parts: seq<string>, separator: string)
    requires parts != [] && parts[0] != ""
    ensures Join(parts, separator) != ""
  {
  }
}
