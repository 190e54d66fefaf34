/** The promise that names are stable, across client, server and store: the client's choice of the name it asks for
    (internal/client/client.go), its saved state, the server's handshake and the public URL. */
module Stability {
  import opened Wrappers
  import opened Text
  import opened Names
  import opened Lifecycle
  import opened Tunnels
  import opened Routing
  import ClientState

  /** The domain in the hello message. */
  function HelloDomain(configured: string, stateDisabled: bool, saved: string): string {
    if configured == "" && !stateDisabled then saved else configured
  }

  /** A configured domain wins over the saved one; without state only the configured one is sent. */
  lemma HelloMeaning(configured: string, saved: string)
    ensures configured != "" ==> forall disabled :: HelloDomain(configured, disabled, saved) == configured
    ensures HelloDomain("", true, saved) == ""
    ensures HelloDomain("", false, saved) == saved
  {
  }

  /** The key of the saved name: server and target, and not the token. */
  function StateKey(server: string, target: string): string {
    server + "|" + target
  }

  /** Clients with different servers or targets have different keys, unless the server address has a bar in it. */
  lemma KeysDiffer(server: string, target: string, other: string, others: string)
    requires '|' !in server && '|' !in other
    ensures StateKey(server, target) == StateKey(other, others) <==> server == other && target == others
  {
    IndexAtBar(server, target);
    IndexAtBar(other, others);
  }

  lemma IndexAtBar(server: string, target: string)
    requires '|' !in server
    ensures var key := StateKey(server, target);
            IndexOf(key, '|') == |server| && key[..|server|] == server && key[|server| + 1..] == target
  {
    IndexAfter(server, "|" + target, '|');
    assert StateKey(server, target) == server + ("|" + target);
  }

  /** A client that was given a name and has saved it, with no other completed save under the same state key since,
      asks for that name when it reconnects. With the same token it then gets that name as soon as its reservation is
      made, and that is possible at once; it is never given another name, nor refused this one as taken or invalid.
      In between, anything may have happened on the server, restarts included, and to the state files of other keys. */
  lemma ReconnectKeepsName(
    fold: Casing, server: Run, i: nat, j: nat, k: nat, first: Conn, again: Conn, hash: string, name: string,
    format: ClientState.Format, saves: ClientState.Run, m: nat, key: string)
    requires server.Valid(fold) && i <= j <= k < |server.states|
    requires var p := server.states[i].At(first); p.Named() && p.hash == hash && p.domain == name
    requires ClientState.IsCodec(format) && saves.Valid(format) && m < |saves.states|
    requires forall x :: 0 <= x < m ==> ClientState.Regular(saves.states[x], saves.steps[x])
    requires ClientState.NoCollision(format, saves.states[m], key)
    requires key in saves.states[m].latest && saves.states[m].latest[key] == name
    requires var hello := HelloDomain("", false, ClientState.Load(format, saves.states[m].disk, key));
             var p := server.states[j].At(again);
             p.Authenticated? && p.hash == hash && p.request == hello
    ensures IsName(name) && Normalize(fold, name) == Ok(name)
    ensures Headed(server.states[k].At(again), hash, name)
    ensures server.states[k].At(again).Finished? ==> exists x :: j <= x < k && Ends(server.steps[x], again)
    ensures server.states[k].At(again).Authenticated? ==>
              && Enabled(server.states[k], Tunnel(again, ReserveRequested))
              && Apply(fold, server.states[k], Tunnel(again, ReserveRequested)).At(again) == Holding(hash, name)
  {
    ClientState.LoadIsLatest(format, saves, m, key);
    NameIsKept(fold, server, i, j, k, first, again, hash, name);
  }

  lemma NameIsKept(
    fold: Casing, server: Run, i: nat, j: nat, k: nat, first: Conn, again: Conn, hash: string, name: string)
    requires server.Valid(fold) && i <= j <= k < |server.states|
    requires var p := server.states[i].At(first); p.Named() && p.hash == hash && p.domain == name
    requires var p := server.states[j].At(again); p.Authenticated? && p.hash == hash && p.request == name
    ensures IsName(name) && Normalize(fold, name) == Ok(name)
    ensures Headed(server.states[k].At(again), hash, name)
    ensures server.states[k].At(again).Finished? ==> exists x :: j <= x < k && Ends(server.steps[x], again)
    ensures server.states[k].At(again).Authenticated? ==>
              && Enabled(server.states[k], Tunnel(again, ReserveRequested))
              && Apply(fold, server.states[k], Tunnel(again, ReserveRequested)).At(again) == Holding(hash, name)
  {
    Reachable(fold, server, i);
    Reachable(fold, server, k);
    OwnedNameIsGranted(fold, server, i, j, k, again, hash, name);
    OwnershipIsPermanent(fold, server, i, k);
    NormalizeFixesNames(fold, name);
    if server.states[k].At(again).Authenticated? {
      OwnedNameReserves(fold, server.states[k], again, hash, name);
    }
  }

  /** An issued URL stays with its token for good: at any later moment of the run a request to it, in any letter case,
      is routed to the name in it, and the tunnel that answers, if there is one, carries the same token. */
  lemma URLStaysWithToken(
    fold: Casing, server: Run, i: nat, k: nat, c: Conn, e: Conn, base: string, port: nat, host: string)
    requires server.Valid(fold) && i <= k < |server.states|
    requires base != "" && RoundTrips(fold, base, port)
    requires server.states[i].At(c).Named()
    requires Lower(fold, host) == Lower(fold, PublicHost(base, port, server.states[i].At(c).domain))
    ensures var route := Route(fold, base, host);
            && route.Ok? && route.value == server.states[i].At(c).domain
            && (server.states[k].Holds(route.value, e) ==>
                  server.states[k].At(e).Registered() && server.states[k].At(e).hash == server.states[i].At(c).hash)
  {
    Reachable(fold, server, i);
    Reachable(fold, server, k);
    URLRoundTrip(fold, base, port, server.states[i].At(c).domain, host);
    if server.states[k].Holds(server.states[i].At(c).domain, e) {
      OneTokenPerDomain(fold, server, i, k, c, e);
    }
  }
}
