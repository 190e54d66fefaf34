/** The server's calls one at a time, over the store and the registry: authenticate and the handshake of handleTunnel
    (internal/server/server.go) and RevokeToken (internal/server/admin.go). The Lifecycle module interleaves their
    steps. */
module Server {
  import opened Wrappers
  import opened Text
  import opened Names
  import Store
  import Registry
  import Routing

  const VERSION := 1

  datatype Hello = Hello(version: int, token: string, domain: string, mode: string)

  datatype Refusal =
    | NoHello | IncompatibleVersion | AuthenticationFailed | UnsupportedMode
    | BadName(name: NameError) | Unavailable(store: Store.StoreError)

  /** The name and the host of the public URL in a welcome. */
  datatype Welcome = Welcome(domain: string, host: string)

  datatype Offline = BadHost(host: Routing.RouteError) | NoTunnel

  datatype RevokeError = IdRequired | NotFound | Failed

  class Server {
    const fold: Casing
    const hash: string -> string
    const authTokens: seq<string>
    const baseDomain: string
    const publicPort: nat
    const store: Store.Store
    const registry: Registry.Registry

    constructor (fold: Casing, hash: string -> string, authTokens: seq<string>, baseDomain: string, publicPort: nat)
      ensures Valid() && fresh(store) && fresh(registry)
      ensures this.fold == fold && this.hash == hash && this.authTokens == authTokens
              && this.baseDomain == baseDomain && this.publicPort == publicPort
    {
      this.fold, this.hash, this.authTokens := fold, hash, authTokens;
      this.baseDomain, this.publicPort := baseDomain, publicPort;
      store := new Store.Store();
      registry := new Registry.Registry();
    }

    ghost predicate Valid()
      reads store, registry
    {
      store.Valid() && registry.Valid()
    }

    predicate ConstantTimeEqual(left: string, right: string) {
      hash(left) == hash(right)
    }

    ghost function Bootstrap(): set<string> {
      set i | 0 <= i < |authTokens| :: hash(authTokens[i])
    }

    /** Every configured token is compared; the table is asked only if none matches. */
    method Authenticate(token: string, now: int, fails: bool) returns (accepted: bool)
      requires Valid()
      modifies store`clientTokens
      ensures Valid() && store.Tokens() == old(store.Tokens())
      ensures accepted <==> hash(token) in Bootstrap() || (!fails && hash(token) in store.Tokens().Values)
    {
      accepted := false;
      for i := 0 to |authTokens|
        invariant accepted <==> exists k :: 0 <= k < i && hash(authTokens[k]) == hash(token)
      {
        if ConstantTimeEqual(token, authTokens[i]) {
          accepted := true;
        }
      }
      assert accepted <==> hash(token) in Bootstrap();
      if !accepted {
        var matched := store.AuthenticateClientToken(hash(token), now, fails);
        accepted := matched.Ok? && matched.value;
      }
    }

    /** Exactly when a hello gets a name: a draw succeeds before any fault, or the requested name is acceptable, free or
        the token's own, and its transaction meets no fault. */
    ghost predicate CanChoose(owners: Store.Owners, hello: Hello, draws: seq<Store.Draw>, fault: Store.Fault) {
      if hello.domain == "" then Store.CanAllocate(owners, hash(hello.token), draws)
      else
        var name := Lower(fold, TrimSpace(hello.domain));
        IsName(name) && fault == Store.NoFault && (name in owners ==> owners[name] == hash(hello.token))
    }

    /** The name for a hello: drawn when it asks for none, otherwise the requested one. */
    method ChooseName(hello: Hello, now: int, draws: seq<Store.Draw>, fault: Store.Fault)
        returns (r: Result<string, Refusal>)
      requires |draws| == 32
      modifies store`reservations
      ensures r.Ok? ==>
                && IsName(r.value)
                && Store.Granted(old(store.Owners()), r.value, hash(hello.token)) == Some(store.Owners())
      ensures r.Ok? && hello.domain != "" ==> Normalize(fold, hello.domain) == Ok(r.value)
      ensures r.Ok? <==> CanChoose(old(store.Owners()), hello, draws, fault)
      ensures r.Err? ==> store.reservations == old(store.reservations) && (r.error.BadName? || r.error.Unavailable?)
    {
      if hello.domain == "" {
        var drawn := store.Allocate(hash(hello.token), now, draws);
        return match drawn case Ok(name) => Ok(name) case Err(e) => Err(Unavailable(e));
      }
      var normalized := Normalize(fold, hello.domain);
      if normalized.Err? {
        return Err(BadName(normalized.error));
      }
      NormalizeAccepts(fold, hello.domain);
      var reserved := store.Reserve(normalized.value, hash(hello.token), now, fault);
      r := if reserved.Ok? then Ok(normalized.value) else Err(Unavailable(reserved.error));
    }

    /** The connection of the session that `session` takes the place of. */
    ghost predicate Replaced(
      before: map<string, Registry.Session>, session: Registry.Session, c: Registry.Connection)
    {
      session.domain in before && c == before[session.domain].conn
    }

    /** A new session takes its place in the registry. */
    method Enter(conn: Registry.Connection, domain: string, token: string) returns (session: Registry.Session)
      requires registry.Valid() && conn !in registry.Conns()
      modifies registry, registry.Conns()
      ensures registry.Valid() && registry.sessions == old(registry.sessions)[domain := session]
      ensures session.conn == conn && session.domain == domain && session.tokenHash == hash(token)
      ensures conn.closedWith == old(conn.closedWith)
      ensures forall c :: c in old(registry.Conns()) ==>
                            c.closedWith == old(c.closedWith) || Replaced(old(registry.sessions), session, c)
      ensures domain in old(registry.sessions) ==> !old(registry.sessions)[domain].conn.Open()
    {
      session := new Registry.Session(domain, hash(token), conn);
      registry.Register(session);
    }

    /** The handshake up to the welcome; `hello` is None when no control stream or no message came. The database may
        fail at authentication and, independently, at the reservation. A refused connection is closed with code 1 and
        leaves registry and reservations alone; an accepted one is the entry of a name that its token owns. */
    method AcceptHello(
      conn: Registry.Connection, hello: Option<Hello>, now: int, authFails: bool, draws: seq<Store.Draw>,
      fault: Store.Fault)
      returns (r: Result<Welcome, Refusal>, session: Registry.Session?)
      requires Valid() && |draws| == 32 && conn !in registry.Conns() && conn.Open()
      modifies conn, store, registry, registry.Conns()
      ensures Valid()
      ensures r.Err? ==>
                && session == null && conn.closedWith == Some(1)
                && registry.sessions == old(registry.sessions) && store.reservations == old(store.reservations)
                && forall c :: c in old(registry.Conns()) ==> c.closedWith == old(c.closedWith)
      ensures r.Ok? ==>
                && hello.Some? && session != null && session.conn == conn && conn.Open()
                && session.tokenHash == hash(hello.value.token)
                && registry.sessions == old(registry.sessions)[session.domain := session]
                && IsName(session.domain) && session.domain in store.Owners()
                && store.Owners()[session.domain] == session.tokenHash
                && r.value == Welcome(session.domain, Routing.PublicHost(baseDomain, publicPort, session.domain))
      ensures r.Ok? ==> forall c :: c in old(registry.Conns()) ==>
                                      c.closedWith == old(c.closedWith) || Replaced(old(registry.sessions), session, c)
      ensures r.Ok? && session.domain in old(registry.sessions) ==>
                !old(registry.sessions)[session.domain].conn.Open()
      ensures r.Ok? <==>
                && hello.Some? && hello.value.version == VERSION && hello.value.mode == "http"
                && (hash(hello.value.token) in Bootstrap()
                    || (!authFails && hash(hello.value.token) in old(store.Tokens()).Values))
                && CanChoose(old(store.Owners()), hello.value, draws, fault)
      ensures r == Err(NoHello) <==> hello.None?
      ensures r == Err(IncompatibleVersion) <==> hello.Some? && hello.value.version != VERSION
      ensures r == Err(AuthenticationFailed) <==>
              && hello.Some? && hello.value.version == VERSION && hash(hello.value.token) !in Bootstrap()
              && (authFails || hash(hello.value.token) !in old(store.Tokens()).Values)
    {
      session := null;
      if hello.None? {
        conn.CloseWithError(1);
        return Err(NoHello), null;
      }
      var message := hello.value;
      if message.version != VERSION {
        conn.CloseWithError(1);
        return Err(IncompatibleVersion), null;
      }
      var accepted := Authenticate(message.token, now, authFails);
      if !accepted {
        conn.CloseWithError(1);
        return Err(AuthenticationFailed), null;
      }
      if message.mode != "http" {
        conn.CloseWithError(1);
        return Err(UnsupportedMode), null;
      }
      var chosen := ChooseName(message, now, draws, fault);
      if chosen.Err? {
        conn.CloseWithError(1);
        return Err(chosen.error), null;
      }
      session := Enter(conn, chosen.value, message.token);
      r := Ok(Welcome(chosen.value, Routing.PublicHost(baseDomain, publicPort, chosen.value)));
    }

    /** The session a public request is sent to. For every live tunnel, requests to the host of its issued URL, in any
        letter case, reach exactly that tunnel, as long as the configuration lets issued URLs be routed back. */
    method Dispatch(host: string) returns (r: Result<Registry.Session, Offline>)
      requires Valid()
      ensures forall d :: d in registry.sessions && Routing.Addresses(fold, baseDomain, publicPort, host, d) ==>
                            r == Ok(registry.sessions[d])
      ensures r.Ok? ==> r.value.domain in registry.sessions && registry.sessions[r.value.domain] == r.value
                        && Routing.Spells(fold, baseDomain, host, r.value.domain)
      ensures r.Err? ==> forall d :: d in registry.sessions ==> Routing.Route(fold, baseDomain, host) != Ok(d)
    {
      Routing.AddressedIsRouted(fold, baseDomain, publicPort, host);
      var route := Routing.Route(fold, baseDomain, host);
      if route.Err? {
        return Err(BadHost(route.error));
      }
      var value := registry.Lookup(route.value);
      if value == null {
        return Err(NoTunnel);
      }
      Routing.RouteSound(fold, baseDomain, host, route.value);
      r := Ok(value);
    }

    /** Lookup, DELETE, disconnect. Undisturbed, a success leaves no open entry with the token. */
    method RevokeToken(id: string, lookupFails: bool, deleteFails: bool) returns (r: Result<(), RevokeError>)
      requires Valid()
      modifies store`clientTokens, registry.Conns()
      ensures Valid() && registry.sessions == old(registry.sessions)
      ensures r == Err(IdRequired) <==> id == ""
      ensures r == Err(Failed) <==> id != "" && !lookupFails && id in old(store.Tokens()) && deleteFails
      ensures r.Ok? <==> id != "" && !lookupFails && !deleteFails && id in old(store.Tokens())
      ensures r.Ok? ==> var revoked := old(store.Tokens())[id];
                        && store.Tokens() == old(store.Tokens()) - {id} && revoked !in store.Tokens().Values
                        && (forall d :: d in registry.sessions && registry.sessions[d].tokenHash == revoked ==>
                             !registry.sessions[d].conn.Open())
                        && (forall d :: d in registry.sessions && registry.sessions[d].tokenHash != revoked ==>
                              registry.sessions[d].conn.closedWith == old(registry.sessions[d].conn.closedWith))
      ensures r.Err? ==>
                && store.Tokens() == old(store.Tokens())
                && forall c :: c in old(registry.Conns()) ==> c.closedWith == old(c.closedWith)
    {
      if id == "" {
        return Err(IdRequired);
      }
      var found := store.ClientTokenHash(id, lookupFails);
      if found.Err? {
        return Err(NotFound);
      }
      ghost var before := store.Tokens();
      var deleted := store.DeleteClientToken(id, deleteFails);
      if deleted.Err? {
        return Err(Failed);
      }
      if !deleted.value {
        return Err(NotFound);
      }
      assert store.Tokens() == before - {id};
      Store.DeleteRemovesHash(before, id);
      var disconnected := registry.DisconnectToken(found.value);
      r := Ok(());
    }
  }
}
