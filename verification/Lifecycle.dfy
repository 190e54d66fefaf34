/** The server as a system of interleaved goroutines: handleTunnel (internal/server/server.go),
    the registry (internal/server/registry.go), the durable tables (internal/store/store.go) and
    RevokeToken (internal/server/admin.go).

    One step is what the program does without releasing a lock, a transaction or a connection:
    a database transaction, a registry critical section, or one close of a connection. */
module Lifecycle {
  import opened Wrappers
  import opened Text
  import opened Names
  import opened Store
  import opened Registry

  type Conn = int

  /** Where the goroutine serving a connection stands. */
  datatype Phase =
    | Handshaking                                                            // accepted, hello not yet checked
    | Authenticated(hash: string, request: string, attempts: nat)            // token accepted, no name yet
    | Refused(hash: string)                                                  // name unavailable
    | Holding(hash: string, domain: string)                                  // name reserved, not registered
    | Replacing(hash: string, domain: string, previous: Option<Conn>)        // swapped in, previous not yet closed
    | Serving(hash: string, domain: string)                                  // reading heartbeats
    | Leaving(hash: string, domain: string)                                  // about to run the deferred unregister
    | Unregistered(hash: string, domain: string)                             // about to run the deferred close
    | Finished
  {
    /** The session has gone through `register` and not yet through `unregister`. */
    predicate Registered() { Replacing? || Serving? || Leaving? }

    /** A token was accepted and the session is not in the registry yet. */
    predicate Gap(h: string) { (Authenticated? || Holding?) && hash == h }

    predicate Active(h: string) { !Handshaking? && !Finished? && hash == h }

    predicate BeforeRegister() { Handshaking? || Authenticated? || Refused? || Holding? }

    predicate Named() { Holding? || Registered() || Unregistered? }
  }

  /** Where a RevokeToken call stands. */
  datatype Revoker =
    | Started(id: string)
    | LookedUp(id: string, hash: string)
    | Deleted(id: string, hash: string)
    | Closing(id: string, hash: string, pending: set<Conn>)   // registry snapshot taken
    | Revoked(id: string, hash: string)                       // returned nil
    | NotFound(id: string)                                    // returned an error
    | Interrupted

  datatype State = State(
    bootstrap: set<string>,          // hashes of the tokens in the configuration
    owners: Owners,
    tokens: Tokens,
    sessions: map<string, Conn>,     // the registry
    threads: map<Conn, Phase>,
    open: set<Conn>,                 // connections not closed by either side
    revokers: map<int, Revoker>)
  {
    /** `authenticate` accepts a token with this hash. */
    predicate Accepts(hash: string) { hash in bootstrap || hash in tokens.Values }

    function At(c: Conn): Phase { if c in threads then threads[c] else Finished }

    /** `c` is the registry entry of its domain. */
    predicate Current(c: Conn) { At(c).Registered() && Holds(At(c).domain, c) }

    /** `c` is past the point of registration, having been registered or failed, and is not the entry. */
    predicate Superseded(c: Conn) { c in threads && !At(c).BeforeRegister() && !Current(c) }

    /** `r` has taken the place of `c` and will close it. */
    predicate Replaces(r: Conn, c: Conn) { At(r).Replacing? && At(r).previous == Some(c) }

    predicate Holds(domain: string, c: Conn) { domain in sessions && sessions[domain] == c }
  }

  /** What the goroutine of one connection does next. */
  datatype Move =
    | Authenticate(hash: string, request: string)
    | ReserveRequested
    | ReserveDrawn(name: string)
    | Fail                             // any error return before registration
    | Register
    | ClosePrevious
    | Leave
    | Unregister
    | CloseOwn

  /** What a RevokeToken call does next. */
  datatype Call = Lookup | Delete | DatabaseError | Snapshot | Close(c: Conn) | Return

  datatype Step =
    | Accept(c: Conn)
    | Tunnel(c: Conn, move: Move)
    | ConnectionLost(c: Conn)          // the peer or the transport closes it
    | InsertToken(id: string, hash: string)
    | Revoke(r: int, id: string)
    | Revoking(r: int, call: Call)
    | Restart(bootstrap: set<string>)

  ghost predicate Init(s: State) {
    s.owners == map[] && s.tokens == map[] && s.sessions == map[] && s.threads == map[] && s.open == {}
        && s.revokers == map[]
  }

  ghost predicate CanMove(s: State, c: Conn, move: Move) {
    var phase := s.At(c);
    match move
    case Authenticate(hash, request) => phase.Handshaking? && s.Accepts(hash)
    case ReserveRequested => phase.Authenticated? && phase.request != ""
    case ReserveDrawn(name) =>
      phase.Authenticated? && phase.request == "" && phase.attempts < ATTEMPTS && CanBeDrawn(name)
    case Fail => phase.Handshaking? || phase.Authenticated? || phase.Refused?
    case Register => phase.Holding?
    case ClosePrevious => phase.Replacing?
    case Leave => phase.Serving?
    case Unregister => phase.Leaving?
    case CloseOwn => phase.Unregistered?
  }

  /** The domain a reservation step asks the table for, if it gets that far. */
  function Wanted(fold: Casing, phase: Phase, move: Move): Option<string> {
    if move.ReserveDrawn? then Some(move.name)
    else if move.ReserveRequested? && phase.Authenticated? && Normalize(fold, phase.request).Ok?
        then Some(Normalize(fold, phase.request).value)
    else None
  }

  ghost function NextOwners(fold: Casing, s: State, c: Conn, move: Move): Owners
    requires CanMove(s, c, move)
  {
    var wanted := Wanted(fold, s.At(c), move);
    if wanted.Some? && Granted(s.owners, wanted.value, s.At(c).hash).Some?
    then Granted(s.owners, wanted.value, s.At(c).hash).value else s.owners
  }

  ghost function NextSessions(s: State, c: Conn, move: Move): map<string, Conn>
    requires CanMove(s, c, move)
  {
    if move.Register? then s.sessions[s.At(c).domain := c]
    else if move.Unregister? then Without(s.sessions, s.At(c).domain, c)
    else s.sessions
  }

  ghost function Closes(s: State, c: Conn, move: Move): set<Conn>
    requires CanMove(s, c, move)
  {
    if move.Fail? || move.CloseOwn? then {c}
    else if move.ClosePrevious? && s.At(c).previous.Some? then {s.At(c).previous.value}
    else {}
  }

  ghost function NextPhase(fold: Casing, s: State, c: Conn, move: Move): Phase
    requires CanMove(s, c, move)
  {
    var phase := s.At(c);
    match move
    case Authenticate(hash, request) => Authenticated(hash, request, 0)
    case ReserveRequested =>
      var wanted := Wanted(fold, phase, move);
      if wanted.Some? && Granted(s.owners, wanted.value, phase.hash).Some? then Holding(phase.hash, wanted.value)
      else Refused(phase.hash)
    case ReserveDrawn(name) =>
      if Granted(s.owners, name, phase.hash).Some? then Holding(phase.hash, name)
      else phase.(attempts := phase.attempts + 1)
    case Fail => Finished
    case Register =>
      Replacing(phase.hash, phase.domain,
                if phase.domain in s.sessions then Some(s.sessions[phase.domain]) else None)
    case ClosePrevious => Serving(phase.hash, phase.domain)
    case Leave => Leaving(phase.hash, phase.domain)
    case Unregister => Unregistered(phase.hash, phase.domain)
    case CloseOwn => Finished
  }

  predicate CanCall(s: State, r: int, call: Call) {
    r in s.revokers &&
    var revoker := s.revokers[r];
    match call
    case Lookup => revoker.Started?
    case Delete => revoker.LookedUp?
    case DatabaseError => revoker.Started? || revoker.LookedUp?
    case Snapshot => revoker.Deleted?
    case Close(c) => revoker.Closing? && c in revoker.pending
    case Return => revoker.Closing? && revoker.pending == {}
  }

  /** The registry entries that carry `hash`. */
  function Matches(s: State, hash: string): set<Conn> {
    set d | d in s.sessions && s.At(s.sessions[d]).Active(hash) :: s.sessions[d]
  }

  function NextRevoker(s: State, r: int, call: Call): Revoker
    requires CanCall(s, r, call)
  {
    var revoker := s.revokers[r];
    match call
    case Lookup => if revoker.id in s.tokens then LookedUp(revoker.id, s.tokens[revoker.id]) else NotFound(revoker.id)
    case Delete => if revoker.id in s.tokens then Deleted(revoker.id, revoker.hash) else NotFound(revoker.id)
    case DatabaseError => NotFound(revoker.id)
    case Snapshot => Closing(revoker.id, revoker.hash, Matches(s, revoker.hash))
    case Close(c) => revoker.(pending := revoker.pending - {c})
    case Return => Revoked(revoker.id, revoker.hash)
  }

  ghost predicate Enabled(s: State, step: Step) {
    match step
    case Accept(c) => c !in s.threads
    case Tunnel(c, move) => c in s.threads && CanMove(s, c, move)
    case ConnectionLost(c) => c in s.threads
    case InsertToken(id, hash) => id !in s.tokens && hash !in s.tokens.Values
    case Revoke(r, id) => r !in s.revokers
    case Revoking(r, call) => CanCall(s, r, call)
    case Restart(bootstrap) => true
  }

  ghost function Apply(fold: Casing, s: State, step: Step): State
    requires Enabled(s, step)
  {
    match step
    case Accept(c) => s.(open := s.open + {c}, threads := s.threads[c := Handshaking])
    case Tunnel(c, move) =>
      s.(owners := NextOwners(fold, s, c, move), sessions := NextSessions(s, c, move),
         open := s.open - Closes(s, c, move), threads := s.threads[c := NextPhase(fold, s, c, move)])
    case ConnectionLost(c) => s.(open := s.open - {c})
    case InsertToken(id, hash) => s.(tokens := s.tokens[id := hash])
    case Revoke(r, id) => s.(revokers := s.revokers[r := Started(id)])
    case Revoking(r, call) =>
      s.(tokens := if call.Delete? then s.tokens - {s.revokers[r].id} else s.tokens,
         open := if call.Close? then s.open - {call.c} else s.open,
         revokers := s.revokers[r := NextRevoker(s, r, call)])
    case Restart(bootstrap) =>
      // Only the tables survive; connection and call numbers are never used twice.
      State(bootstrap, s.owners, s.tokens, map[], map c | c in s.threads :: Finished, {},
            map r | r in s.revokers :: Interrupted)
  }

  /** A finite run: `steps[i]` leads from `states[i]` to `states[i + 1]`. */
  datatype Run = Run(states: seq<State>, steps: seq<Step>) {
    ghost predicate Valid(fold: Casing) {
      && |states| == |steps| + 1
      && Init(states[0])
      && forall i :: 0 <= i < |steps| ==> Follows(fold, i)
    }

    ghost predicate Follows(fold: Casing, i: nat)
      requires i < |steps| && |states| == |steps| + 1
    {
      Enabled(states[i], steps[i]) && states[i + 1] == Apply(fold, states[i], steps[i])
    }
  }

  // ---------------------------------------------------------------- the invariant

  /** Some session that has swapped `c` out has not closed it yet. */
  ghost predicate AwaitsClose(s: State, c: Conn) {
    exists r :: s.Replaces(r, c)
  }

  /** Each entry is a registered session filed under its domain. */
  ghost predicate EntriesRegistered(s: State) {
    forall d, c :: s.Holds(d, c) ==> s.At(c).Registered() && s.At(c).domain == d
  }

  /** Whoever has a name owns it durably. */
  ghost predicate NamesOwned(s: State) {
    forall c :: s.At(c).Named() ==> s.At(c).domain in s.owners && s.owners[s.At(c).domain] == s.At(c).hash
  }

  /** A registered session that is not the entry is closed, or awaits its close by the session that replaced it. */
  ghost predicate SupersededClosing(s: State) {
    forall c :: s.At(c).Registered() && !s.Current(c) ==> c !in s.open || AwaitsClose(s, c)
  }

  /** What a replacing session will close has been registered and is not an entry any more. */
  ghost predicate PreviousSuperseded(s: State) {
    forall r, c :: s.Replaces(r, c) ==> s.Superseded(c)
  }

  /** No two sessions are responsible for closing the same one. */
  ghost predicate OneCloser(s: State) {
    forall r, e, c :: s.Replaces(r, c) && s.Replaces(e, c) ==> r == e
  }

  ghost predicate OwnedAreNames(s: State) {
    forall d :: d in s.owners ==> IsName(d)
  }

  ghost predicate Inv(s: State) {
    && EntriesRegistered(s) && NamesOwned(s) && SupersededClosing(s) && PreviousSuperseded(s) && OneCloser(s)
    && OwnedAreNames(s) && UniqueHashes(s.tokens) && s.open <= s.threads.Keys
  }

  // ---------------------------------------------------------------- what one step can change

  ghost predicate Extends(before: Owners, after: Owners) {
    forall d :: d in before ==> d in after && after[d] == before[d]
  }

  /** Ownership is permanent: no step removes a reservation or changes its owner. */
  lemma OwnersKept(fold: Casing, s: State, step: Step)
    requires Enabled(s, step)
    ensures Extends(s.owners, Apply(fold, s, step).owners)
  {
  }

  /** A step that is not a swap, an exit, the close of a replaced session or a restart leaves the registry alone
      and moves goroutines only within "not registered yet", "registered" and "left the registry". */
  ghost predicate Quiet(s: State, n: State) {
    && n.sessions == s.sessions
    && s.threads.Keys <= n.threads.Keys
    && n.open <= s.open + (n.threads.Keys - s.threads.Keys)
    && (forall c :: SamePlace(s.At(c), n.At(c)) || (c !in s.threads && n.At(c).Handshaking?))
  }

  ghost predicate SamePlace(p: Phase, q: Phase) {
    || q == p
    || (p.Serving? && q == Leaving(p.hash, p.domain))
    || (p.BeforeRegister() && (q.BeforeRegister() || q.Finished?))
    || (p.Unregistered? && q.Finished?)
  }

  lemma QuietStep(fold: Casing, s: State, step: Step)
    requires Inv(s) && Enabled(s, step) && !step.Restart?
    requires step.Tunnel? ==> !step.move.Register? && !step.move.ClosePrevious? && !step.move.Unregister?
    ensures Quiet(s, Apply(fold, s, step))
  {
  }

  lemma GrantOwns(owners: Owners, name: string, hash: string)
    requires IsName(name) && forall d :: d in owners ==> IsName(d)
    ensures var g := Granted(owners, name, hash);
            g.Some? ==> name in g.value && g.value[name] == hash && forall d :: d in g.value ==> IsName(d)
  {
  }

  /** A name obtained in a move is owned by the mover's token, and it is a name. */
  lemma MoveNames(fold: Casing, s: State, c: Conn, move: Move)
    requires NamesOwned(s) && OwnedAreNames(s) && CanMove(s, c, move)
    ensures OwnedAreNames(s.(owners := NextOwners(fold, s, c, move)))
    ensures var p, owners := NextPhase(fold, s, c, move), NextOwners(fold, s, c, move);
            p.Named() ==> p.domain in owners && owners[p.domain] == p.hash
  {
    if move.ReserveRequested? {
      NormalizeAccepts(fold, s.At(c).request);
      var wanted := Normalize(fold, s.At(c).request);
      if wanted.Ok? {
        GrantOwns(s.owners, wanted.value, s.At(c).hash);
      }
    } else if move.ReserveDrawn? {
      DrawnIsName(move.name);
      GrantOwns(s.owners, move.name, s.At(c).hash);
    } else {
      assert s.At(c).Named() ==> s.At(c).domain in s.owners && s.owners[s.At(c).domain] == s.At(c).hash;
    }
  }

  lemma NamesStep(fold: Casing, s: State, step: Step)
    requires Inv(s) && Enabled(s, step)
    ensures NamesOwned(Apply(fold, s, step)) && OwnedAreNames(Apply(fold, s, step))
  {
    var n := Apply(fold, s, step);
    OwnersKept(fold, s, step);
    if step.Tunnel? {
      MoveNames(fold, s, step.c, step.move);
    }
    forall c | n.At(c).Named()
      ensures n.At(c).domain in n.owners && n.owners[n.At(c).domain] == n.At(c).hash
    {
      if step.Tunnel? && step.c == c {
      } else {
        assert n.At(c) == s.At(c);
      }
    }
  }

  lemma QuietKeepsRegistry(s: State, n: State)
    requires Inv(s) && Quiet(s, n)
    ensures EntriesRegistered(n) && PreviousSuperseded(n) && OneCloser(n) && SupersededClosing(n)
  {
    forall c
      ensures s.Current(c) <==> n.Current(c)
      ensures s.Superseded(c) ==> n.Superseded(c)
    {
    }
    forall d, c | n.Holds(d, c)
      ensures n.At(c).Registered() && n.At(c).domain == d
    {
      assert s.Holds(d, c);
    }
    forall r, c | n.Replaces(r, c)
      ensures s.Replaces(r, c)
    {
    }
    forall c | n.At(c).Registered() && !n.Current(c)
      ensures c !in n.open || AwaitsClose(n, c)
    {
      if r :| s.Replaces(r, c) {
        assert n.Replaces(r, c);
      }
    }
  }

  lemma RegisterKeepsRegistry(fold: Casing, s: State, c: Conn)
    requires Inv(s) && Enabled(s, Tunnel(c, Register))
    ensures var n := Apply(fold, s, Tunnel(c, Register));
            EntriesRegistered(n) && PreviousSuperseded(n) && OneCloser(n) && SupersededClosing(n)
  {
    var n := Apply(fold, s, Tunnel(c, Register));
    var domain := s.At(c).domain;
    assert n.Holds(domain, c);
    forall d, e | n.Holds(d, e)
      ensures n.At(e).Registered() && n.At(e).domain == d
    {
      assert d != domain ==> s.Holds(d, e);
    }
    forall e
      ensures s.Superseded(e) ==> n.Superseded(e)
      ensures s.Current(e) && e != c ==> n.Current(e) || n.Replaces(c, e)
    {
    }
    forall r, e | n.Replaces(r, e)
      ensures n.Superseded(e) && (r != c ==> s.Replaces(r, e)) && (r == c ==> s.Current(e))
    {
      if r == c {
        assert s.Holds(domain, e);
      } else {
        assert s.Replaces(r, e);
      }
    }
    forall e | n.At(e).Registered() && !n.Current(e)
      ensures e !in n.open || AwaitsClose(n, e)
    {
      if r :| s.Replaces(r, e) {
        assert n.Replaces(r, e);
      }
    }
  }

  lemma UnregisterKeepsRegistry(fold: Casing, s: State, c: Conn)
    requires Inv(s) && Enabled(s, Tunnel(c, Unregister))
    ensures var n := Apply(fold, s, Tunnel(c, Unregister));
            EntriesRegistered(n) && PreviousSuperseded(n) && OneCloser(n) && SupersededClosing(n)
  {
    var n := Apply(fold, s, Tunnel(c, Unregister));
    forall d, e | n.Holds(d, e)
      ensures n.At(e).Registered() && n.At(e).domain == d
    {
      assert s.Holds(d, e);
    }
    forall e
      ensures s.Superseded(e) ==> n.Superseded(e)
      ensures n.Current(e) <==> s.Current(e) && e != c
    {
    }
    forall r, e | n.Replaces(r, e)
      ensures s.Replaces(r, e)
    {
    }
    forall e | n.At(e).Registered() && !n.Current(e)
      ensures e !in n.open || AwaitsClose(n, e)
    {
      if r :| s.Replaces(r, e) {
        assert n.Replaces(r, e);
      }
    }
  }

  lemma ClosePreviousKeepsRegistry(fold: Casing, s: State, c: Conn)
    requires Inv(s) && Enabled(s, Tunnel(c, ClosePrevious))
    ensures var n := Apply(fold, s, Tunnel(c, ClosePrevious));
            EntriesRegistered(n) && PreviousSuperseded(n) && OneCloser(n) && SupersededClosing(n)
  {
    var n := Apply(fold, s, Tunnel(c, ClosePrevious));
    forall d, e | n.Holds(d, e)
      ensures n.At(e).Registered() && n.At(e).domain == d
    {
      assert s.Holds(d, e);
    }
    forall e
      ensures s.Superseded(e) ==> n.Superseded(e)
      ensures n.Current(e) <==> s.Current(e)
    {
    }
    forall r, e | n.Replaces(r, e)
      ensures s.Replaces(r, e)
    {
    }
    forall e | n.At(e).Registered() && !n.Current(e)
      ensures e !in n.open || AwaitsClose(n, e)
    {
      if r :| s.Replaces(r, e) {
        assert r == c || n.Replaces(r, e);
      }
    }
  }

  lemma InvStep(fold: Casing, s: State, step: Step)
    requires Inv(s) && Enabled(s, step)
    ensures Inv(Apply(fold, s, step))
  {
    var n := Apply(fold, s, step);
    NamesStep(fold, s, step);
    if step.Tunnel? && step.move.Register? {
      RegisterKeepsRegistry(fold, s, step.c);
    } else if step.Tunnel? && step.move.Unregister? {
      UnregisterKeepsRegistry(fold, s, step.c);
    } else if step.Tunnel? && step.move.ClosePrevious? {
      ClosePreviousKeepsRegistry(fold, s, step.c);
    } else if step.Restart? {
      assert forall c :: n.At(c) == Finished;
    } else {
      QuietStep(fold, s, step);
      QuietKeepsRegistry(s, n);
    }
  }
}
