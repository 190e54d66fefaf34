/** What holds in every interleaving of the server's goroutines. */
module Tunnels {
  import opened Wrappers
  import opened Text
  import opened Names
  import opened Store
  import opened Lifecycle

  lemma {:induction false} Reachable(fold: Casing, run: Run, i: nat)
    requires run.Valid(fold) && i < |run.states|
    ensures Inv(run.states[i])
  {
    if i > 0 {
      Reachable(fold, run, i - 1);
      assert run.Follows(fold, i - 1);
      InvStep(fold, run.states[i - 1], run.steps[i - 1]);
    }
  }

  /** The registry in every reachable state: an entry is a registered session of its own domain whose token durably
      owns that domain; a registered session that is not the entry is closed, or exactly one session has taken
      its place and is about to close it. */
  lemma RegistryIsSound(fold: Casing, run: Run, i: nat)
    requires run.Valid(fold) && i < |run.states|
    ensures var s := run.states[i];
            forall d :: d in s.sessions ==>
                          var p := s.At(s.sessions[d]);
                          p.Registered() && p.domain == d && IsName(d) && d in s.owners && s.owners[d] == p.hash
    ensures var s := run.states[i];
            forall c :: s.At(c).Registered() && !s.Current(c) && c in s.open ==>
                          exists r :: s.Replaces(r, c) && forall e :: s.Replaces(e, c) ==> e == r
  {
    Reachable(fold, run, i);
    var s := run.states[i];
    forall d | d in s.sessions
      ensures s.At(s.sessions[d]).Registered() && s.At(s.sessions[d]).domain == d
    {
      assert s.Holds(d, s.sessions[d]);
    }
  }

  /** Once no swap is half done, a domain has at most one open tunnel, and it is the registry entry. */
  lemma OneOpenTunnel(fold: Casing, run: Run, i: nat, c: Conn)
    requires run.Valid(fold) && i < |run.states|
    requires forall r :: !run.states[i].At(r).Replacing?
    requires run.states[i].At(c).Registered() && c in run.states[i].open
    ensures run.states[i].Holds(run.states[i].At(c).domain, c)
  {
    Reachable(fold, run, i);
  }

  /** An entry disappears only by its own session's exit, by a newer session of the same token taking its place
      in the same step, or by a restart. In particular a replaced session's exit never removes the newer entry,
      and no step of a replacement leaves the domain without an entry. */
  lemma EntryChanges(fold: Casing, run: Run, i: nat, domain: string, c: Conn)
    requires run.Valid(fold) && i < |run.steps|
    requires run.states[i].Holds(domain, c) && !run.states[i + 1].Holds(domain, c)
    ensures var s, n, step := run.states[i], run.states[i + 1], run.steps[i];
            || step.Restart?
            || (step == Tunnel(c, Unregister) && domain !in n.sessions)
            || (step.Tunnel? && step.move.Register? && step.c != c && n.Holds(domain, step.c)
                && s.At(c).Registered() && n.At(step.c).Active(s.At(c).hash) && n.Replaces(step.c, c))
  {
    Reachable(fold, run, i);
    assert run.Follows(fold, i);
    var s, step := run.states[i], run.steps[i];
    assert s.At(c).Registered() && s.At(c).domain == domain;
    if step.Tunnel? && step.move.Register? {
      assert s.At(step.c).domain == domain;
    }
  }

  // ---------------------------------------------------------------- connections

  ghost predicate OpenServed(s: State) {
    forall c :: c in s.open ==> c in s.threads && !s.At(c).Finished?
  }

  lemma OpenServedStep(fold: Casing, s: State, step: Step)
    requires Enabled(s, step) && OpenServed(s)
    ensures OpenServed(Apply(fold, s, step))
  {
  }

  /** No goroutine ends without having closed its connection: a connection that is open is still being served. */
  lemma {:induction false} OpenIsServed(fold: Casing, run: Run, i: nat)
    requires run.Valid(fold) && i < |run.states|
    ensures OpenServed(run.states[i])
  {
    if i > 0 {
      OpenIsServed(fold, run, i - 1);
      assert run.Follows(fold, i - 1);
      OpenServedStep(fold, run.states[i - 1], run.steps[i - 1]);
    }
  }

  /** What a call has still to close are sessions with its own hash. */
  ghost predicate PendingOwn(s: State) {
    forall r, c :: r in s.revokers && s.revokers[r].Closing? && c in s.revokers[r].pending ==>
                     c in s.threads && (s.At(c).Finished? || s.At(c).Active(s.revokers[r].hash))
  }

  lemma PendingStep(fold: Casing, s: State, step: Step)
    requires Inv(s) && Enabled(s, step) && PendingOwn(s)
    ensures PendingOwn(Apply(fold, s, step))
  {
    var n := Apply(fold, s, step);
    forall r, c | r in n.revokers && n.revokers[r].Closing? && c in n.revokers[r].pending
      ensures c in n.threads && (n.At(c).Finished? || n.At(c).Active(n.revokers[r].hash))
    {
      assert r in s.revokers;
      if step == Revoking(r, Snapshot) {
        assert c in Matches(s, s.revokers[r].hash);
      } else {
        assert s.revokers[r].Closing? && c in s.revokers[r].pending;
      }
    }
  }

  lemma {:induction false} PendingThroughout(fold: Casing, run: Run, i: nat)
    requires run.Valid(fold) && i < |run.states|
    ensures PendingOwn(run.states[i])
  {
    if i > 0 {
      PendingThroughout(fold, run, i - 1);
      Reachable(fold, run, i - 1);
      assert run.Follows(fold, i - 1);
      PendingStep(fold, run.states[i - 1], run.steps[i - 1]);
    }
  }

  /** The ways an open connection is closed: by its own goroutine at its end, by the transport, by the session that
      has replaced it, by a revocation of its own token, or by a restart. In particular revoking one token never
      closes a session with another. */
  lemma ClosedOnlyBy(fold: Casing, run: Run, i: nat, c: Conn)
    requires run.Valid(fold) && i < |run.steps|
    requires c in run.states[i].open && c !in run.states[i + 1].open
    ensures var s, step := run.states[i], run.steps[i];
            || step == Tunnel(c, Fail) || step == Tunnel(c, CloseOwn) || step == ConnectionLost(c) || step.Restart?
            || (step.Tunnel? && step.move.ClosePrevious? && s.Replaces(step.c, c) && s.Superseded(c))
            || (step.Revoking? && step.call == Close(c) && step.r in s.revokers
                && s.revokers[step.r].Closing? && s.At(c).Active(s.revokers[step.r].hash))
  {
    Reachable(fold, run, i);
    PendingThroughout(fold, run, i);
    OpenIsServed(fold, run, i);
    assert run.Follows(fold, i);
  }

  // ---------------------------------------------------------------- tables

  /** A reservation is made only by a handshake that holds the name afterwards, under its own token. */
  lemma NewReservation(fold: Casing, run: Run, i: nat, domain: string)
    requires run.Valid(fold) && i < |run.steps|
    requires domain !in run.states[i].owners && domain in run.states[i + 1].owners
    ensures var s, n, step := run.states[i], run.states[i + 1], run.steps[i];
            && step.Tunnel? && s.At(step.c).Authenticated?
            && n.At(step.c) == Holding(s.At(step.c).hash, domain) && n.owners[domain] == s.At(step.c).hash
            && n.owners == s.owners[domain := s.At(step.c).hash]
            && (if s.At(step.c).request == "" then CanBeDrawn(domain)
                else Normalize(fold, s.At(step.c).request) == Ok(domain))
  {
    assert run.Follows(fold, i);
  }

  /** A token row appears only when it is created and goes only by the DELETE of a revocation of its id; no row
      ever changes its hash. */
  lemma RowsChange(fold: Casing, run: Run, i: nat, id: string)
    requires run.Valid(fold) && i < |run.steps|
    ensures var s, n, step := run.states[i], run.states[i + 1], run.steps[i];
            && (id !in s.tokens && id in n.tokens ==> step == InsertToken(id, n.tokens[id]))
            && (id in s.tokens && id !in n.tokens ==>
                  step.Revoking? && step.call.Delete? && step.r in n.revokers
                  && n.revokers[step.r].Deleted? && n.revokers[step.r].id == id)
            && (id in s.tokens && id in n.tokens ==> n.tokens[id] == s.tokens[id])
  {
    assert run.Follows(fold, i);
  }

  // ---------------------------------------------------------------- progress

  /** How many more steps a goroutine can take: one per draw, and eight besides. */
  function Left(p: Phase): int {
    match p
    case Handshaking => 41
    case Authenticated(_, _, attempts) => 40 - attempts
    case Refused(_) => 1
    case Holding(_, _) => 6
    case Replacing(_, _, _) => 5
    case Serving(_, _) => 4
    case Leaving(_, _) => 3
    case Unregistered(_, _) => 2
    case Finished => 0
  }

  predicate DrawsBounded(s: State) {
    forall c | c in s.threads :: s.At(c).Authenticated? ==> s.At(c).attempts <= 32
  }

  lemma {:induction false} DrawsAreBounded(fold: Casing, run: Run, i: nat)
    requires run.Valid(fold) && i < |run.states|
    ensures DrawsBounded(run.states[i])
  {
    if i > 0 {
      DrawsAreBounded(fold, run, i - 1);
      assert run.Follows(fold, i - 1);
    }
  }

  /** The steps of one goroutine in a stretch of a run. */
  function Moves(run: Run, from: nat, to: nat, c: Conn): nat
    requires from <= to <= |run.steps|
  {
    if from == to then 0
    else Moves(run, from, to - 1, c) + if run.steps[to - 1].Tunnel? && run.steps[to - 1].c == c then 1 else 0
  }

  lemma MoveDecreases(fold: Casing, s: State, step: Step, c: Conn)
    requires Enabled(s, step) && c in s.threads && DrawsBounded(s)
    ensures var n := Apply(fold, s, step);
            && c in n.threads && 0 <= Left(n.At(c)) <= Left(s.At(c))
            && (step.Tunnel? && step.c == c ==> Left(n.At(c)) < Left(s.At(c)))
  {
  }

  /** A handshake makes at most 32 draws, and no goroutine takes more than 41 steps of its own. */
  lemma {:induction false} GoroutinesEnd(fold: Casing, run: Run, from: nat, to: nat, c: Conn)
    requires run.Valid(fold) && from <= to < |run.states| && c in run.states[from].threads
    ensures c in run.states[to].threads
    ensures Moves(run, from, to, c) + Left(run.states[to].At(c)) <= Left(run.states[from].At(c))
    ensures Moves(run, from, to, c) <= 41
  {
    DrawsAreBounded(fold, run, to);
    if from < to {
      GoroutinesEnd(fold, run, from, to - 1, c);
      DrawsAreBounded(fold, run, to - 1);
      assert run.Follows(fold, to - 1);
      MoveDecreases(fold, run.states[to - 1], run.steps[to - 1], c);
    }
  }

  lemma SupersededStep(fold: Casing, s: State, step: Step, c: Conn)
    requires Inv(s) && Enabled(s, step) && s.Superseded(c)
    ensures Apply(fold, s, step).Superseded(c)
  {
    var n := Apply(fold, s, step);
    if step.Restart? {
      assert n.At(c) == Finished;
    } else if n.Current(c) {
      assert s.Current(c);
    }
  }

  /** A session that has lost its entry never gets it back. */
  lemma {:induction false} SupersededForever(fold: Casing, run: Run, i: nat, j: nat, c: Conn)
    requires run.Valid(fold) && i <= j < |run.states|
    requires run.states[i].Superseded(c)
    ensures run.states[j].Superseded(c)
  {
    if i < j {
      SupersededForever(fold, run, i, j - 1, c);
      Reachable(fold, run, j - 1);
      assert run.Follows(fold, j - 1);
      SupersededStep(fold, run.states[j - 1], run.steps[j - 1], c);
    }
  }

  /** A reservation outlives everything: it is never removed and never changes owner, restarts included. */
  lemma {:induction false} OwnershipIsPermanent(fold: Casing, run: Run, i: nat, j: nat)
    requires run.Valid(fold) && i <= j < |run.states|
    ensures Extends(run.states[i].owners, run.states[j].owners)
  {
    if i < j {
      OwnershipIsPermanent(fold, run, i, j - 1);
      assert run.Follows(fold, j - 1);
      OwnersKept(fold, run.states[j - 1], run.steps[j - 1]);
    }
  }

  /** All sessions that ever carry a domain, at any two moments of a run, carry the same token. */
  lemma OneTokenPerDomain(fold: Casing, run: Run, i: nat, j: nat, c: Conn, e: Conn)
    requires run.Valid(fold) && i <= j < |run.states|
    requires run.states[i].At(c).Named() && run.states[j].At(e).Named()
    requires run.states[i].At(c).domain == run.states[j].At(e).domain
    ensures run.states[i].At(c).hash == run.states[j].At(e).hash
  {
    Reachable(fold, run, i);
    Reachable(fold, run, j);
    OwnershipIsPermanent(fold, run, i, j);
  }

  /** The connection is on its way to, or has, exactly this name for this token; or it is over. */
  predicate Headed(p: Phase, hash: string, domain: string) {
    || (p.Authenticated? && p.hash == hash && p.request == domain)
    || (p.Named() && p.hash == hash && p.domain == domain)
    || p.Finished?
  }

  lemma HeadedStep(fold: Casing, s: State, step: Step, c: Conn, hash: string, domain: string)
    requires Inv(s) && Enabled(s, step)
    requires domain in s.owners && s.owners[domain] == hash && c in s.threads && Headed(s.At(c), hash, domain)
    ensures c in Apply(fold, s, step).threads && Headed(Apply(fold, s, step).At(c), hash, domain)
  {
    assert IsName(domain);
    NormalizeFixesNames(fold, domain);
    if step.Restart? {
      assert Apply(fold, s, step).At(c) == Finished;
    }
  }

  /** The goroutine of `c` ends: an error return, the end of a session it served, or a restart. */
  predicate Ends(step: Step, c: Conn) {
    step == Tunnel(c, Fail) || step == Tunnel(c, CloseOwn) || step.Restart?
  }

  /** Name stability on the server, over any interleaving with other connections, revocations and restarts: a token
      that owns a name and asks for it again is given no other name and is not refused it as taken or invalid. The
      connection is over only after a restart, the end of its own session, or an error return before its
      reservation: an unsupported mode, or a database error. */
  lemma {:induction false} OwnedNameIsGranted(
    fold: Casing, run: Run, i: nat, j: nat, k: nat, c: Conn, hash: string, domain: string)
    requires run.Valid(fold) && i <= j <= k < |run.states|
    requires domain in run.states[i].owners && run.states[i].owners[domain] == hash
    requires var p := run.states[j].At(c); p.Authenticated? && p.hash == hash && p.request == domain
    ensures Headed(run.states[k].At(c), hash, domain) && c in run.states[k].threads
    ensures run.states[k].At(c).Finished? ==> exists x :: j <= x < k && Ends(run.steps[x], c)
  {
    if j < k {
      OwnedNameIsGranted(fold, run, i, j, k - 1, c, hash, domain);
      Reachable(fold, run, k - 1);
      OwnershipIsPermanent(fold, run, i, k - 1);
      assert run.Follows(fold, k - 1);
      HeadedStep(fold, run.states[k - 1], run.steps[k - 1], c, hash, domain);
      if run.states[k].At(c).Finished? && !run.states[k - 1].At(c).Finished? {
        assert Ends(run.steps[k - 1], c);
      }
    }
  }

  /** The positive half: as long as such a connection has not reserved yet, its reservation can be made at once,
      and making it gives exactly that name. */
  lemma OwnedNameReserves(fold: Casing, s: State, c: Conn, hash: string, domain: string)
    requires Inv(s) && domain in s.owners && s.owners[domain] == hash && c in s.threads
    requires s.At(c).Authenticated? && s.At(c).hash == hash && s.At(c).request == domain
    ensures Enabled(s, Tunnel(c, ReserveRequested))
    ensures Apply(fold, s, Tunnel(c, ReserveRequested)).At(c) == Holding(hash, domain)
  {
    NormalizeFixesNames(fold, domain);
  }
}
