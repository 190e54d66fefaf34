/** What RevokeToken guarantees when handshakes, replacements, exits, other revocations and restarts interleave
    with its lookup, its DELETE, its registry snapshot and its closes: internal/server/admin.go. */
module Revocation {
  import opened Wrappers
  import opened Text
  import opened Names
  import opened Store
  import opened Lifecycle
  import opened Tunnels

  /** Nothing in steps `from .. to` inserts the hash or makes it a bootstrap token. */
  ghost predicate NotGranted(run: Run, from: nat, to: nat, hash: string) {
    forall m :: from <= m < to && m < |run.steps| ==> !Grants(run.steps[m], hash)
  }

  predicate Grants(step: Step, hash: string) {
    (step.InsertToken? && step.hash == hash) || (step.Restart? && hash in step.bootstrap)
  }

  /** Once a hash is not accepted, only an insertion or a restart that configures it makes it accepted again. */
  lemma {:induction false} AcceptanceStaysOff(fold: Casing, run: Run, from: nat, to: nat, hash: string)
    requires run.Valid(fold) && from <= to < |run.states|
    requires !run.states[from].Accepts(hash) && NotGranted(run, from, to, hash)
    ensures !run.states[to].Accepts(hash)
  {
    if from < to {
      AcceptanceStaysOff(fold, run, from, to - 1, hash);
      assert run.Follows(fold, to - 1) && !Grants(run.steps[to - 1], hash);
    }
  }

  /** From its lookup on, a call's hash is the hash of the row, as long as the row is there and its id is not reused. */
  lemma {:induction false} LookedUpRow(fold: Casing, run: Run, l: nat, i: nat, r: int, id: string)
    requires run.Valid(fold) && l < i < |run.states| && run.steps[l] == Revoking(r, Lookup)
    requires forall m :: l < m < i ==> !(run.steps[m].InsertToken? && run.steps[m].id == id)
    ensures r in run.states[i].revokers && !run.states[i].revokers[r].Started?
    ensures var s := run.states[i];
            s.revokers[r].LookedUp? && s.revokers[r].id == id && id in s.tokens ==> s.tokens[id] == s.revokers[r].hash
  {
    assert run.Follows(fold, i - 1);
    if i > l + 1 {
      LookedUpRow(fold, run, l, i - 1, r, id);
    }
  }

  ghost predicate IsDelete(run: Run, i: nat, r: int)
  {
    && i < |run.steps| && |run.states| == |run.steps| + 1
    && run.steps[i] == Revoking(r, Delete)
    && r in run.states[i].revokers && run.states[i].revokers[r].LookedUp?
    && r in run.states[i + 1].revokers && run.states[i + 1].revokers[r].Deleted?
  }

  /** A successful DELETE takes the looked-up hash out of service, provided the row's id was not reused since the
      lookup. */
  lemma DeleteEndsAcceptance(fold: Casing, run: Run, l: nat, i: nat, r: int)
    requires run.Valid(fold) && l < i && IsDelete(run, i, r)
    requires run.steps[l] == Revoking(r, Lookup)
    requires forall m :: l < m < i ==> !(run.steps[m].InsertToken? && run.steps[m].id == run.states[i].revokers[r].id)
    requires run.states[i].revokers[r].hash !in run.states[i].bootstrap
    ensures !run.states[i + 1].Accepts(run.states[i].revokers[r].hash)
  {
    assert run.Follows(fold, i);
    var id := run.states[i].revokers[r].id;
    LookedUpRow(fold, run, l, i, r, id);
    Reachable(fold, run, i);
    DeleteRemovesHash(run.states[i].tokens, id);
  }

  /** Two successful deletions of one id need an insertion of that id in between:
      of concurrent revocations of one token, at most one succeeds. */
  lemma OneRevocationSucceeds(fold: Casing, run: Run, i: nat, j: nat, r: int, e: int)
    requires run.Valid(fold) && i < j && IsDelete(run, i, r) && IsDelete(run, j, e)
    requires run.states[i].revokers[r].id == run.states[j].revokers[e].id
    ensures exists m :: i < m < j && run.steps[m].InsertToken? && run.steps[m].id == run.states[i].revokers[r].id
  {
    assert run.Follows(fold, i) && run.Follows(fold, j);
    InsertedBetween(fold, run, i + 1, j, run.states[i].revokers[r].id);
  }

  lemma {:induction false} InsertedBetween(fold: Casing, run: Run, from: nat, to: nat, id: string)
    requires run.Valid(fold) && from <= to < |run.states|
    requires id !in run.states[from].tokens && id in run.states[to].tokens
    ensures exists m :: from <= m < to && run.steps[m].InsertToken? && run.steps[m].id == id
  {
    assert run.Follows(fold, to - 1);
    if id in run.states[to - 1].tokens {
      InsertedBetween(fold, run, from, to - 1, id);
    } else {
      assert run.steps[to - 1].InsertToken? && run.steps[to - 1].id == id;
    }
  }

  // ---------------------------------------------------------------- who can still be connected

  /** Without acceptance, a handshake with this hash at `to` was already past authentication at `from`. */
  lemma {:induction false} GapOnlyShrinks(fold: Casing, run: Run, from: nat, to: nat, hash: string, c: Conn)
    requires run.Valid(fold) && from <= to < |run.states|
    requires forall m :: from <= m < to ==> !run.states[m].Accepts(hash)
    requires run.states[to].At(c).Gap(hash)
    ensures run.states[from].At(c).Gap(hash)
  {
    if from < to {
      assert run.Follows(fold, to - 1);
      assert !run.states[to - 1].Accepts(hash);
      GapOnlyShrinks(fold, run, from, to - 1, hash, c);
    }
  }

  /** Call `r`'s snapshot of the registry was taken at step `j`. */
  ghost predicate IsSnapshot(run: Run, j: nat, r: int) {
    && j < |run.steps| && |run.states| == |run.steps| + 1
    && run.steps[j] == Revoking(r, Snapshot)
    && r in run.states[j].revokers && run.states[j].revokers[r].Deleted?
  }

  ghost predicate StillToClose(s: State, r: int, c: Conn) {
    r in s.revokers && s.revokers[r].Closing? && c in s.revokers[r].pending
  }

  /** After the snapshot, an open entry with the revoked hash is either still to be closed by this call,
      or comes from a handshake that was past authentication when the snapshot was taken. */
  lemma {:induction false} EntriesAfterSnapshot(fold: Casing, run: Run, j: nat, k: nat, r: int, c: Conn)
    requires run.Valid(fold) && IsSnapshot(run, j, r) && j < k < |run.states|
    requires var hash := run.states[j].revokers[r].hash;
             && (forall m :: j <= m < k ==> !run.states[m].Accepts(hash))
             && run.states[k].Current(c) && run.states[k].At(c).Active(hash) && c in run.states[k].open
    ensures run.states[j].At(c).Gap(run.states[j].revokers[r].hash) || StillToClose(run.states[k], r, c)
  {
    var hash := run.states[j].revokers[r].hash;
    var i := k - 1;
    var s, n, step := run.states[i], run.states[k], run.steps[i];
    assert run.Follows(fold, i);
    Reachable(fold, run, i);
    if s.At(c).Gap(hash) {
      GapOnlyShrinks(fold, run, j, i, hash, c);
    } else {
      EntryBefore(fold, s, step, c, hash);
      if i == j {
        assert s.Holds(s.At(c).domain, c);
        assert c in Matches(s, hash);
      } else {
        EntriesAfterSnapshot(fold, run, j, i, r, c);
      }
    }
  }

  lemma EntryBefore(fold: Casing, s: State, step: Step, c: Conn, hash: string)
    requires Inv(s) && Enabled(s, step) && !s.At(c).Gap(hash)
    requires var n := Apply(fold, s, step); n.Current(c) && n.At(c).Active(hash) && c in n.open
    ensures s.Current(c) && s.At(c).Active(hash) && c in s.open
  {
    var n := Apply(fold, s, step);
    assert !step.Restart?;
    assert n.Holds(n.At(c).domain, c);
  }

  /** A call that has returned has nothing left to close. */
  lemma {:induction false} ReturnedForGood(fold: Casing, run: Run, k: nat, m: nat, r: int)
    requires run.Valid(fold) && k <= m < |run.states|
    requires r in run.states[k].revokers && run.states[k].revokers[r].Revoked?
    ensures r in run.states[m].revokers
    ensures run.states[m].revokers[r].Revoked? || run.states[m].revokers[r].Interrupted?
  {
    if k < m {
      ReturnedForGood(fold, run, k, m - 1, r);
      assert run.Follows(fold, m - 1);
    }
  }

  /** Revocation. Call `r` deleted the row at step `i`, took its snapshot at step `j` and had returned by state `k`;
      the hash was not accepted from the DELETE to some state `m` at or after the return. Then any connection that is
      registered under the hash and open at `m`
      - was, before the DELETE, past authentication and not yet registered, and still so when the snapshot was taken, or
      - has lost its entry to a newer session that is about to close it. */
  lemma RevocationDisconnects(fold: Casing, run: Run, i: nat, j: nat, k: nat, m: nat, r: int, hash: string, c: Conn)
    requires run.Valid(fold) && IsDelete(run, i, r) && IsSnapshot(run, j, r) && i < j < k <= m < |run.states|
    requires run.states[j].revokers[r].hash == hash
    requires r in run.states[k].revokers && run.states[k].revokers[r].Revoked?
    requires forall x :: i < x < m ==> !run.states[x].Accepts(hash)
    requires run.states[m].At(c).Registered() && run.states[m].At(c).hash == hash && c in run.states[m].open
    ensures || (run.states[i].At(c).Gap(hash) && run.states[j].At(c).Gap(hash))
            || (!run.states[m].Current(c) && AwaitsClose(run.states[m], c))
  {
    Reachable(fold, run, m);
    if run.states[m].Current(c) {
      EntriesAfterSnapshot(fold, run, j, m, r, c);
      ReturnedForGood(fold, run, k, m, r);
      GapOnlyShrinks(fold, run, i + 1, j, hash, c);
      assert run.Follows(fold, i);
    }
  }

  /** With no handshake in that gap, from the return until the hash is granted again no entry with the hash is open,
      and a session with the hash that is still open has been replaced and is about to be closed. */
  lemma RevocationIsFinal(
    fold: Casing, run: Run, i: nat, j: nat, k: nat, m: nat, r: int, hash: string, c: Conn)
    requires run.Valid(fold) && IsDelete(run, i, r) && IsSnapshot(run, j, r) && i < j < k <= m < |run.states|
    requires run.states[j].revokers[r].hash == hash
    requires r in run.states[k].revokers && run.states[k].revokers[r].Revoked?
    requires !run.states[i + 1].Accepts(hash) && NotGranted(run, i + 1, m, hash)
    requires forall c :: !(run.states[i].At(c).Gap(hash) && run.states[j].At(c).Gap(hash))
    requires run.states[m].At(c).Registered() && run.states[m].At(c).hash == hash
    ensures run.states[m].Current(c) ==> c !in run.states[m].open
    ensures c in run.states[m].open ==> AwaitsClose(run.states[m], c)
  {
    forall x | i < x < m
      ensures !run.states[x].Accepts(hash)
    {
      AcceptanceStaysOff(fold, run, i + 1, x, hash);
    }
    if c in run.states[m].open {
      RevocationDisconnects(fold, run, i, j, k, m, r, hash, c);
    }
  }

  // ---------------------------------------------------------------- exactly when a revoked token comes back

  ghost predicate OpenEntry(s: State, hash: string) {
    exists c :: s.Current(c) && s.At(c).hash == hash && c in s.open
  }

  /** An open session in the registry's care: the entry, or one that has been replaced and not closed yet. */
  ghost predicate OpenSession(s: State, hash: string) {
    exists c :: s.At(c).Registered() && s.At(c).hash == hash && c in s.open
  }

  ghost predicate Grantable(s: State, domain: string, hash: string) {
    domain !in s.owners || s.owners[domain] == hash
  }

  /** The reservation this handshake is about to make can succeed. */
  ghost predicate CanReserve(fold: Casing, s: State, p: Phase)
    requires p.Authenticated?
  {
    if p.request == "" then p.attempts < ATTEMPTS && exists name :: CanBeDrawn(name) && Grantable(s, name, p.hash)
    else Normalize(fold, p.request).Ok? && Grantable(s, Normalize(fold, p.request).value, p.hash)
  }

  /** A handshake past authentication that can still end in the registry. */
  predicate HoldingFor(p: Phase, hash: string) { p.Holding? && p.hash == hash }

  ghost predicate Reserving(fold: Casing, s: State, p: Phase, hash: string) {
    p.Authenticated? && p.hash == hash && CanReserve(fold, s, p)
  }

  ghost predicate Coming(fold: Casing, s: State, hash: string) {
    exists c :: c in s.open && (HoldingFor(s.At(c), hash) || Reserving(fold, s, s.At(c), hash))
  }

  /** A replaced session whose replacement has not closed it yet. */
  ghost predicate Lingering(s: State, hash: string) {
    exists r, c :: s.Replaces(r, c) && s.At(c).Registered() && s.At(c).hash == hash && c in s.open
  }

  /** `later` goes on from `run` without granting the hash again. */
  ghost predicate GoesOn(fold: Casing, run: Run, later: Run, hash: string) {
    && run.Valid(fold) && later.Valid(fold) && |run.steps| <= |later.steps|
    && later.states[..|run.states|] == run.states
    && NotGranted(later, |run.steps|, |later.steps|, hash)
  }

  ghost function Last(run: Run): State
    requires run.states != []
  {
    run.states[|run.states| - 1]
  }

  lemma ComingBefore(fold: Casing, s: State, step: Step, hash: string)
    requires Inv(s) && Enabled(s, step) && !s.Accepts(hash) && !Grants(step, hash)
    requires OpenEntry(Apply(fold, s, step), hash) || Coming(fold, Apply(fold, s, step), hash)
    ensures OpenEntry(s, hash) || Coming(fold, s, hash)
  {
    var n := Apply(fold, s, step);
    if c :| n.Current(c) && n.At(c).hash == hash && c in n.open {
      if !s.At(c).Gap(hash) {
        EntryBefore(fold, s, step, c, hash);
      } else {
        assert n.Holds(n.At(c).domain, c);
        assert HoldingFor(s.At(c), hash);
      }
    } else {
      var c :| c in n.open && (HoldingFor(n.At(c), hash) || Reserving(fold, n, n.At(c), hash));
      HandshakeBefore(fold, s, step, c, hash);
    }
  }

  lemma HandshakeBefore(fold: Casing, s: State, step: Step, c: Conn, hash: string)
    requires Inv(s) && Enabled(s, step) && !s.Accepts(hash)
    requires var n := Apply(fold, s, step);
             c in n.open && (HoldingFor(n.At(c), hash) || Reserving(fold, n, n.At(c), hash))
    ensures c in s.open && (HoldingFor(s.At(c), hash) || Reserving(fold, s, s.At(c), hash))
  {
    var n := Apply(fold, s, step);
    OwnersKept(fold, s, step);
    if HoldingFor(n.At(c), hash) && !HoldingFor(s.At(c), hash) {
      assert step.Tunnel? && step.c == c;
      assert step.move.ReserveRequested? || step.move.ReserveDrawn?;
      if step.move.ReserveDrawn? {
        assert CanBeDrawn(step.move.name) && Grantable(s, step.move.name, hash);
      }
    } else if Reserving(fold, n, n.At(c), hash) {
      assert s.At(c).Authenticated? && s.At(c).request == n.At(c).request;
      forall name | Grantable(n, name, hash)
        ensures Grantable(s, name, hash)
      {
      }
    }
  }

  lemma LingeringBefore(fold: Casing, s: State, step: Step, hash: string)
    requires Inv(s) && Enabled(s, step) && Lingering(Apply(fold, s, step), hash)
    ensures OpenEntry(s, hash) || Lingering(s, hash)
  {
    var n := Apply(fold, s, step);
    var r, c :| n.Replaces(r, c) && n.At(c).Registered() && n.At(c).hash == hash && c in n.open;
    if step == Tunnel(r, Register) {
      PreviousWasEntry(fold, s, r, c);
    } else {
      ReplacedBefore(fold, s, step, r, c);
    }
  }

  lemma ReplacedBefore(fold: Casing, s: State, step: Step, r: Conn, c: Conn)
    requires Inv(s) && Enabled(s, step) && step != Tunnel(r, Register)
    requires var n := Apply(fold, s, step); n.Replaces(r, c) && n.At(c).Registered() && c in n.open
    ensures s.Replaces(r, c) && s.At(c).Registered() && s.At(c).hash == Apply(fold, s, step).At(c).hash && c in s.open
  {
    assert s.Replaces(r, c);
    assert s.Superseded(c);
  }

  lemma PreviousWasEntry(fold: Casing, s: State, r: Conn, c: Conn)
    requires Inv(s) && Enabled(s, Tunnel(r, Register))
    requires var n := Apply(fold, s, Tunnel(r, Register)); n.Replaces(r, c) && n.At(c).Registered() && c in n.open
    ensures s.Current(c) && c in s.open && s.At(c) == Apply(fold, s, Tunnel(r, Register)).At(c)
  {
    assert s.Holds(s.At(r).domain, c);
  }

  ghost predicate CanReturn(fold: Casing, s: State, hash: string) {
    OpenEntry(s, hash) || Coming(fold, s, hash)
  }

  /** Whatever a continuation has of the hash comes from what was there at its beginning. */
  lemma {:induction false} NothingNew(fold: Casing, run: Run, later: Run, m: nat, hash: string)
    requires GoesOn(fold, run, later, hash) && |run.steps| <= m < |later.states| && !Last(run).Accepts(hash)
    ensures CanReturn(fold, later.states[m], hash) ==> CanReturn(fold, Last(run), hash)
    ensures Lingering(later.states[m], hash) ==> CanReturn(fold, Last(run), hash) || Lingering(Last(run), hash)
  {
    assert later.states[|run.steps|] == Last(run) by {
      assert later.states[..|run.states|][|run.steps|] == run.states[|run.steps|];
    }
    if m > |run.steps| {
      var s, step := later.states[m - 1], later.steps[m - 1];
      NothingNew(fold, run, later, m - 1, hash);
      AcceptanceStaysOff(fold, later, |run.steps|, m - 1, hash);
      Reachable(fold, later, m - 1);
      assert later.Follows(fold, m - 1) && !Grants(step, hash);
      if CanReturn(fold, later.states[m], hash) {
        ComingBefore(fold, s, step, hash);
      }
      if Lingering(later.states[m], hash) {
        LingeringBefore(fold, s, step, hash);
      }
    }
  }

  /** One more step of a run. */
  ghost function Extend(fold: Casing, run: Run, step: Step): (r: Run)
    requires run.Valid(fold) && Enabled(run.states[|run.steps|], step)
    ensures r.Valid(fold) && r.states[|r.steps|] == Apply(fold, run.states[|run.steps|], step)
    ensures |r.steps| == |run.steps| + 1 && r.steps == run.steps + [step]
    ensures forall i :: 0 <= i < |run.states| ==> r.states[i] == run.states[i]
  {
    var r := Run(run.states + [Apply(fold, run.states[|run.steps|], step)], run.steps + [step]);
    assert forall i :: 0 <= i < |run.steps| ==> run.Follows(fold, i) ==> r.Follows(fold, i);
    r
  }

  lemma Itself(fold: Casing, run: Run, hash: string)
    requires run.Valid(fold)
    ensures GoesOn(fold, run, run, hash)
  {
  }

  lemma OneMore(fold: Casing, run: Run, later: Run, step: Step, hash: string) returns (more: Run)
    requires GoesOn(fold, run, later, hash) && Enabled(Last(later), step) && !Grants(step, hash)
    ensures GoesOn(fold, run, more, hash) && Last(more) == Apply(fold, Last(later), step)
  {
    more := Extend(fold, later, step);
    assert more.states[..|run.states|] == later.states[..|run.states|];
  }

  lemma HoldingArrives(fold: Casing, run: Run, now: Run, hash: string, c: Conn) returns (later: Run)
    requires GoesOn(fold, run, now, hash)
    requires HoldingFor(Last(now).At(c), hash) && c in Last(now).threads && c in Last(now).open
    ensures GoesOn(fold, run, later, hash) && OpenEntry(Last(later), hash)
  {
    later := OneMore(fold, run, now, Tunnel(c, Register), hash);
    assert Last(later).Holds(Last(now).At(c).domain, c);
    assert Last(later).Current(c);
  }

  lemma ReservingHolds(fold: Casing, s: State, c: Conn, hash: string) returns (move: Move)
    requires Reserving(fold, s, s.At(c), hash) && c in s.open && c in s.threads
    ensures Enabled(s, Tunnel(c, move))
    ensures var n := Apply(fold, s, Tunnel(c, move));
            HoldingFor(n.At(c), hash) && c in n.threads && c in n.open
  {
    move := ReserveRequested;
    if s.At(c).request == "" {
      var name :| CanBeDrawn(name) && Grantable(s, name, hash);
      move := ReserveDrawn(name);
    }
  }

  /** An open handshake that can reserve its name, or has, gets into the registry. */
  lemma ComingArrives(fold: Casing, run: Run, hash: string) returns (later: Run)
    requires run.Valid(fold) && Coming(fold, Last(run), hash)
    ensures GoesOn(fold, run, later, hash) && OpenEntry(Last(later), hash)
  {
    later := run;
    Itself(fold, run, hash);
    var s := Last(run);
    var c :| c in s.open && (HoldingFor(s.At(c), hash) || Reserving(fold, s, s.At(c), hash));
    if Reserving(fold, s, s.At(c), hash) {
      var move := ReservingHolds(fold, s, c, hash);
      later := OneMore(fold, run, later, Tunnel(c, move), hash);
    }
    later := HoldingArrives(fold, run, later, hash, c);
  }

  /** The exact condition, in any state that does not accept the hash, so in particular at the return of RevokeToken:
      some continuation that does not grant the hash again has an open entry with it if and only if there is one now
      or an open handshake past authentication holds a name or can still reserve one; and some continuation has an
      open registered session with it if and only if, besides, a replaced session has not been closed yet. */
  lemma RevocationExactly(fold: Casing, run: Run, hash: string)
    requires run.Valid(fold) && !Last(run).Accepts(hash)
    ensures (exists later :: GoesOn(fold, run, later, hash) && OpenEntry(Last(later), hash))
            <==> OpenEntry(Last(run), hash) || Coming(fold, Last(run), hash)
    ensures (exists later :: GoesOn(fold, run, later, hash) && OpenSession(Last(later), hash))
            <==> OpenEntry(Last(run), hash) || Coming(fold, Last(run), hash) || Lingering(Last(run), hash)
  {
    Itself(fold, run, hash);
    if Coming(fold, Last(run), hash) {
      var later := ComingArrives(fold, run, hash);
      assert OpenSession(Last(later), hash);
    }
    assert OpenEntry(Last(run), hash) || Lingering(Last(run), hash) ==> OpenSession(Last(run), hash);
    forall later | GoesOn(fold, run, later, hash)
      ensures OpenEntry(Last(later), hash) ==> CanReturn(fold, Last(run), hash)
      ensures OpenSession(Last(later), hash) ==> CanReturn(fold, Last(run), hash) || Lingering(Last(run), hash)
    {
      var m := |later.states| - 1;
      NothingNew(fold, run, later, m, hash);
      Reachable(fold, later, m);
    }
  }

  // ---------------------------------------------------------------- the exceptions are real

  /** `more` goes on from `run` and no goroutine of a connection moves. */
  ghost predicate Undisturbed(fold: Casing, run: Run, more: Run) {
    && run.Valid(fold) && more.Valid(fold) && |run.states| <= |more.states|
    && more.states[..|run.states|] == run.states
    && forall i :: |run.states| <= i < |more.states| ==> more.states[i].threads == Last(run).threads
  }

  lemma CallStep(fold: Casing, run: Run, so: Run, step: Step) returns (more: Run)
    requires Undisturbed(fold, run, so) && Enabled(Last(so), step) && (step.Revoke? || step.Revoking?)
    ensures Undisturbed(fold, run, more) && Last(more) == Apply(fold, Last(so), step)
  {
    more := Extend(fold, so, step);
    assert more.states[..|run.states|] == so.states[..|run.states|];
    assert Last(so).threads == Last(run).threads;
  }

  lemma Member<T>(items: set<T>) returns (x: T)
    requires items != {}
    ensures x in items
  {
    x :| x in items;
  }

  lemma {:induction false} ClosesRun(fold: Casing, run: Run, so: Run, r: int) returns (more: Run)
    requires Undisturbed(fold, run, so) && r in Last(so).revokers && Last(so).revokers[r].Closing?
    ensures Undisturbed(fold, run, more)
    ensures var s, p := Last(so), Last(so).revokers[r];
            Last(more) == s.(open := s.open - p.pending, revokers := s.revokers[r := p.(pending := {})])
    decreases Last(so).revokers[r].pending
  {
    more := so;
    var s, p := Last(so), Last(so).revokers[r];
    if p.pending == {} {
      assert s.open - p.pending == s.open && s.revokers[r := p] == s.revokers;
    } else {
      var c := Member(p.pending);
      more := CallStep(fold, run, so, Revoking(r, Close(c)));
      more := ClosesRun(fold, run, more, r);
      assert s.open - {c} - (p.pending - {c}) == s.open - p.pending;
      assert s.revokers[r := p.(pending := p.pending - {c})][r := p.(pending := {})]
          == s.revokers[r := p.(pending := {})];
    }
  }

  lemma SnapshotRun(fold: Casing, run: Run, r: int, id: string) returns (more: Run)
    requires run.Valid(fold) && r !in Last(run).revokers && id in Last(run).tokens
    ensures Undisturbed(fold, run, more)
    ensures var s := Last(run);
            var now := Closing(id, s.tokens[id], Matches(s, s.tokens[id]));
            Last(more) == s.(tokens := s.tokens - {id}, revokers := s.revokers[r := now])
  {
    var hash := Last(run).tokens[id];
    more := CallStep(fold, run, run, Revoke(r, id));
    more := CallStep(fold, run, more, Revoking(r, Lookup));
    more := CallStep(fold, run, more, Revoking(r, Delete));
    assert Matches(Last(more), hash) == Matches(Last(run), hash);
    more := CallStep(fold, run, more, Revoking(r, Snapshot));
  }

  /** RevokeToken from start to end while nothing else moves: the row goes and the entries of its hash are closed. */
  lemma RevokeRuns(fold: Casing, run: Run, r: int, id: string) returns (more: Run)
    requires run.Valid(fold) && r !in Last(run).revokers && id in Last(run).tokens
    ensures Undisturbed(fold, run, more)
    ensures var s := Last(run);
            Last(more) == s.(tokens := s.tokens - {id}, open := s.open - Matches(s, s.tokens[id]),
                             revokers := s.revokers[r := Revoked(id, s.tokens[id])])
  {
    more := SnapshotRun(fold, run, r, id);
    more := ClosesRun(fold, run, more, r);
    more := CallStep(fold, run, more, Revoking(r, Return));
  }

  ghost function Start(): State {
    State({}, map[], map[], map[], map[], {}, map[])
  }

  /** A token is created and a client authenticates with it. */
  lemma AuthenticatedRun(fold: Casing) returns (run: Run)
    ensures run.Valid(fold)
    ensures Last(run) == Start().(tokens := map["id" := "hash"], open := {1},
                                  threads := map[1 := Authenticated("hash", "name", 0)])
  {
    run := Run([Start()], []);
    run := Extend(fold, run, InsertToken("id", "hash"));
    assert run.states[|run.steps|].tokens["id"] == "hash";
    run := Extend(fold, run, Accept(1));
    run := Extend(fold, run, Tunnel(1, Authenticate("hash", "name")));
  }

  lemma HoldingRun(fold: Casing, run: Run, c: Conn, hash: string, name: string) returns (more: Run)
    requires run.Valid(fold) && c in Last(run).threads && Last(run).At(c) == Authenticated(hash, name, 0)
    requires IsName(name) && Grantable(Last(run), name, hash)
    ensures more.Valid(fold)
    ensures var s := Last(run);
            Last(more) == s.(owners := s.owners[name := hash], threads := s.threads[c := Holding(hash, name)])
  {
    NormalizeFixesNames(fold, name);
    more := Extend(fold, run, Tunnel(c, ReserveRequested));
  }

  /** A handshake goes on to the registry. */
  lemma RegisteredRun(fold: Casing, run: Run, c: Conn, hash: string, name: string) returns (more: Run)
    requires run.Valid(fold) && c in Last(run).threads && Last(run).At(c) == Authenticated(hash, name, 0)
    requires IsName(name) && Grantable(Last(run), name, hash)
    ensures more.Valid(fold)
    ensures var s := Last(run);
            var previous := if name in s.sessions then Some(s.sessions[name]) else None;
            Last(more) == s.(owners := s.owners[name := hash], sessions := s.sessions[name := c],
                             threads := s.threads[c := Replacing(hash, name, previous)])
  {
    more := HoldingRun(fold, run, c, hash, name);
    more := Extend(fold, more, Tunnel(c, Register));
  }

  lemma NameIsName()
    ensures IsName("name")
  {
    assert AllLabelChars("name");
  }

  /** A handshake that authenticates just before the DELETE and registers just after the snapshot is an open entry
      under a revoked token once RevokeToken has returned. */
  lemma RevocationCanMiss(fold: Casing) returns (run: Run)
    ensures run.Valid(fold)
    ensures var s := Last(run);
            0 in s.revokers && s.revokers[0] == Revoked("id", "hash") && !s.Accepts("hash")
            && s.Holds("name", 1) && s.At(1).Active("hash") && 1 in s.open
  {
    run := AuthenticatedRun(fold);
    run := RevokeRuns(fold, run, 0, "id");
    NameIsName();
    run := RegisteredRun(fold, run, 1, "hash", "name");
  }

  /** Two sessions with one token, the second of which has taken the place of the first and not closed it yet. */
  lemma ReplacedRun(fold: Casing) returns (run: Run)
    ensures run.Valid(fold)
    ensures var s := Last(run);
            && s.bootstrap == {} && s.tokens == map["id" := "hash"] && s.revokers == map[]
            && s.sessions == map["name" := 2] && s.open == {1, 2}
            && s.threads == map[1 := Serving("hash", "name"), 2 := Replacing("hash", "name", Some(1))]
  {
    run := AuthenticatedRun(fold);
    NameIsName();
    run := RegisteredRun(fold, run, 1, "hash", "name");
    run := Extend(fold, run, Tunnel(1, ClosePrevious));
    assert Last(run).tokens["id"] == "hash";
    run := SecondRun(fold, run);
    run := RegisteredRun(fold, run, 2, "hash", "name");
  }

  lemma SecondRun(fold: Casing, run: Run) returns (more: Run)
    requires run.Valid(fold) && 2 !in Last(run).threads && "hash" in Last(run).tokens.Values
    ensures more.Valid(fold)
    ensures var s := Last(run);
            Last(more) == s.(open := s.open + {2}, threads := s.threads[2 := Authenticated("hash", "name", 0)])
  {
    more := Extend(fold, run, Accept(2));
    more := Extend(fold, more, Tunnel(2, Authenticate("hash", "name")));
  }

  /** With no handshake in the gap from before the call to its end, a session that has just been replaced is open and
      registered under a revoked token once RevokeToken has returned. */
  lemma RevocationCanLeaveReplaced(fold: Casing) returns (before: Run, run: Run)
    ensures Undisturbed(fold, before, run) && Last(before).revokers == map[]
    ensures forall c :: !Last(before).At(c).Gap("hash")
    ensures var s := Last(run);
            0 in s.revokers && s.revokers[0] == Revoked("id", "hash") && !s.Accepts("hash")
            && s.At(1) == Serving("hash", "name") && 1 in s.open && !s.Current(1) && s.Replaces(2, 1)
  {
    before := ReplacedRun(fold);
    assert "name" in Last(before).sessions && Last(before).At(2).Active("hash");
    assert 2 in Matches(Last(before), "hash");
    run := RevokeRuns(fold, before, 0, "id");
  }
}
