/** Browser sessions of the admin panel: authorize, requireAuth, loginSubmit and logout in internal/admin/handler.go.
    Expired sessions are removed only when their cookie is seen again. Times are in nanoseconds. */
module AdminSessions {
  import opened Wrappers

  const LIFETIME := 12 * 3600 * 1_000_000_000

  datatype Session = Session(csrf: string, expiresAt: int)

  datatype Verb = Get | Head | Other

  /** A request as far as authorization reads it. */
  datatype Request = Request(verb: Verb, authorization: string, cookie: Option<string>, csrf: string)

  datatype Grant = Denied | Bearer | Browser(csrf: string)

  datatype LoginError = WrongToken | NoRandom

  datatype Verdict = Unauthenticated | Forbidden | Passed

  // ---------------------------------------------------------------- what happened

  datatype Event = Login(id: string, csrf: string, at: int) | Logout(id: string)

  /** The logins not ended by a logout or a newer login under the same id; time plays no part. */
  function Standing(events: seq<Event>): map<string, (string, int)> {
    if events == [] then map[]
    else
      var last, before := events[|events| - 1], Standing(events[..|events| - 1]);
      if last.Login? then before[last.id := (last.csrf, last.at)] else before - {last.id}
  }

  predicate LastWord(events: seq<Event>, i: int, id: string) {
    0 <= i < |events| && events[i].id == id && forall j :: i < j < |events| ==> events[j].id != id
  }

  /** A login stands if it is the last thing that happened to its id. */
  lemma {:induction false} StandingMeaning(events: seq<Event>, id: string)
    ensures id in Standing(events) <==> exists i :: LastWord(events, i, id) && events[i].Login?
    ensures forall i :: LastWord(events, i, id) && events[i].Login? ==>
              id in Standing(events) && Standing(events)[id] == (events[i].csrf, events[i].at)
  {
    if events != [] {
      var n := |events| - 1;
      var front := events[..n];
      StandingMeaning(front, id);
      if events[n].id == id {
        assert LastWord(events, n, id);
        assert forall i :: LastWord(events, i, id) ==> i == n;
      } else {
        forall i
          ensures LastWord(front, i, id) <==> LastWord(events, i, id)
          ensures LastWord(front, i, id) ==> front[i] == events[i]
        {
        }
      }
    }
  }

  /** A cookie is good at a time: its login was at most twelve hours earlier and has not been logged out since. */
  ghost predicate GoodAt(events: seq<Event>, id: string, now: int) {
    exists i :: LastWord(events, i, id) && events[i].Login? && now <= events[i].at + 43_200_000_000_000
  }

  // ---------------------------------------------------------------- the handler

  const PREFIX := "Bearer "

  ghost predicate Injective(digest: string -> string) {
    forall a, b :: digest(a) == digest(b) ==> a == b
  }

  predicate HasBearer(request: Request) {
    PREFIX <= request.authorization
  }

  class Handler {
    const digest: string -> string
    const adminToken: string
    var sessions: map<string, Session>
    ghost var events: seq<Event>
    ghost var clock: int

    constructor (digest: string -> string, adminToken: string, now: int)
      ensures Valid() && events == [] && clock == now && this.digest == digest && this.adminToken == adminToken
    {
      this.digest, this.adminToken := digest, adminToken;
      sessions, events, clock := map[], [], now;
    }

    predicate ConstantTimeEqual(left: string, right: string) {
      digest(left) == digest(right)
    }

    /** What is stored is a standing login; a standing login that is not stored has expired. */
    ghost predicate Valid()
      reads this
    {
      && (forall id :: id in sessions ==>
           id in Standing(events) && Standing(events)[id] == (sessions[id].csrf, sessions[id].expiresAt - LIFETIME))
      && (forall id :: id in Standing(events) && id !in sessions ==> Standing(events)[id].1 + LIFETIME < clock)
    }

    /** The decision, from the events and the time alone: when expired sessions were removed cannot be told from it. */
    ghost predicate Grants(request: Request, now: int, grant: Grant)
      reads this
    {
      if "Bearer " <= request.authorization then
        grant == if digest(request.authorization[7..]) == digest(adminToken) then Bearer else Denied
      else if request.cookie.Some? && GoodAt(events, request.cookie.value, now) then
        request.cookie.value in Standing(events) && grant == Browser(Standing(events)[request.cookie.value].0)
      else grant == Denied
    }

    method Authorize(request: Request, now: int) returns (grant: Grant)
      requires Valid() && clock <= now
      modifies this
      ensures Valid() && clock == now && events == old(events)
      ensures Grants(request, now, grant)
    {
      clock := now;
      if HasBearer(request) {
        return if ConstantTimeEqual(request.authorization[|PREFIX|..], adminToken) then Bearer else Denied;
      }
      if request.cookie.None? {
        return Denied;
      }
      var id := request.cookie.value;
      StandingMeaning(events, id);
      if id !in sessions || now > sessions[id].expiresAt {
        sessions := sessions - {id};
        return Denied;
      }
      grant := Browser(sessions[id].csrf);
    }

    /** The admin bearer token, or a good cookie and, unless the request only reads, the CSRF value of its login. */
    ghost predicate Admits(request: Request, now: int)
      reads this
    {
      if "Bearer " <= request.authorization then digest(request.authorization[7..]) == digest(adminToken)
      else
        && Recognized(request, now)
        && (request.verb.Other? ==> digest(request.csrf) == digest(Standing(events)[request.cookie.value].0))
    }

    /** The request comes with the cookie of a good login. */
    ghost predicate Recognized(request: Request, now: int)
      reads this
    {
      && request.cookie.Some? && GoodAt(events, request.cookie.value, now)
      && request.cookie.value in Standing(events)
    }

    /** The wrapper around every protected route; the handler behind it runs exactly on Passed. */
    method RequireAuth(request: Request, now: int) returns (verdict: Verdict)
      requires Valid() && clock <= now
      modifies this
      ensures Valid() && clock == now && events == old(events)
      ensures verdict.Passed? <==> Admits(request, now)
      ensures verdict.Forbidden? <==>
                && !("Bearer " <= request.authorization) && Recognized(request, now) && request.verb.Other?
                && digest(request.csrf) != digest(Standing(events)[request.cookie.value].0)
      ensures Injective(digest) && verdict.Passed? ==>
                || request.authorization == "Bearer " + adminToken
                || (Recognized(request, now)
                    && (request.verb.Other? ==> request.csrf == Standing(events)[request.cookie.value].0))
    {
      var grant := Authorize(request, now);
      if grant.Denied? {
        return Unauthenticated;
      }
      if grant.Browser? && !request.verb.Get? && !request.verb.Head? && !ConstantTimeEqual(request.csrf, grant.csrf) {
        return Forbidden;
      }
      verdict := Passed;
    }

    /** `token` is None when the form does not parse; `id` and `csrf` are the random values drawn for the session,
        None when drawing fails. */
    method LoginSubmit(token: Option<string>, id: Option<string>, csrf: Option<string>, now: int)
      returns (r: Result<string, LoginError>)
      requires Valid() && clock <= now
      modifies this
      ensures Valid() && clock == now
      ensures r == Err(WrongToken) <==> token.None? || digest(token.value) != digest(adminToken)
      ensures r.Ok? <==> token.Some? && digest(token.value) == digest(adminToken) && id.Some? && csrf.Some?
      ensures Injective(digest) && r.Ok? ==> token == Some(adminToken)
      ensures r.Ok? ==> r.value == id.value && events == old(events) + [Login(id.value, csrf.value, now)]
      ensures r.Ok? ==> GoodAt(events, r.value, now)
      ensures r.Err? ==> events == old(events) && sessions == old(sessions)
    {
      clock := now;
      if token.None? || !ConstantTimeEqual(token.value, adminToken) {
        return Err(WrongToken);
      }
      if id.None? {
        return Err(NoRandom);
      }
      if csrf.None? {
        return Err(NoRandom);
      }
      sessions := sessions[id.value := Session(csrf.value, now + LIFETIME)];
      events := events + [Login(id.value, csrf.value, now)];
      assert events[..|events| - 1] == old(events);
      assert LastWord(events, |events| - 1, id.value);
      r := Ok(id.value);
    }

    method Logout(cookie: Option<string>)
      requires Valid()
      modifies this
      ensures Valid() && clock == old(clock)
      ensures events == if cookie.Some? then old(events) + [Event.Logout(cookie.value)] else old(events)
      ensures cookie.Some? ==> forall now :: !GoodAt(events, cookie.value, now)
    {
      if cookie.Some? {
        sessions := sessions - {cookie.value};
        events := events + [Event.Logout(cookie.value)];
        assert events[..|events| - 1] == old(events);
        assert LastWord(events, |events| - 1, cookie.value);
      }
    }
  }

  /** A cookie that is not good stays so until the next login under its id, as long as the clock does not go back. */
  lemma NotGoodStaysNotGood(events: seq<Event>, more: seq<Event>, id: string, now: int, later: int)
    requires !GoodAt(events, id, now) && now <= later
    requires forall i :: 0 <= i < |more| ==> !(more[i].Login? && more[i].id == id)
    ensures !GoodAt(events + more, id, later)
  {
    var all := events + more;
    forall i | LastWord(all, i, id) && all[i].Login?
      ensures later > all[i].at + LIFETIME
    {
      if i < |events| {
        assert forall j :: i < j < |events| ==> events[j] == all[j];
        assert LastWord(events, i, id);
        assert all[i] == events[i];
      }
    }
  }
}
