/** Certificate events and the reported state: onEvent and the state choice of Status in internal/tlsutil/tls.go.
    Times are in nanoseconds. */
module Certificates {
  datatype Event = Obtaining | Obtained | Failed(error: string) | Revoked | Cached | Unknown

  datatype Status = Valid | RenewalDue | Expired | InError | Renewing | RevokedNow

  const DAY := 24 * 3600 * 1_000_000_000

  /** What one event leaves as the stored error. */
  function ErrorAfter(error: string, event: Event): string {
    match event case Failed(e) => e case Obtained => "" case Cached => "" case _ => error
  }

  function ErrorOf(events: seq<Event>): string {
    if events == [] then "" else ErrorAfter(ErrorOf(events[..|events| - 1]), events[|events| - 1])
  }

  predicate Recovers(event: Event) { event.Obtained? || event.Cached? }

  /** Failure `i` is the latest, and nothing has recovered from it. */
  predicate Stands(events: seq<Event>, i: int) {
    0 <= i < |events| && events[i].Failed? && forall j :: i < j < |events| ==>
        !events[j].Failed? && !Recovers(events[j])
  }

  /** The stored error is that of the latest failure with no later obtained or cached event, and empty if there is
      none. */
  lemma {:induction false} ErrorMeaning(events: seq<Event>)
    ensures forall i :: Stands(events, i) ==> ErrorOf(events) == events[i].error
    ensures (forall i :: !Stands(events, i)) ==> ErrorOf(events) == ""
  {
    if events != [] {
      var n := |events| - 1;
      var front := events[..n];
      ErrorMeaning(front);
      if events[n].Failed? {
        assert Stands(events, n);
        assert forall i :: Stands(events, i) ==> i == n;
      } else if !Recovers(events[n]) {
        forall i
          ensures Stands(front, i) <==> Stands(events, i)
          ensures Stands(front, i) ==> front[i] == events[i]
        {
        }
      } else {
        assert forall i :: !Stands(events, i);
      }
    }
  }

  /** Integer division as Go does it, towards zero. */
  function Third(n: int): int {
    if n >= 0 then n / 3 else -((-n) / 3)
  }

  function RenewalStart(notBefore: int, notAfter: int): int {
    notAfter - Third(notAfter - notBefore)
  }

  class Source {
    var lastEvent: Event
    var lastEventAt: int
    var lastError: string
    ghost var events: seq<Event>

    constructor ()
      ensures Consistent() && events == [] && lastEvent == Unknown
    {
      lastEvent, lastEventAt, lastError, events := Unknown, 0, "", [];
    }

    /** Unknown stands for no event so far; unknown events are dropped. */
    ghost predicate Consistent()
      reads this
    {
      lastError == ErrorOf(events) && lastEvent == if events == [] then Unknown else events[|events| - 1]
    }

    method OnEvent(event: Event, now: int)
      requires Consistent()
      modifies this
      ensures Consistent()
      ensures events == if event.Unknown? then old(events) else old(events) + [event]
      ensures lastEventAt == if event.Unknown? then old(lastEventAt) else now
    {
      if event.Unknown? {
        return;
      }
      lastEvent, lastEventAt := event, now;
      if event.Failed? {
        lastError := event.error;
      } else if event.Obtained? || event.Cached? {
        lastError := "";
      }
      events := events + [event];
      assert events[..|events| - 1] == old(events);
    }
  }

  /** The state that Status reports. */
  function StateAt(lastEvent: Event, lastEventAt: int, notBefore: int, notAfter: int, now: int): Status {
    if lastEvent.Revoked? then RevokedNow
    else if lastEvent.Obtaining? then Renewing
    else if lastEvent.Failed? && now - lastEventAt < DAY then InError
    else if now >= notAfter then Expired
    else if now >= RenewalStart(notBefore, notAfter) then RenewalDue
    else Valid
  }

  function Age(s: Status): int {
    match s case Valid => 0 case RenewalDue => 1 case Expired => 2 case _ => 3
  }

  /** The renewal window lies within the validity, and with no event that speaks against the certificate
      the state only moves from valid over due to expired. */
  lemma StateOnlyAges(event: Event, eventAt: int, notBefore: int, notAfter: int, now: int, later: int)
    requires notBefore <= notAfter && now <= later && (event.Unknown? || Recovers(event))
    ensures notBefore <= RenewalStart(notBefore, notAfter) <= notAfter
    ensures var early := StateAt(event, eventAt, notBefore, notAfter, now);
            var late := StateAt(event, eventAt, notBefore, notAfter, later);
            Age(early) <= Age(late) <= 2
  {
  }

  /** The renewal window is the last third of the validity. */
  lemma WindowIsLastThird(notBefore: int, notAfter: int)
    requires notBefore <= notAfter
    ensures 3 * (notAfter - RenewalStart(notBefore, notAfter)) <= notAfter - notBefore
    ensures notAfter - notBefore < 3 * (notAfter - RenewalStart(notBefore, notAfter)) + 3
  {
  }

  /** What each last event makes of the state: a revocation and a running attempt show at once, a failure for a day,
      and otherwise the clock decides alone. */
  lemma StateExactly(event: Event, eventAt: int, notBefore: int, notAfter: int, now: int)
    requires notBefore <= notAfter
    ensures var s := StateAt(event, eventAt, notBefore, notAfter, now);
            && (s == RevokedNow <==> event.Revoked?)
            && (s == Renewing <==> event.Obtaining?)
            && (s == InError <==> event.Failed? && now < eventAt + 86_400_000_000_000)
            && (s in {Valid, RenewalDue, Expired} ==>
                  && (s == Expired <==> notAfter <= now)
                  && (s == Valid <==> 3 * (notAfter - now) > notAfter - notBefore - (notAfter - notBefore) % 3))
  {
  }
}
