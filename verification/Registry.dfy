/** The in-memory table of live tunnels: internal/server/registry.go. */
module Registry {
  import opened Wrappers

  /** The table after the session `value` leaves: only its own entry goes, never a newer one. */
  function Without<S(==)>(sessions: map<string, S>, domain: string, value: S): map<string, S> {
    if domain in sessions && sessions[domain] == value then sessions - {domain} else sessions
  }

  /** A QUIC connection, as far as closing it matters. The first close decides the code. */
  class Connection {
    var closedWith: Option<int>

    constructor ()
      ensures Open()
    {
      closedWith := None;
    }

    predicate Open()
      reads this
    {
      closedWith.None?
    }

    method CloseWithError(code: int)
      modifies this
      ensures closedWith == if old(Open()) then Some(code) else old(closedWith)
    {
      if closedWith.None? {
        closedWith := Some(code);
      }
    }
  }

  class Session {
    const domain: string
    const tokenHash: string
    const conn: Connection

    constructor (domain: string, tokenHash: string, conn: Connection)
      ensures this.domain == domain && this.tokenHash == tokenHash && this.conn == conn
    {
      this.domain, this.tokenHash, this.conn := domain, tokenHash, conn;
    }
  }

  class Registry {
    var sessions: map<string, Session>

    constructor ()
      ensures Valid() && sessions == map[]
    {
      sessions := map[];
    }

    /** An entry is filed under its own domain, and no two entries share a connection. */
    ghost predicate Valid()
      reads this
    {
      && (forall d :: d in sessions ==> sessions[d].domain == d)
      && (forall d, e :: d in sessions && e in sessions && sessions[d].conn == sessions[e].conn ==> d == e)
    }

    ghost function Conns(): set<Connection>
      reads this
    {
      set d | d in sessions :: sessions[d].conn
    }

    ghost function Holders(tokenHash: string): set<string>
      reads this
    {
      set d | d in sessions && sessions[d].tokenHash == tokenHash
    }

    /** Swap under the lock, then close the session that was replaced. */
    method Register(value: Session)
      requires Valid() && value.conn !in Conns()
      modifies this, if value.domain in sessions then {sessions[value.domain].conn} else {}
      ensures Valid() && sessions == old(sessions)[value.domain := value]
      ensures value.domain in old(sessions) ==>
        var previous := old(sessions)[value.domain].conn;
        !previous.Open() && (old(previous.Open()) ==> previous.closedWith == Some(2))
      ensures value.conn.closedWith == old(value.conn.closedWith)
    {
      var previous: Session? := if value.domain in sessions then sessions[value.domain] else null;
      assert previous != null ==> previous.conn in Conns();
      sessions := sessions[value.domain := value];
      if previous != null && previous != value {
        previous.conn.CloseWithError(2);
      }
    }

    method Unregister(value: Session)
      requires Valid()
      modifies this
      ensures Valid() && sessions == Without(old(sessions), value.domain, value)
    {
      if value.domain in sessions && sessions[value.domain] == value {
        sessions := sessions - {value.domain};
      }
    }

    /** The session a request for `domain` is sent to. */
    method Lookup(domain: string) returns (value: Session?)
      ensures value == if domain in sessions then sessions[domain] else null
    {
      value := if domain in sessions then sessions[domain] else null;
    }

    /** Closes every entry of the token and reports how many there were; entries stay until their own exit. */
    method DisconnectToken(tokenHash: string) returns (count: nat)
      requires Valid()
      modifies set d | d in sessions && sessions[d].tokenHash == tokenHash :: sessions[d].conn
      ensures count == |Holders(tokenHash)|
      ensures forall d :: d in Holders(tokenHash) ==>
                            sessions[d].conn.closedWith
                            == if old(sessions[d].conn.Open()) then Some(4) else old(sessions[d].conn.closedWith)
    {
      var matches: seq<string> := [];
      var pending := sessions.Keys;
      while pending != {}
        invariant pending <= sessions.Keys
        invariant forall d :: d in matches <==> d in Holders(tokenHash) && d !in pending
        invariant forall i, j :: 0 <= i < j < |matches| ==> matches[i] != matches[j]
      {
        var d :| d in pending;
        pending := pending - {d};
        if sessions[d].tokenHash == tokenHash {
          matches := matches + [d];
        }
      }
      DistinctLength(matches, Holders(tokenHash));
      for i := 0 to |matches|
        invariant forall k :: 0 <= k < i ==>
                                sessions[matches[k]].conn.closedWith
                                == if old(sessions[matches[k]].conn.Open()) then Some(4)
                                   else old(sessions[matches[k]].conn.closedWith)
        invariant forall k :: i <= k < |matches| ==> unchanged(sessions[matches[k]].conn)
      {
        assert matches[i] in Holders(tokenHash);
        sessions[matches[i]].conn.CloseWithError(4);
      }
      count := |matches|;
    }
  }

  lemma {:induction false} DistinctLength<T>(items: seq<T>, members: set<T>)
    requires forall i, j :: 0 <= i < j < |items| ==> items[i] != items[j]
    requires forall x :: x in items <==> x in members
    ensures |items| == |members|
  {
    if items == [] {
      assert members == {};
    } else {
      var last := items[|items| - 1];
      DistinctLength(items[..|items| - 1], members - {last});
    }
  }
}
