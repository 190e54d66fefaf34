/** The control stream after the handshake: the server's read loop (internal/server/server.go) and the client's
    ticker (internal/client/client.go). Times are in seconds; processing takes no time. */
module Heartbeat {
  datatype Message = Message(at: real, ping: bool)

  datatype Leaving = Expired | BadMessage

  /** The deadline in force after `n` messages: one timeout after the last reset. */
  function Deadline(registered: real, timeout: real, messages: seq<Message>, n: nat): real
    requires n <= |messages|
  {
    (if n == 0 then registered else messages[n - 1].at) + timeout
  }

  /** The first `n` messages were pings that came before their deadlines. */
  ghost predicate Accepted(registered: real, timeout: real, messages: seq<Message>, n: nat) {
    n <= |messages| && forall i :: 0 <= i < n ==>
        messages[i].ping && messages[i].at < Deadline(registered, timeout, messages, i)
  }

  /** The loop from registration to the moment the session enters its unregister path. `messages` is all that
      arrives. */
  method ServeControl(registered: real, timeout: real, messages: seq<Message>)
      returns (left: real, reason: Leaving, n: nat)
    ensures Accepted(registered, timeout, messages, n)
    ensures reason.Expired? ==>
              && left == (if n == 0 then registered else messages[n - 1].at) + timeout
              && (n == |messages| || messages[n].at >= left)
    ensures reason.BadMessage? ==>
              && n < |messages| && !messages[n].ping && left == messages[n].at
              && left < (if n == 0 then registered else messages[n - 1].at) + timeout
  {
    n := 0;
    var deadline := registered + timeout;
    while n < |messages|
      invariant Accepted(registered, timeout, messages, n) && deadline == Deadline(registered, timeout, messages, n)
    {
      if messages[n].at >= deadline {
        return deadline, Expired, n;
      }
      if !messages[n].ping {
        return messages[n].at, BadMessage, n;
      }
      deadline := messages[n].at + timeout;
      n := n + 1;
    }
    left, reason := deadline, Expired;
  }

  const PERIOD := 15.0

  /** What arrives from a client that keeps pinging: the welcome took `welcome` to reach it, its ticker fires every
      15 seconds from then on, and each ping is under way for at most `delay`. */
  ghost predicate FromPinger(registered: real, delay: real, welcome: real, messages: seq<Message>) {
    0.0 <= welcome <= delay
    && forall i :: 0 <= i < |messages| ==>
                     var sent := registered + welcome + PERIOD * (i + 1) as real;
                     messages[i].ping && sent <= messages[i].at <= sent + delay
  }

  lemma PingBeforeDeadline(registered: real, timeout: real, delay: real, welcome: real, messages: seq<Message>, i: nat)
    requires FromPinger(registered, delay, welcome, messages) && timeout > PERIOD + 2.0 * delay && i < |messages|
    ensures messages[i].ping && messages[i].at < Deadline(registered, timeout, messages, i)
  {
    if i > 0 {
      assert messages[i - 1].at >= registered + welcome + PERIOD * i as real;
    }
  }

  /** No pinging client is ever dropped if and only if the timeout exceeds a period and two delays. */
  lemma PingingSurvives(registered: real, timeout: real, delay: real)
    requires delay >= 0.0
    ensures timeout > 15.0 + 2.0 * delay <==>
            forall welcome, messages: seq<Message> :: FromPinger(registered, delay, welcome, messages) ==>
                Accepted(registered, timeout, messages, |messages|)
  {
    if timeout > PERIOD + 2.0 * delay {
      forall welcome, messages: seq<Message> | FromPinger(registered, delay, welcome, messages)
        ensures Accepted(registered, timeout, messages, |messages|)
      {
        forall i | 0 <= i < |messages|
          ensures messages[i].ping && messages[i].at < Deadline(registered, timeout, messages, i)
        {
          PingBeforeDeadline(registered, timeout, delay, welcome, messages, i);
        }
      }
    } else {
      var late := [Message(registered + delay + PERIOD + delay, true)];
      assert FromPinger(registered, delay, delay, late);
      assert late[0].at >= Deadline(registered, timeout, late, 0);
      assert !Accepted(registered, timeout, late, |late|);
    }
  }
}
