/** A call to the file server that is sent once more and then loses nothing comes back with the
    reply of carrying it out exactly once. */
module LfsProgress {
  import opened LfsTree
  import opened LfsRetry

  /** The server answers everything in the channel. */
  function Serves(n: nat): seq<Event> {
    if n == 0 then [] else [Serve] + Serves(n - 1)
  }

  lemma RunOne(t0: Tree, s: State, e: Event, es: seq<Event>)
    requires Enabled(t0, s, e)
    ensures Run(t0, s, [e] + es) == Run(t0, Next(t0, s, e), es)
  {
    assert ([e] + es)[1..] == es;
  }

  /** A full channel is answered packet by packet; the last packet's answer comes last. */
  lemma {:induction false} ServesAll(t0: Tree, s: State, last: Event) returns (u: State)
    ensures Run(t0, s, Serves(|s.channel|) + [last]) == Run(t0, u, [last])
    ensures s.channel == [] ==> u == s
    ensures u.channel == [] && u.client == s.client && u.done == s.done && u.got == s.got
    ensures |u.answers| == |s.answers| + |s.channel|
    ensures s.channel != [] ==> u.answers[|u.answers| - 1].id == s.channel[|s.channel| - 1].id
    ensures Inv(t0, s) ==> Inv(t0, u)
    decreases |s.channel|
  {
    hide Inv, Step;
    if s.channel == [] {
      u := s;
      assert Serves(0) + [last] == [last];
    } else {
      var t := Next(t0, s, Serve);
      if Inv(t0, s) {
        NextKeeps(t0, s, Serve);
      }
      u := ServesAll(t0, t, last);
      assert Serves(|s.channel|) + [last] == [Serve] + (Serves(|t.channel|) + [last]);
      RunOne(t0, s, Serve, Serves(|t.channel|) + [last]);
    }
  }

  /** The request is sent, the server answers all that is under way, the last answer is received:
      the call returns what carrying it out once gives, and its effect is on the server. */
  lemma ExchangeCompletes(t0: Tree, s: State) returns (u: State)
    requires Inv(t0, s) && s.client.Calling?
    ensures Run(t0, s, [Send] + (Serves(|s.channel| + 1) + [Receive(|s.answers| + |s.channel|)])) == [u]
    ensures u.client.Resting? && u.done == s.done + [s.client.r]
    ensures u.got == s.got + [Step(Once(t0, s.done).0, s.client.r).1] && u.server == Step(Once(t0, s.done).0, s.client.r).0
  {
    hide Inv, Step, Once;
    var last := Receive(|s.answers| + |s.channel|);
    var t := Next(t0, s, Send);
    NextKeeps(t0, s, Send);
    var v := ServesAll(t0, t, last);
    RunOne(t0, s, Send, Serves(|s.channel| + 1) + [last]);
    RunOne(t0, v, last, []);
    u := Next(t0, v, last);
    NextKeeps(t0, v, last);
    Received(t0, s, u);
  }

  lemma Received(t0: Tree, s: State, u: State)
    requires Inv(t0, s) && s.client.Calling? && Inv(t0, u) && u.client.Resting? && u.done == s.done + [s.client.r]
    ensures u.got == s.got + [Step(Once(t0, s.done).0, s.client.r).1] && u.server == Step(Once(t0, s.done).0, s.client.r).0
  {
    assert u.done[..|s.done|] == s.done;
    hide Step;
  }
}
