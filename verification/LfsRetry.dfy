/** The retry protocol between the client library and the file server: requests travel over a
    channel that loses packets but keeps their order, replies may be lost, and the client sends
    again until a reply reaches the socket of the call. Executing a request at least once is as
    good as executing it exactly once. */
module LfsRetry {
  import opened LfsTree

  /** `id` numbers the calls; each call has a socket of its own. */
  datatype Packet = Packet(id: nat, r: Request)

  datatype Answer = Answer(id: nat, reply: Reply)

  datatype Client = Resting | Calling(r: Request)

  /** `done` and `got` are the calls that returned and what they returned. */
  datatype State = State(
    server: Tree, channel: seq<Packet>, answers: seq<Answer>, client: Client, done: seq<Request>, got: seq<Reply>)

  datatype Event =
    | Call(r: Request)
    | Send
    | LoseRequest(i: nat)
    | Serve
    | LoseAnswer(i: nat)
    | Receive(i: nat)

  /** Each request carried out once, in order. */
  function Once(t: Tree, rs: seq<Request>): (res: (Tree, seq<Reply>))
    ensures |res.1| == |rs|
    decreases |rs|
  {
    if rs == [] then (t, [])
    else
      var (t1, replies) := Once(t, rs[..|rs| - 1]);
      var (t2, reply) := Step(t1, rs[|rs| - 1]);
      (t2, replies + [reply])
  }

  predicate Enabled(t0: Tree, s: State, e: Event) {
    match e
    case Call(r) => s.client.Resting? && Valid(Once(t0, s.done).0, r)
    case Send => s.client.Calling?
    case LoseRequest(i) => i < |s.channel|
    case Serve => s.channel != []
    case LoseAnswer(i) => i < |s.answers|
    case Receive(i) => s.client.Calling? && i < |s.answers| && s.answers[i].id == |s.done| + 1
  }

  function Next(t0: Tree, s: State, e: Event): State
    requires Enabled(t0, s, e)
  {
    match e
    case Call(r) => s.(client := Calling(r))
    case Send => s.(channel := s.channel + [Packet(|s.done| + 1, s.client.r)])
    case LoseRequest(i) => s.(channel := s.channel[..i] + s.channel[i + 1..])
    case Serve =>
      var (t, reply) := Step(s.server, s.channel[0].r);
      s.(server := t, channel := s.channel[1..], answers := s.answers + [Answer(s.channel[0].id, reply)])
    case LoseAnswer(i) => s.(answers := s.answers[..i] + s.answers[i + 1..])
    case Receive(i) =>
      s.(client := Resting, done := s.done + [s.client.r], got := s.got + [s.answers[i].reply],
         answers := s.answers[..i] + s.answers[i + 1..])
  }

  /** A packet of the call that is being made, or left over from the one before. */
  predicate PacketOk(s: State, k: nat)
    requires k < |s.channel|
  {
    var p := s.channel[k];
    || (p.id == |s.done| + 1 && s.client.Calling? && p.r == s.client.r)
    || (p.id == |s.done| && s.done != [] && p.r == s.done[|s.done| - 1])
  }

  /** Left-over packets are in front: the channel keeps the order. */
  predicate InOrder(s: State, j: nat, k: nat)
    requires j < |s.channel| && k < |s.channel|
  {
    j < k ==> s.channel[j].id <= s.channel[k].id
  }

  /** The current request has reached the server at least once. */
  ghost predicate Reached(t0: Tree, s: State) {
    && s.client.Calling?
    && s.server == Step(Once(t0, s.done).0, s.client.r).0
    && forall k :: 0 <= k < |s.channel| ==> s.channel[k].id == |s.done| + 1
  }

  ghost predicate NotReached(t0: Tree, s: State) {
    && s.server == Once(t0, s.done).0
    && forall k :: 0 <= k < |s.answers| ==> s.answers[k].id <= |s.done|
  }

  predicate AnswerOk(t0: Tree, s: State, k: nat)
    requires k < |s.answers|
  {
    s.answers[k].id <= |s.done| + 1
    && (s.answers[k].id == |s.done| + 1 && s.client.Calling? ==> s.answers[k].reply == Step(Once(t0, s.done).0, s.client.r).1)
  }

  /** The calls so far were valid, and the last of them left the table so that repeating it changes nothing. */
  ghost predicate Settled(t0: Tree, s: State) {
    && Shaped(Once(t0, s.done).0)
    && (s.client.Calling? ==> Valid(Once(t0, s.done).0, s.client.r))
    && (s.done != [] ==> Step(Once(t0, s.done).0, s.done[|s.done| - 1]).0 == Once(t0, s.done).0)
  }

  ghost predicate Inv(t0: Tree, s: State) {
    && Settled(t0, s) && s.got == Once(t0, s.done).1
    && (Reached(t0, s) || NotReached(t0, s))
    && (forall k :: 0 <= k < |s.channel| ==> PacketOk(s, k))
    && (forall j, k :: 0 <= j < |s.channel| && 0 <= k < |s.channel| ==> InOrder(s, j, k))
    && (forall k :: 0 <= k < |s.answers| ==> AnswerOk(t0, s, k))
  }

  /** Everything at rest on table `t0`. */
  ghost predicate Boot(t0: Tree, s: State) {
    Shaped(t0) && s == State(t0, [], [], Resting, [], [])
  }

  lemma ServeKeeps(t0: Tree, s: State)
    requires Inv(t0, s) && s.channel != []
    ensures Inv(t0, Next(t0, s, Serve))
  {
    var u := Next(t0, s, Serve);
    var p := s.channel[0];
    var t := Once(t0, s.done).0;
    assert PacketOk(s, 0);
    forall k | 0 <= k < |u.channel|
      ensures PacketOk(u, k)
    {
      assert PacketOk(s, k + 1);
    }
    forall j, k | 0 <= j < |u.channel| && 0 <= k < |u.channel|
      ensures InOrder(u, j, k)
    {
      assert InOrder(s, j + 1, k + 1);
    }
    forall k | 0 <= k < |s.answers|
      ensures AnswerOk(t0, u, k)
    {
      assert AnswerOk(t0, s, k);
    }
    if p.id == |s.done| + 1 {
      TwiceIsOnce(t, s.client.r);
      forall k | 0 <= k < |u.channel|
        ensures u.channel[k].id == |s.done| + 1
      {
        assert PacketOk(s, k + 1) && InOrder(s, 0, k + 1);
      }
      assert Reached(t0, u);
    } else {
      assert NotReached(t0, u);
    }
  }

  /** A returned call: what it returned is what executing it once would have returned. */
  lemma ReceiveKeeps(t0: Tree, s: State, i: nat)
    requires Inv(t0, s) && Enabled(t0, s, Receive(i))
    ensures Inv(t0, Next(t0, s, Receive(i)))
  {
    var u := Next(t0, s, Receive(i));
    var t, r := Once(t0, s.done).0, s.client.r;
    assert AnswerOk(t0, s, i);
    assert u.done[..|s.done|] == s.done;
    assert Once(t0, u.done) == (Step(t, r).0, s.got + [Step(t, r).1]);
    TwiceIsOnce(t, r);
    StepShaped(t, r);
    forall k | 0 <= k < |u.channel|
      ensures PacketOk(u, k)
    {
      assert PacketOk(s, k);
    }
    forall j, k | 0 <= j < |u.channel| && 0 <= k < |u.channel|
      ensures InOrder(u, j, k)
    {
      assert InOrder(s, j, k);
    }
    forall k | 0 <= k < |u.answers|
      ensures AnswerOk(t0, u, k) && u.answers[k].id <= |u.done|
    {
      assert AnswerOk(t0, s, if k < i then k else k + 1);
    }
    assert NotReached(t0, u);
  }

  lemma NextKeeps(t0: Tree, s: State, e: Event)
    requires Inv(t0, s) && Enabled(t0, s, e)
    ensures Inv(t0, Next(t0, s, e))
  {
    if e.Serve? {
      ServeKeeps(t0, s);
    } else if e.Receive? {
      ReceiveKeeps(t0, s, e.i);
    } else {
      QuietKeeps(t0, s, e);
    }
  }

  lemma QuietKeeps(t0: Tree, s: State, e: Event)
    requires Inv(t0, s) && Enabled(t0, s, e) && !e.Serve? && !e.Receive?
    ensures Inv(t0, Next(t0, s, e))
  {
    var u := Next(t0, s, e);
    hide Step, Valid, Shaped;
    forall k | 0 <= k < |u.channel|
      ensures PacketOk(u, k)
    {
      assert k < |s.channel| ==> PacketOk(s, k);
      assert k + 1 < |s.channel| ==> PacketOk(s, k + 1);
    }
    forall j, k | 0 <= j < |u.channel| && 0 <= k < |u.channel|
      ensures InOrder(u, j, k)
    {
      assert PacketOk(u, j) && PacketOk(u, k);
      if e.LoseRequest? {
        assert InOrder(s, if j < e.i then j else j + 1, if k < e.i then k else k + 1);
      } else if k < |s.channel| && j < |s.channel| {
        assert InOrder(s, j, k);
      }
    }
    forall k | 0 <= k < |u.answers|
      ensures AnswerOk(t0, u, k) && (NotReached(t0, s) ==> u.answers[k].id <= |s.done|)
    {
      assert AnswerOk(t0, s, if e.LoseAnswer? && k >= e.i then k + 1 else k);
    }
    if Reached(t0, s) {
      assert Reached(t0, u);
    } else {
      assert NotReached(t0, u);
    }
  }

  function Run(t0: Tree, s: State, es: seq<Event>): (r: seq<State>)
    ensures |r| <= 1
    decreases |es|
  {
    if es == [] then [s] else if Enabled(t0, s, es[0]) then Run(t0, Next(t0, s, es[0]), es[1..]) else []
  }

  lemma {:induction false} RunKeeps(t0: Tree, s: State, es: seq<Event>)
    requires Inv(t0, s)
    ensures forall u :: u in Run(t0, s, es) ==> Inv(t0, u)
    decreases |es|
  {
    hide Inv, Next, Enabled;
    if es != [] && Enabled(t0, s, es[0]) {
      NextKeeps(t0, s, es[0]);
      RunKeeps(t0, Next(t0, s, es[0]), es[1..]);
    }
  }

  /** However often packets were sent, lost or executed again: every call returned what it would
      have returned if each request had been executed exactly once, and between calls the files
      are those of exactly-once execution. */
  lemma AtLeastOnceIsExactlyOnce(t0: Tree, s: State, es: seq<Event>, u: State)
    requires Boot(t0, s) && u in Run(t0, s, es)
    ensures u.got == Once(t0, u.done).1
    ensures u.client.Resting? ==> u.server == Once(t0, u.done).0
    ensures (u.client.Calling?
             ==> u.server == Once(t0, u.done).0 || u.server == Once(t0, u.done + [u.client.r]).0)
  {
    RunKeeps(t0, s, es);
    if u.client.Calling? {
      assert (u.done + [u.client.r])[..|u.done|] == u.done;
    }
  }
}
