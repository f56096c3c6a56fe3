/**
  What the relay promises, stated over the hook functions: the two-member
  capacity, relaying and FIFO queueing, discarding a departed sender's
  queue, cascade close and the clean-up that follows it.
 */
module Properties {
  import opened Options
  import opened Spaces
  import opened Messages
  import opened Signaling

  /** No registered space has more than two members. */
  ghost predicate WithinCapacity<D>(reg: Registry<D>)
  {
    forall p :: p in reg ==> |reg[p].requests| <= Capacity
  }

  // ---------------------------------------------------------------------------
  // Capacity

  /** An open that follows a passing handshake on the same registry keeps every space within capacity. */
  lemma OpenAfterHandshakeKeepsCapacity<D, M>(reg: Registry<D>, path: Path, c: Conn)
    requires WithinCapacity(reg) && Admits(reg, path)
    ensures WithinCapacity(OpenStep<D, M>(reg, path, c).reg)
  {
    OpenStepAt<D, M>(reg, path, c);
  }

  /** The open hook itself does not check capacity: a third member gets in when the handshake is skipped. */
  lemma OpenWithoutHandshakeOverfills<D, M>(path: Path)
    ensures var reg: Registry<D> := map[path := SpaceState([1, 2], [])];
            && WithinCapacity(reg)
            && !Admits(reg, path)
            && OpenStep<D, M>(reg, path, 3).reg[path].requests == [1, 2, 3]
            && !WithinCapacity(OpenStep<D, M>(reg, path, 3).reg)
  {
    var reg: Registry<D> := map[path := SpaceState([1, 2], [])];
    OpenStepAt<D, M>(reg, path, 3);
  }

  /**
    The handshake and the open are separate hooks: when two handshakes pass on
    the same table before either open runs, both opens go through and the
    space ends up with three members.
   */
  lemma InterleavedHandshakesOverfill<D, M>(path: Path)
    ensures var reg: Registry<D> := map[path := SpaceState([1], [])];
            var reg1 := OpenStep<D, M>(reg, path, 2).reg;
            && WithinCapacity(reg)
            && Admits(reg, path)
            && OpenStep<D, M>(reg1, path, 3).reg[path].requests == [1, 2, 3]
            && !WithinCapacity(OpenStep<D, M>(reg1, path, 3).reg)
  {
    var reg: Registry<D> := map[path := SpaceState([1], [])];
    OpenStepAt<D, M>(reg, path, 2);
    var reg1 := OpenStep<D, M>(reg, path, 2).reg;
    OpenStepAt<D, M>(reg1, path, 3);
  }

  /** Closing never adds members, so it keeps every space within capacity. */
  lemma CloseKeepsCapacity<D, M>(reg: Registry<D>, path: Path, c: Conn)
    requires WithinCapacity(reg)
    ensures WithinCapacity(CloseStep<D, M>(reg, path, c).reg)
  {
    CloseStepAt<D, M>(reg, path, c);
  }

  /** A message never changes any membership, so it keeps every space within capacity. */
  lemma MessageKeepsCapacity<D, M>(reg: Registry<D>, path: Path, c: Conn, msg: InMsg<D, M>)
    requires WithinCapacity(reg)
    ensures WithinCapacity(MessageStep(reg, path, c, msg).reg)
  {
    if msg.Notify? {
      NotifyStepAt<D, M>(reg, path, c, msg.data);
    }
  }

  /**
    As long as the transport runs the handshake check immediately before every
    open, on the same table, no space ever holds more than two members,
    whatever the order of joins, leaves and messages.
   */
  lemma {:induction false} RunKeepsCapacity<D, M>(reg: Registry<D>, steps: seq<Step<D, M>>)
    requires WithinCapacity(reg)
    ensures WithinCapacity(Run(reg, steps).reg)
    decreases |steps|
  {
    if steps != [] {
      match steps[0] {
        case Join(p, c) =>
          if Admits(reg, p) {
            OpenAfterHandshakeKeepsCapacity<D, M>(reg, p, c);
          }
        case Leave(p, c) => CloseKeepsCapacity<D, M>(reg, p, c);
        case Receive(p, c, m) => MessageKeepsCapacity(reg, p, c, m);
      }
      RunKeepsCapacity(Apply(reg, steps[0]).reg, steps[1..]);
    }
  }

  // ---------------------------------------------------------------------------
  // Relay and queueing

  /** With both members attached, a NOTIFY goes to the other one, data unchanged, and nothing is queued. */
  lemma NotifyReachesPeer<D, M>(reg: Registry<D>, path: Path, a: Conn, b: Conn, data: D)
    requires path in reg && a != b
    requires reg[path].requests == [a, b] || reg[path].requests == [b, a]
    ensures MessageStep<D, M>(reg, path, a, Notify(data)) == Outcome(reg, [Send(b, Relay(data))])
  {
    if reg[path].requests == [b, a] {
      FirstOtherIsFirst(reg[path].requests, a, 0);
    } else {
      FirstOtherIsFirst(reg[path].requests, a, 1);
    }
  }

  /** Each payload tagged with its sender, as it sits in the queue. */
  function Tagged<D>(a: Conn, ds: seq<D>): (r: seq<Pending<D>>)
    ensures |r| == |ds|
    ensures forall i :: 0 <= i < |ds| ==> r[i] == Pending(a, ds[i])
  {
    if ds == [] then [] else [Pending(a, ds[0])] + Tagged(a, ds[1..])
  }

  /** The NOTIFY messages `a` sends carrying `ds`, one after another. */
  function NotifySteps<D, M>(path: Path, a: Conn, ds: seq<D>): (r: seq<Step<D, M>>)
    ensures |r| == |ds|
  {
    if ds == [] then [] else [Receive(path, a, Notify(ds[0]))] + NotifySteps(path, a, ds[1..])
  }

  /** A lone member's NOTIFY sends nothing and appends the payload, tagged with the sender, to the queue. */
  lemma AloneNotifyQueues<D, M>(reg: Registry<D>, path: Path, a: Conn, d: D)
    requires path in reg && reg[path].requests == [a]
    ensures Apply<D, M>(reg, Receive(path, a, Notify(d)))
              == Outcome(reg[path := SpaceState([a], reg[path].pending + [Pending(a, d)])], [])
  {
    assert FirstOther([a], a) == None;
  }

  /** A hook that emits nothing, followed by a run that emits nothing, emits nothing. */
  lemma RunQuietCons<D, M>(reg: Registry<D>, s: Step<D, M>, rest: seq<Step<D, M>>, reg1: Registry<D>, reg2: Registry<D>)
    requires Apply(reg, s) == Outcome(reg1, [])
    requires Run(reg1, rest) == Outcome(reg2, [])
    ensures Run(reg, [s] + rest) == Outcome(reg2, [])
  {
    assert ([s] + rest)[1..] == rest;
  }

  /** Queueing one payload and then the rest is queueing them all. */
  lemma TaggedCons<D>(p: seq<Pending<D>>, a: Conn, ds: seq<D>)
    requires ds != []
    ensures p + [Pending(a, ds[0])] + Tagged(a, ds[1..]) == p + Tagged(a, ds)
  {
    assert Tagged(a, ds) == [Pending(a, ds[0])] + Tagged(a, ds[1..]);
  }

  lemma UpdateTwice<K, V>(m: map<K, V>, k: K, v1: V, v2: V)
    ensures m[k := v1][k := v2] == m[k := v2]
  {
  }

  /** A NOTIFY from the lone member `a` queues its payload; the run of the rest then goes on from there. */
  lemma AloneQueuesCons<D, M>(reg: Registry<D>, path: Path, a: Conn, ds: seq<D>, reg2: Registry<D>)
    requires path in reg && reg[path].requests == [a] && ds != []
    requires Run(reg[path := SpaceState([a], reg[path].pending + [Pending(a, ds[0])])], NotifySteps<D, M>(path, a, ds[1..]))
               == Outcome(reg2, [])
    ensures Run(reg, NotifySteps<D, M>(path, a, ds)) == Outcome(reg2, [])
  {
    var reg1 := reg[path := SpaceState([a], reg[path].pending + [Pending(a, ds[0])])];
    AloneNotifyQueues<D, M>(reg, path, a, ds[0]);
    RunQuietCons(reg, Receive(path, a, Notify(ds[0])), NotifySteps<D, M>(path, a, ds[1..]), reg1, reg2);
  }

  /** While `a` is alone, its NOTIFYs produce nothing and are appended to the queue in order. */
  lemma {:induction false} AloneQueuesInOrder<D, M>(reg: Registry<D>, path: Path, a: Conn, ds: seq<D>)
    requires path in reg && reg[path].requests == [a]
    ensures Run(reg, NotifySteps<D, M>(path, a, ds))
              == Outcome(reg[path := SpaceState([a], reg[path].pending + Tagged(a, ds))], [])
    decreases |ds|
  {
    if ds == [] {
      assert reg[path].pending + Tagged(a, ds) == reg[path].pending;
      assert reg[path := SpaceState([a], reg[path].pending)] == reg;
    } else {
      var q := reg[path].pending + [Pending(a, ds[0])];
      var reg1 := reg[path := SpaceState([a], q)];
      var final := SpaceState([a], reg[path].pending + Tagged(a, ds));
      AloneQueuesInOrder<D, M>(reg1, path, a, ds[1..]);
      TaggedCons(reg[path].pending, a, ds);
      UpdateTwice(reg, path, SpaceState([a], q), final);
      AloneQueuesCons<D, M>(reg, path, a, ds, reg[path := final]);
    }
  }

  /**
    Queue-then-flush: what `a` sends before its peer arrives is not delivered
    then; when `b` joins, `b` receives every payload in the order sent, and
    the queue is empty.
   */
  lemma QueueThenFlush<D, M>(reg: Registry<D>, path: Path, a: Conn, b: Conn, ds: seq<D>)
    requires path in reg && reg[path] == SpaceState([a], [])
    ensures var queued := Run(reg, NotifySteps<D, M>(path, a, ds));
            var joined := Apply<D, M>(queued.reg, Join(path, b));
            && queued.events == []
            && joined.reg[path] == SpaceState([a, b], [])
            && |joined.events| == |ds|
            && forall i :: 0 <= i < |ds| ==> joined.events[i] == Send(b, Relay(ds[i]))
  {
    AloneQueuesInOrder<D, M>(reg, path, a, ds);
    var queued := Run(reg, NotifySteps<D, M>(path, a, ds));
    assert queued.reg[path] == SpaceState([a], Tagged(a, ds));
    OpenStepAt<D, M>(queued.reg, path, b);
  }

  // ---------------------------------------------------------------------------
  // Leaving

  /** A run that starts with `s` is that hook followed by the run of the rest; the events are concatenated. */
  lemma RunCons<D, M>(reg: Registry<D>, s: Step<D, M>, rest: seq<Step<D, M>>)
    ensures var first := Apply(reg, s);
            var after := Run(first.reg, rest);
            Run(reg, [s] + rest) == Outcome(after.reg, first.events + after.events)
  {
    assert ([s] + rest)[1..] == rest;
  }

  /** Two hooks in a row: the second runs on the first's registry, and their events are concatenated. */
  lemma RunTwo<D, M>(reg: Registry<D>, s1: Step<D, M>, s2: Step<D, M>)
    ensures var first := Apply(reg, s1);
            var second := Apply(first.reg, s2);
            Run(reg, [s1, s2]) == Outcome(second.reg, first.events + second.events)
  {
    var first := Apply(reg, s1);
    var second := Apply(first.reg, s2);
    assert [s1, s2][1..] == [s2];
    assert [s2][1..] == [];
    assert Run(first.reg, [s2]) == Outcome(second.reg, second.events + []);
    assert second.events + [] == second.events;
  }

  /**
    Discard-on-sender-exit: when the only member leaves before a peer ever
    came, the space is deleted with its whole queue, whoever queued the
    payloads (deletion depends on the members alone), and the next connection
    on that path starts alone with nothing delivered.
   */
  lemma DiscardOnSenderExit<D, M>(reg: Registry<D>, path: Path, a: Conn, b: Conn)
    requires path in reg && reg[path].requests == [a]
    ensures CloseStep<D, M>(reg, path, a) == Outcome(reg - {path}, [])
    ensures Run<D, M>(reg, [Leave(path, a), Join(path, b)]) == Outcome((reg - {path})[path := SpaceState([b], [])], [])
  {
    assert FirstOther([a], a) == None;
    assert RemoveFirst([a], a) == [];
    var after := CloseStep<D, M>(reg, path, a);
    assert after == Outcome(reg - {path}, []);
    RunTwo<D, M>(reg, Leave(path, a), Join(path, b));
    assert SpaceAt(reg - {path}, path) == EmptySpace();
    assert Flush<D, M>(b, []) == [];
    assert [] + [b] == [b];
    assert OpenStep<D, M>(reg - {path}, path, b) == Outcome((reg - {path})[path := SpaceState([b], [])], []);
  }

  /** A member of a space with two distinct members (or alone) takes the whole space down when it closes. */
  lemma CloseByMemberDeletesSpace<D, M>(reg: Registry<D>, path: Path, c: Conn)
    requires path in reg && c in reg[path].requests
    requires |reg[path].requests| <= Capacity
    requires |reg[path].requests| == 2 ==> reg[path].requests[0] != reg[path].requests[1]
    ensures path !in CloseStep<D, M>(reg, path, c).reg
  {
    var s := reg[path].requests;
    CloseStepAt<D, M>(reg, path, c);
    if |s| == 1 {
      assert s == [c];
      assert FirstOther(s, c) == None;
    } else if s[0] == c {
      assert s == [c, s[1]];
      FirstOtherIsFirst(s, c, 1);
      assert RemoveFirst(RemoveFirst(s, c), s[1]) == [];
    } else {
      assert s == [s[0], c];
      FirstOtherIsFirst(s, c, 0);
      assert RemoveFirst(s, c) == [s[0]];
    }
  }

  /**
    Cascade close: when one of two members leaves, the server closes the
    other one as well and the path is no longer registered; the other's own
    close hook, which follows, then changes nothing.
   */
  lemma CascadeClose<D, M>(reg: Registry<D>, path: Path, a: Conn, b: Conn)
    requires path in reg && a != b
    requires reg[path].requests == [a, b] || reg[path].requests == [b, a]
    ensures CloseStep<D, M>(reg, path, a) == Outcome(reg - {path}, [CloseConn(b)])
    ensures Run<D, M>(reg, [Leave(path, a), Leave(path, b)]) == Outcome(reg - {path}, [CloseConn(b)])
  {
    var s := reg[path].requests;
    if s == [a, b] {
      FirstOtherIsFirst(s, a, 1);
    } else {
      FirstOtherIsFirst(s, a, 0);
    }
    CloseByMemberDeletesSpace<D, M>(reg, path, a);
    CloseStepAt<D, M>(reg, path, a);
    assert CloseStep<D, M>(reg, path, a).reg == reg - {path};
    RunTwo<D, M>(reg, Leave(path, a), Leave(path, b));
  }

  /**
    After a cascade, a NOTIFY from the closed peer that was already on its way
    registers the path again with no member and queues the payload; that
    peer's own close hook then removes it again, leaving the registry as it was.
   */
  lemma LateNotifyThenClose<D, M>(reg: Registry<D>, path: Path, b: Conn, data: D)
    requires path !in reg
    ensures var late := MessageStep<D, M>(reg, path, b, Notify(data));
            && late.events == []
            && path in late.reg
            && late.reg[path] == SpaceState([], [Pending(b, data)])
            && CloseStep<D, M>(late.reg, path, b) == Outcome(reg, [])
  {
    var late := MessageStep<D, M>(reg, path, b, Notify(data));
    assert SpaceAt(reg, path) == EmptySpace();
    assert FirstOther([], b) == None;
    assert late.reg == reg[path := SpaceState([], [] + [Pending(b, data)])];
    assert WithoutSender([Pending(b, data)], b) == [];
    assert late.reg - {path} == reg;
  }

  /**
    A close hook for a connection that is not a member of its path's space
    still closes the first member there and takes the space down.
   */
  lemma StrangerCloseEvictsMember<D, M>(reg: Registry<D>, path: Path, x: Conn, n: Conn)
    requires path in reg && reg[path].requests == [n] && x != n
    ensures CloseStep<D, M>(reg, path, x) == Outcome(reg - {path}, [CloseConn(n)])
  {
    FirstOtherIsFirst([n], x, 0);
    assert RemoveFirst([n], x) == [n];
    assert RemoveFirst([n], n) == [];
  }

  /**
    After a cascade the closed peer's own close hook can arrive after a
    newcomer `n` has already registered the path again; it then closes the
    newcomer and deletes the path.
   */
  lemma StaleCloseEvictsNewcomer<D, M>(reg: Registry<D>, path: Path, a: Conn, b: Conn, n: Conn)
    requires path in reg && reg[path] == SpaceState([a, b], [])
    requires a != b && n != a && n != b
    ensures var r := Run<D, M>(reg, [Leave(path, a), Join(path, n), Leave(path, b)]);
            && r.events == [CloseConn(b), CloseConn(n)]
            && r.reg == reg - {path}
  {
    CascadeClose<D, M>(reg, path, a, b);
    RejoinThenStaleClose<D, M>(reg - {path}, path, b, n);
    var rest: seq<Step<D, M>> := [Join(path, n), Leave(path, b)];
    RunCons<D, M>(reg, Leave(path, a), rest);
    assert [Leave(path, a)] + rest == [Leave(path, a), Join(path, n), Leave(path, b)];
  }

  /** A newcomer joining a deleted path is then closed by a stale close hook, and the path is deleted again. */
  lemma RejoinThenStaleClose<D, M>(reg: Registry<D>, path: Path, b: Conn, n: Conn)
    requires path !in reg && n != b
    ensures Run<D, M>(reg, [Join(path, n), Leave(path, b)]) == Outcome(reg, [CloseConn(n)])
  {
    var reg2 := reg[path := SpaceState([n], [])];
    assert SpaceAt(reg, path) == EmptySpace();
    assert Flush<D, M>(n, []) == [];
    assert [] + [n] == [n];
    assert Apply<D, M>(reg, Join(path, n)) == Outcome(reg2, []);
    StrangerCloseEvictsMember<D, M>(reg2, path, b, n);
    assert reg2 - {path} == reg;
    RunTwo<D, M>(reg, Join(path, n), Leave(path, b));
  }

  /**
    When two newcomers have paired up again, a stale close hook from a
    connection that is no longer a member closes the first of them and leaves
    the second alone in the space.
   */
  lemma StrangerCloseSplitsPair<D, M>(reg: Registry<D>, path: Path, x: Conn, n: Conn, m: Conn)
    requires path in reg && reg[path] == SpaceState([n, m], [])
    requires x != n && x != m && n != m
    ensures CloseStep<D, M>(reg, path, x) == Outcome(reg[path := SpaceState([m], [])], [CloseConn(n)])
  {
    FirstOtherIsFirst([n, m], x, 0);
    RemoveFirstAt([n, m], n, 0);
    assert [n, m][..0] + [n, m][1..] == [m];
  }

  /**
    A NOTIFY from a connection that is no longer a member (its peer was closed
    by a cascade and a newcomer joined since) is relayed to the newcomer.
   */
  lemma StaleNotifyReachesNewcomer<D, M>(reg: Registry<D>, path: Path, b: Conn, n: Conn, data: D)
    requires path in reg && reg[path].requests == [n] && b != n
    ensures MessageStep<D, M>(reg, path, b, Notify(data)) == Outcome(reg, [Send(n, Relay(data))])
  {
    FirstOtherIsFirst([n], b, 0);
  }

  // ---------------------------------------------------------------------------
  // Configuration requests and ignored messages

  /**
    GET /peerconnection is answered to the sender alone with the fixed
    configuration, echoing the token exactly when there was one, and changes
    no space.
   */
  lemma ConfigRequestAnswered<D, M>(reg: Registry<D>, path: Path, c: Conn, msgId: Option<M>)
    ensures var r := MessageStep<D, M>(reg, path, c, Get(PeerConnectionResource, msgId));
            && r.reg == reg
            && |r.events| == 1 && r.events[0].Send? && r.events[0].to == c
            && r.events[0].msg.Response?
            && r.events[0].msg.configuration == ServerConfiguration
            && r.events[0].msg.msgId == msgId
  {
  }

  /** Any other method, and a GET for any other resource, changes nothing and sends nothing. */
  lemma OtherMessagesIgnored<D, M>(reg: Registry<D>, path: Path, c: Conn, msg: InMsg<D, M>)
    requires msg.OtherMethod? || (msg.Get? && msg.resource != PeerConnectionResource)
    ensures MessageStep(reg, path, c, msg) == Outcome(reg, [])
  {
  }
}
