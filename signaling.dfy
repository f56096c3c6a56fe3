/**
  The four lifecycle hooks as functions of the registry: each takes the
  registry before the hook and gives the registry after it together with
  the events the hook emits, in order.
 */
module Signaling {
  import opened Options
  import opened Spaces
  import opened Messages

  /** The process-wide table from path to space, as values. */
  type Registry<D> = map<Path, SpaceState<D>>

  datatype Outcome<D, M> = Outcome(reg: Registry<D>, events: seq<Event<D, M>>)

  /** The registry is the same as `reg` at every path except `path`. */
  ghost predicate SameElsewhere<D>(reg: Registry<D>, reg': Registry<D>, path: Path)
  {
    forall p :: p != path ==> (p in reg <==> p in reg') && (p in reg ==> reg'[p] == reg[p])
  }

  /** The space registered at `path`, or a fresh empty one. */
  function SpaceAt<D>(reg: Registry<D>, path: Path): SpaceState<D>
  {
    if path in reg then reg[path] else EmptySpace()
  }

  /** The handshake check: a connection is refused exactly when its path holds a full space. */
  predicate Admits<D>(reg: Registry<D>, path: Path)
    ensures !Admits(reg, path) <==> path in reg && |reg[path].requests| >= Capacity
  {
    !(path in reg && reg[path].IsFull())
  }

  /** One NOTIFY to `c` per queued payload. */
  function Flush<D, M>(c: Conn, q: seq<Pending<D>>): (r: seq<Event<D, M>>)
    ensures |r| == |q|
    ensures forall i :: 0 <= i < |q| ==> r[i] == Send(c, Relay(q[i].data))
  {
    if q == [] then []
    else Flush(c, q[..|q| - 1]) + [Send(c, Relay(q[|q| - 1].data))]
  }

  /**
    Opening `c` on `path`: the space is created if needed, `c` joins it last,
    every queued payload is sent to `c` oldest first, and the queue is emptied.
    Capacity is not checked here.
   */
  function OpenStep<D, M>(reg: Registry<D>, path: Path, c: Conn): (r: Outcome<D, M>)
    ensures path in r.reg && c in r.reg[path].requests && r.reg[path].pending == []
    ensures |r.reg[path].requests| == |SpaceAt(reg, path).requests| + 1
    ensures |r.events| == |SpaceAt(reg, path).pending|
    ensures forall i :: 0 <= i < |r.events| ==> r.events[i] == Send(c, Relay(SpaceAt(reg, path).pending[i].data))
  {
    var s := SpaceAt(reg, path);
    Outcome(reg[path := SpaceState(s.requests + [c], [])], Flush(c, s.pending))
  }

  /**
    Closing `c` on `path`: `c` and its peer (if any) leave the space, the peer
    is closed too, and the space is deleted once it has no members. Nothing
    happens when `path` is not registered.
   */
  function CloseStep<D, M>(reg: Registry<D>, path: Path, c: Conn): (r: Outcome<D, M>)
    ensures path !in reg ==> r == Outcome(reg, [])
    ensures r.reg.Keys <= reg.Keys
    ensures |r.events| <= 1
    ensures r.events == [] <==> path !in reg || forall i :: 0 <= i < |reg[path].requests| ==> reg[path].requests[i] == c
    ensures forall i :: 0 <= i < |r.events| ==>
              path in reg && r.events[i].CloseConn? && r.events[i].conn in reg[path].requests && r.events[i].conn != c
    ensures path in reg && reg[path].GetOther(c).Some? ==> r.events == [CloseConn(reg[path].GetOther(c).value)]
  {
    if path !in reg then Outcome(reg, [])
    else
      var s := reg[path];
      var other := s.GetOther(c);
      var s1 := s.Removed(c);
      var s2 := if other.Some? then s1.Removed(other.value) else s1;
      var events := if other.Some? then [CloseConn(other.value)] else [];
      if s2.IsEmpty() then Outcome(reg - {path}, events)
      else Outcome(reg[path := s2], events)
  }

  /**
    A message from `c` on `path`. GET /peerconnection is answered to `c`;
    NOTIFY is relayed to the peer, or queued when there is none (creating the
    space if needed); anything else is ignored.
   */
  function MessageStep<D, M>(reg: Registry<D>, path: Path, c: Conn, msg: InMsg<D, M>): (r: Outcome<D, M>)
    ensures !msg.Notify? ==> r.reg == reg
    ensures |r.events| <= 1
    ensures msg.OtherMethod? ==> r.events == []
    ensures msg.Get? ==> (r.events != [] <==> msg.resource == PeerConnectionResource)
    ensures msg.Notify? ==> (r.events != [] <==> SpaceAt(reg, path).GetOther(c).Some?)
    ensures msg.Notify? && SpaceAt(reg, path).GetOther(c).Some? ==>
              r.events == [Send(SpaceAt(reg, path).GetOther(c).value, Relay(msg.data))]
    ensures msg.Get? && msg.resource == PeerConnectionResource ==> r.events == [Send(c, ConfigResponse(msg.msgId))]
  {
    match msg
    case Get(resource, msgId) =>
      if resource == PeerConnectionResource then Outcome(reg, [Send(c, ConfigResponse(msgId))])
      else Outcome(reg, [])
    case Notify(data) =>
      var s := SpaceAt(reg, path);
      var other := s.GetOther(c);
      if other.Some? then Outcome(reg, [Send(other.value, Relay(data))])
      else Outcome(reg[path := SpaceState(s.requests, s.pending + [Pending(c, data)])], [])
    case OtherMethod(_) => Outcome(reg, [])
  }

  /**
    What the transport does for one client action: a join is the handshake
    check followed, when it passes, by the open hook; a refused join changes
    nothing.
   */
  datatype Step<D, M> =
    | Join(path: Path, conn: Conn)
    | Leave(path: Path, conn: Conn)
    | Receive(path: Path, conn: Conn, msg: InMsg<D, M>)

  function Apply<D, M>(reg: Registry<D>, step: Step<D, M>): Outcome<D, M>
  {
    match step
    case Join(p, c) => if Admits(reg, p) then OpenStep(reg, p, c) else Outcome(reg, [])
    case Leave(p, c) => CloseStep(reg, p, c)
    case Receive(p, c, m) => MessageStep(reg, p, c, m)
  }

  /** The hooks run one after another, each atomically; the events accumulate. */
  function Run<D, M>(reg: Registry<D>, steps: seq<Step<D, M>>): Outcome<D, M>
    decreases |steps|
  {
    if steps == [] then Outcome(reg, [])
    else
      var first := Apply(reg, steps[0]);
      var rest := Run(first.reg, steps[1..]);
      Outcome(rest.reg, first.events + rest.events)
  }

  /** Two registries that agree away from `path` and at `path` are equal. */
  lemma SameRegistry<D>(a: Registry<D>, b: Registry<D>, path: Path)
    requires SameElsewhere(a, b, path)
    requires path in a <==> path in b
    requires path in a ==> a[path] == b[path]
    ensures a == b
  {
    assert a.Keys == b.Keys;
  }

  /** Closing changes the registry at most at `path`, and leaves there the space without `c` and its peer. */
  lemma CloseStepAt<D, M>(reg: Registry<D>, path: Path, c: Conn)
    ensures SameElsewhere(reg, CloseStep<D, M>(reg, path, c).reg, path)
    ensures path in reg ==>
              var other := reg[path].GetOther(c);
              var s2 := if other.Some? then reg[path].Removed(c).Removed(other.value) else reg[path].Removed(c);
              && (path in CloseStep<D, M>(reg, path, c).reg <==> !s2.IsEmpty())
              && (!s2.IsEmpty() ==> CloseStep<D, M>(reg, path, c).reg[path] == s2)
    ensures path !in reg ==> CloseStep<D, M>(reg, path, c).reg == reg
  {
  }

  /** Opening changes the registry only at `path`, where `c` is the last member and nothing is queued. */
  lemma OpenStepAt<D, M>(reg: Registry<D>, path: Path, c: Conn)
    ensures SameElsewhere(reg, OpenStep<D, M>(reg, path, c).reg, path)
    ensures path in OpenStep<D, M>(reg, path, c).reg
    ensures OpenStep<D, M>(reg, path, c).reg[path] == SpaceState(SpaceAt(reg, path).requests + [c], [])
  {
  }

  /** A NOTIFY changes the registry only at `path`: registered, with the payload queued when there is no peer. */
  lemma NotifyStepAt<D, M>(reg: Registry<D>, path: Path, c: Conn, data: D)
    ensures SameElsewhere(reg, MessageStep<D, M>(reg, path, c, Notify(data)).reg, path)
    ensures path in MessageStep<D, M>(reg, path, c, Notify(data)).reg
    ensures var s := SpaceAt(reg, path);
            MessageStep<D, M>(reg, path, c, Notify(data)).reg[path]
              == if s.GetOther(c).Some? then s else SpaceState(s.requests, s.pending + [Pending(c, data)])
  {
  }
}
