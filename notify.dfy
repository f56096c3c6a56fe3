/**
  The relay server's state and its four hooks, as the transport calls them:
  the table of live spaces (space objects changed in place) and the log of
  everything sent or closed on the connections.
 */
module Notify {
  import opened Options
  import opened Spaces
  import opened Messages
  import opened Signaling

  class Notifier<D, M> {
    /** The table from path to space object. */
    var spaces: map<Path, Space<D>>
    /** Every message sent and every connection closed so far, in order. */
    var log: seq<Event<D, M>>

    /** Each space is stored under its own path, so distinct paths hold distinct spaces. */
    ghost predicate Valid()
      reads this
    {
      forall p :: p in spaces ==> spaces[p].path == p
    }

    /** The table as values. */
    ghost function Registry(): Registry<D>
      reads this, spaces.Values
    {
      map p | p in spaces :: spaces[p].Value()
    }

    constructor ()
      ensures Valid()
      ensures Registry() == map[] && log == []
    {
      spaces := map[];
      log := [];
    }

    /** Refuses the connection exactly when its path already holds a full space; changes nothing. */
    method OnHandshake(path: Path) returns (accepted: bool)
      requires Valid()
      ensures accepted <==> Admits(Registry(), path)
    {
      accepted := true;
      if path in spaces {
        var space := spaces[path];
        if space.Value().IsFull() {
          accepted := false;
        }
      }
    }

    /** The space registered at `path`, created and registered when there is none. */
    method SpaceFor(path: Path) returns (space: Space<D>)
      requires Valid()
      modifies this`spaces
      ensures Valid()
      ensures spaces == old(spaces)[path := space]
      ensures space.Value() == SpaceAt(old(Registry()), path)
      ensures path in old(spaces) ==> space == old(spaces)[path]
      ensures path !in old(spaces) ==> fresh(space)
    {
      if path in spaces {
        space := spaces[path];
      } else {
        space := new Space(path);
        spaces := spaces[path := space];
      }
    }

    /** Sends every queued payload to `c` as a NOTIFY, oldest first. */
    method SendAll(c: Conn, queue: seq<Pending<D>>)
      modifies this`log
      ensures log == old(log) + Flush(c, queue)
    {
      var i := 0;
      while i < |queue|
        invariant 0 <= i <= |queue|
        invariant log == old(log) + Flush(c, queue[..i])
      {
        assert queue[..i + 1][..i] == queue[..i];
        log := log + [Send(c, Relay(queue[i].data))];
        i := i + 1;
      }
      assert queue[..i] == queue;
    }

    method OnOpen(path: Path, c: Conn)
      requires Valid()
      modifies this, spaces.Values
      ensures Valid()
      ensures Registry() == OpenStep<D, M>(old(Registry()), path, c).reg
      ensures log == old(log) + OpenStep<D, M>(old(Registry()), path, c).events
    {
      var space := SpaceFor(path);
      space.Add(c);

      var queue := space.pending;
      SendAll(c, queue);
      space.pending := [];

      forall p | p in old(spaces) && p != path
        ensures p in spaces && spaces[p] == old(spaces)[p] && unchanged(spaces[p])
      {
        assert spaces[p] != space;
      }
      OpenStepAt<D, M>(old(Registry()), path, c);
      SameRegistry(Registry(), OpenStep<D, M>(old(Registry()), path, c).reg, path);
    }

    method OnClose(path: Path, c: Conn)
      requires Valid()
      modifies this, spaces.Values
      ensures Valid()
      ensures Registry() == CloseStep<D, M>(old(Registry()), path, c).reg
      ensures log == old(log) + CloseStep<D, M>(old(Registry()), path, c).events
    {
      if path in spaces {
        var space := spaces[path];
        var other := space.Value().GetOther(c);
        space.Remove(c);
        if other.Some? {
          space.Remove(other.value);
          log := log + [CloseConn(other.value)];
        }
        if space.Value().IsEmpty() {
          spaces := spaces - {path};
        }
        forall p | p in old(spaces) && p != path
          ensures p in spaces && spaces[p] == old(spaces)[p] && unchanged(spaces[p])
        {
          assert spaces[p] != space;
        }
        CloseStepAt<D, M>(old(Registry()), path, c);
        SameRegistry(Registry(), CloseStep<D, M>(old(Registry()), path, c).reg, path);
      }
    }

    method OnMessage(path: Path, c: Conn, msg: InMsg<D, M>)
      requires Valid()
      modifies this, spaces.Values
      ensures Valid()
      ensures Registry() == MessageStep(old(Registry()), path, c, msg).reg
      ensures log == old(log) + MessageStep(old(Registry()), path, c, msg).events
    {
      match msg
      case Get(resource, msgId) =>
        if resource == PeerConnectionResource {
          log := log + [Send(c, ConfigResponse(msgId))];
        }
      case Notify(data) =>
        var space := SpaceFor(path);
        var other := space.Value().GetOther(c);
        if other.Some? {
          log := log + [Send(other.value, Relay(data))];
        } else {
          space.pending := space.pending + [Pending(c, data)];
        }
        forall p | p in old(spaces) && p != path
          ensures p in spaces && spaces[p] == old(spaces)[p] && unchanged(spaces[p])
        {
          assert spaces[p] != space;
        }
        NotifyStepAt<D, M>(old(Registry()), path, c, data);
        SameRegistry(Registry(), MessageStep<D, M>(old(Registry()), path, c, msg).reg, path);
      case OtherMethod(_) =>
    }
  }
}
