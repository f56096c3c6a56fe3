/**
  A space is the pairing slot of one call path: the connections that joined
  it, in joining order, and the NOTIFY payloads queued while no peer was there.
 */
module Spaces {
  import opened Options

  /** A connection, identified by an id (the server compares connection objects). */
  type Conn = int

  /** The request path that names a call, such as "/call/1234". */
  type Path = string

  /** The number of members at which a space counts as full. */
  const Capacity := 2

  /** An undelivered NOTIFY payload together with the connection that sent it. */
  datatype Pending<D> = Pending(sender: Conn, data: D)

  /** The contents of a space as a value. */
  datatype SpaceState<D> = SpaceState(requests: seq<Conn>, pending: seq<Pending<D>>)
  {
    /** No further member fits. */
    predicate IsFull()
      ensures IsFull() <==> |requests| >= Capacity
    {
      |requests| >= Capacity
    }

    predicate IsEmpty()
      ensures IsEmpty() <==> requests == []
    {
      |requests| == 0
    }

    /** The peer of `c`: the first member that is not `c`. */
    function GetOther(c: Conn): (r: Option<Conn>)
      ensures r.None? <==> forall i :: 0 <= i < |requests| ==> requests[i] == c
      ensures r.Some? ==> r.value in requests && r.value != c
    {
      FirstOther(requests, c)
    }

    /** The space with `c` detached and its queued payloads discarded. */
    function Removed(c: Conn): (r: SpaceState<D>)
      ensures c !in requests ==> r.requests == requests
      ensures |r.requests| == if c in requests then |requests| - 1 else |requests|
      ensures forall i :: 0 <= i < |r.pending| ==> r.pending[i] in pending && r.pending[i].sender != c
      ensures forall i :: 0 <= i < |pending| && pending[i].sender != c ==> pending[i] in r.pending
    {
      SpaceState(RemoveFirst(requests, c), WithoutSender(pending, c))
    }
  }

  function EmptySpace<D>(): SpaceState<D>
  {
    SpaceState([], [])
  }

  /** The first element of `s` different from `c`, if any. */
  function FirstOther(s: seq<Conn>, c: Conn): (r: Option<Conn>)
    ensures r.None? <==> forall i :: 0 <= i < |s| ==> s[i] == c
    ensures r.Some? ==> r.value in s && r.value != c
  {
    if s == [] then None
    else if s[0] != c then Some(s[0])
    else FirstOther(s[1..], c)
  }

  /** `s` without its first occurrence of `c`; `s` itself when `c` does not occur. */
  function RemoveFirst(s: seq<Conn>, c: Conn): (r: seq<Conn>)
    ensures c !in s ==> r == s
    ensures |r| == if c in s then |s| - 1 else |s|
  {
    if s == [] then []
    else if s[0] == c then s[1..]
    else [s[0]] + RemoveFirst(s[1..], c)
  }

  /** Exactly one `c` is taken out when there is one, and nothing else. */
  lemma {:induction false} RemoveFirstMultiset(s: seq<Conn>, c: Conn)
    ensures multiset(RemoveFirst(s, c)) == multiset(s) - multiset{c}
  {
    if s != [] {
      assert s == [s[0]] + s[1..];
      RemoveFirstMultiset(s[1..], c);
    }
  }

  /** The queue without the entries sent by `c`, the others in their original order. */
  function WithoutSender<D>(q: seq<Pending<D>>, c: Conn): (r: seq<Pending<D>>)
    ensures |r| <= |q|
    ensures forall i :: 0 <= i < |r| ==> r[i] in q && r[i].sender != c
    ensures forall i :: 0 <= i < |q| && q[i].sender != c ==> q[i] in r
  {
    if q == [] then []
    else
      var last := q[|q| - 1];
      assert q == q[..|q| - 1] + [last];
      WithoutSender(q[..|q| - 1], c) + (if last.sender != c then [last] else [])
  }

  /** The peer found is the first member different from `c`. */
  lemma {:induction false} FirstOtherIsFirst(s: seq<Conn>, c: Conn, i: nat)
    requires i < |s| && s[i] != c
    requires forall j :: 0 <= j < i ==> s[j] == c
    ensures FirstOther(s, c) == Some(s[i])
  {
    if i > 0 {
      FirstOtherIsFirst(s[1..], c, i - 1);
    }
  }

  /** Removing the first occurrence cuts exactly that position out. */
  lemma {:induction false} RemoveFirstAt(s: seq<Conn>, c: Conn, i: nat)
    requires i < |s| && s[i] == c
    requires forall j :: 0 <= j < i ==> s[j] != c
    ensures RemoveFirst(s, c) == s[..i] + s[i + 1..]
  {
    if i > 0 {
      RemoveFirstAt(s[1..], c, i - 1);
      assert s[..i] == [s[0]] + s[1..][..i - 1];
      assert s[i + 1..] == s[1..][i..];
    }
  }

  /** Filtering a queue keeps FIFO order: it distributes over concatenation. */
  lemma {:induction false} WithoutSenderAppend<D>(a: seq<Pending<D>>, b: seq<Pending<D>>, c: Conn)
    ensures WithoutSender(a + b, c) == WithoutSender(a, c) + WithoutSender(b, c)
    decreases |b|
  {
    if b == [] {
      assert a + b == a;
    } else {
      var last := b[|b| - 1];
      var b' := b[..|b| - 1];
      assert (a + b)[..|a + b| - 1] == a + b';
      assert (a + b)[|a + b| - 1] == last;
      WithoutSenderAppend(a, b', c);
    }
  }

  /** A queue holding nothing from `c` is left as it is. */
  lemma {:induction false} WithoutAbsentSender<D>(q: seq<Pending<D>>, c: Conn)
    requires forall i :: 0 <= i < |q| ==> q[i].sender != c
    ensures WithoutSender(q, c) == q
  {
    if q != [] {
      WithoutAbsentSender(q[..|q| - 1], c);
      assert q == q[..|q| - 1] + [q[|q| - 1]];
    }
  }

  /** A queue holding only entries from `c` is emptied. */
  lemma {:induction false} WithoutOnlySender<D>(q: seq<Pending<D>>, c: Conn)
    requires forall i :: 0 <= i < |q| ==> q[i].sender == c
    ensures WithoutSender(q, c) == []
  {
    if q != [] {
      WithoutOnlySender(q[..|q| - 1], c);
    }
  }

  /** The space object of one path; `add` and `remove` change it in place. */
  class Space<D> {
    const path: Path
    var requests: seq<Conn>
    var pending: seq<Pending<D>>

    function Value(): SpaceState<D>
      reads this
    {
      SpaceState(requests, pending)
    }

    constructor (path: Path)
      ensures this.path == path
      ensures Value() == EmptySpace()
    {
      this.path := path;
      requests := [];
      pending := [];
    }

    /** Appends `c` to the members; the queue is untouched. */
    method Add(c: Conn)
      modifies this
      ensures requests == old(requests) + [c]
      ensures pending == old(pending)
    {
      requests := requests + [c];
    }

    /**
      Detaches `c` (its first occurrence; nothing when it is not a member)
      and discards every queued payload that `c` sent.
     */
    method Remove(c: Conn)
      modifies this
      ensures requests == RemoveFirst(old(requests), c)
      ensures pending == WithoutSender(old(pending), c)
      ensures Value() == old(Value()).Removed(c)
    {
      var i := 0;
      while i < |requests| && requests[i] != c
        invariant 0 <= i <= |requests|
        invariant forall j :: 0 <= j < i ==> requests[j] != c
      {
        i := i + 1;
      }
      if i < |requests| {
        RemoveFirstAt(requests, c, i);
        requests := requests[..i] + requests[i + 1..];
      }

      var kept := [];
      var j := 0;
      while j < |pending|
        invariant 0 <= j <= |pending|
        invariant kept == WithoutSender(pending[..j], c)
      {
        assert pending[..j + 1][..j] == pending[..j];
        if pending[j].sender != c {
          kept := kept + [pending[j]];
        }
        j := j + 1;
      }
      assert pending[..j] == pending;
      pending := kept;
    }
  }
}
