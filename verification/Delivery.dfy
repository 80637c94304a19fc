/**
 The bytes of received bodies: what each operation of the receive half (module Receive) does to what
 a body still holds, live or detached, and when a DATA frame is accepted.
 */
module Delivery {
  import opened B = Bytes
  import opened Windows
  import opened Receive

  /** What a body holds that nobody has read. */
  function Left(r: Recv, id: Id): seq<Byte> {
    if id in r.held.bodies then r.held.bodies[id].buf
    else if id in r.held.detached then r.held.detached[id].buf
    else []
  }

  predicate Known(r: Recv, id: Id) {
    id in r.held.bodies || id in r.held.detached
  }

  /** A DATA frame fits the connection window and the stream window, if there is one. */
  predicate FitsWindows(r: Recv, id: Id, n: nat) {
    n <= r.inbound.conn && (id in r.inbound.stream ==> n <= r.inbound.stream[id])
  }

  /** Its payload goes to a body: the stream has one that is open, or there is nothing to write. */
  predicate Accepts(r: Recv, id: Id, payload: seq<Byte>, n: nat) {
    FitsWindows(r, id, n) && id in r.held.bodies && (payload == [] || !r.held.bodies[id].closed)
  }

  /** What of a body of this length one Read of `room` bytes takes. */
  function Front(buf: seq<Byte>, room: nat): seq<Byte> {
    buf[..if room < |buf| then room else |buf|]
  }

  lemma Reassociate(a: seq<Byte>, b: seq<Byte>, c: seq<Byte>)
    ensures a + (b + c) == a + b + c && a + [] == a
  {
  }

  // ---------------------------------------------------------------- verdicts

  /** How a DATA frame is answered, in the order of the tests. */
  lemma VerdictExactly(r: Recv, id: Id, payload: seq<Byte>, n: nat)
    ensures Verdict(r, id, payload, n).Fatal? <==> n > r.inbound.conn
    ensures Verdict(r, id, payload, n).Buffered? <==> Accepts(r, id, payload, n)
    ensures Verdict(r, id, payload, n).Stray? <==> FitsWindows(r, id, n) && id !in r.held.bodies
    ensures Verdict(r, id, payload, n).Refused? <==>
      n <= r.inbound.conn
      && (!FitsWindows(r, id, n) || (id in r.held.bodies && payload != [] && r.held.bodies[id].closed))
  {
  }

  // ---------------------------------------------------------------- operations

  /** The same bytes in every body. */
  ghost predicate SameLeft(a: Recv, b: Recv) {
    forall id :: Left(b, id) == Left(a, id) && (Known(a, id) <==> Known(b, id))
  }

  lemma WindowsKeepLeft(r: Recv, id: Id, n: nat)
    ensures SameLeft(r, Credit(r, id, n)) && SameLeft(r, Charge(r, id, n)) && SameLeft(r, Return(r, id, n))
  {
  }

  lemma DropKeepsLeft(r: Recv, id: Id)
    ensures SameLeft(r, Drop(r, id))
  {
  }

  lemma CloseKeepsLeft(r: Recv, id: Id)
    ensures SameLeft(r, CloseBody(r, id))
  {
  }

  lemma AbandonKeepsLeft(r: Recv)
    ensures SameLeft(r, Abandon(r))
  {
    var b := Abandon(r);
    forall id ensures Left(b, id) == Left(r, id) && (Known(r, id) <==> Known(b, id)) {
      assert id in r.held.bodies <==> id in Closed(r.held.bodies);
    }
  }

  lemma OpenLeft(r: Recv, id: Id, body: Body)
    requires !Known(r, id) && body.buf == []
    ensures forall x :: Left(Open(r, id, body), x) == Left(r, x)
    ensures forall x :: Known(Open(r, id, body), x) <==> Known(r, x) || x == id
  {
  }

  lemma ReadLeft(r: Recv, id: Id, room: nat)
    ensures
      var b := ReadBody(r, id, room);
      && Front(Left(r, id), room) + Left(b, id) == Left(r, id)
      && (forall x | x != id :: Left(b, x) == Left(r, x))
      && (forall x :: Known(b, x) <==> Known(r, x))
  {
  }

  lemma BufferLeft(r: Recv, id: Id, payload: seq<Byte>, n: nat)
    requires |payload| <= n && Accepts(r, id, payload, n)
    ensures
      var b := Buffer(r, id, payload, n);
      && Left(b, id) == Left(r, id) + payload
      && (forall x | x != id :: Left(b, x) == Left(r, x))
      && (forall x :: Known(b, x) <==> Known(r, x))
  {
    assert payload == [] ==> Left(r, id) + payload == Left(r, id);
  }
}
