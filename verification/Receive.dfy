/**
 The receive half that both sides of the proxy share (internal/http2x): the receive
 windows, the buffered bodies of live streams, and the bodies that left the stream table
 but still have a reader.

 `received` and `credited` are history: bytes charged to the connection receive window,
 and bytes given back to it by WINDOW_UPDATE.
 */
module Receive {
  import opened B = Bytes
  import opened Windows

  /** Bodies in the stream table, and bodies that left it. */
  datatype Held = Held(bodies: map<Id, Body>, detached: map<Id, Body>)

  datatype Recv = Recv(
    inbound: InWindow,
    held: Held,
    received: nat,
    credited: nat)

  predicate IsNew(r: Recv) {
    && r.inbound.conn == INITIAL_WINDOW && r.inbound.stream == map[]
    && r.held.bodies == map[] && r.held.detached == map[]
    && r.received == r.credited == 0
  }

  /** credit, and with id 0 creditConn. */
  function Credit(r: Recv, id: Id, n: nat): Recv {
    r.(inbound := InCredit(r.inbound, id, n), credited := r.credited + n)
  }

  function Open(r: Recv, id: Id, body: Body): Recv {
    r.(inbound := InOpen(r.inbound, id), held := r.held.(bodies := r.held.bodies[id := body]))
  }

  /** Teardown of a live stream: unread bytes go back to the connection window once, the body is
      closed but stays readable, and the stream window is forgotten. */
  function Drop(r: Recv, id: Id): Recv {
    if id !in r.held.bodies then r.(inbound := InForget(r.inbound, id))
    else
      var body := r.held.bodies[id];
      Recv(InCredit(InForget(r.inbound, id), 0, ReleaseCredit(body)),
           Held(r.held.bodies - {id}, r.held.detached[id := BodyClose(BodyRelease(body))]),
           r.received,
           r.credited + ReleaseCredit(body))
  }

  function CloseBody(r: Recv, id: Id): Recv {
    if id in r.held.bodies then r.(held := r.held.(bodies := r.held.bodies[id := BodyClose(r.held.bodies[id])]))
    else if id in r.held.detached then
      r.(held := r.held.(detached := r.held.detached[id := BodyClose(r.held.detached[id])]))
    else r
  }

  /** The consumer of a body reads up to `room` bytes; onRead credits them unless they were released. */
  function ReadBody(r: Recv, id: Id, room: nat): Recv {
    if id in r.held.bodies then
      var body := r.held.bodies[id];
      Credit(r.(held := r.held.(bodies := r.held.bodies[id := BodyRead(body, room)])), id, ReadCredit(body, room))
    else if id in r.held.detached then
      var body := r.held.detached[id];
      Credit(r.(held := r.held.(detached := r.held.detached[id := BodyRead(body, room)])), id, ReadCredit(body, room))
    else r
  }

  /** What a DATA frame does to the windows: `Fatal` ends the connection, `Refused` asks the caller
      to tear the stream down, `Stray` is a frame for a stream that has no body. */
  datatype DataOutcome = Fatal | Refused | Stray | Buffered

  function Charge(r: Recv, id: Id, n: nat): Recv {
    r.(inbound := InTaken(r.inbound, id, n), received := r.received + n)
  }

  /** A charge handed straight back to the connection window. */
  function Return(r: Recv, id: Id, n: nat): Recv {
    r.(inbound := InCredit(InTaken(r.inbound, id, n), 0, n), received := r.received + n, credited := r.credited + n)
  }

  /** How inFlow.take and bodyBuf.Write answer a DATA frame of wire length `n`, which counts the
      padding: the windows are charged for that too. */
  function Verdict(r: Recv, id: Id, payload: seq<Byte>, n: nat): DataOutcome {
    var taken := InVerdict(r.inbound, id, n);
    if taken.ConnectionError? then Fatal
    else if taken.StreamError? then Refused
    else if id !in r.held.bodies then Stray
    else if !BodyAccepts(r.held.bodies[id], payload) then Refused
    else Buffered
  }

  /** An accepted frame: payload buffered, padding credited at once. */
  function Buffer(r: Recv, id: Id, payload: seq<Byte>, n: nat): Recv
    requires id in r.held.bodies && |payload| <= n
  {
    var body := BodyWrite(r.held.bodies[id], payload);
    Credit(Charge(r, id, n).(held := r.held.(bodies := r.held.bodies[id := body])), id, n - |payload|)
  }

  /** The connection dies: bodies are closed but not released. */
  function Abandon(r: Recv): Recv {
    r.(inbound := r.inbound.(stream := map[]),
       held := Held(map[], r.held.detached + Closed(r.held.bodies)))
  }

  function Closed(bodies: map<Id, Body>): map<Id, Body> {
    map id | id in bodies :: BodyClose(bodies[id])
  }

  // ---------------------------------------------------------------- conservation

  /** The buffered bytes of live streams, one element per byte: stream id and offset. */
  ghost function Pending(bodies: map<Id, Body>): set<(Id, int)> {
    set id, k | id in bodies && 0 <= k < |bodies[id].buf| :: (id, k)
  }

  /** How many bytes are buffered for live streams and not yet credited. */
  ghost function Unread(bodies: map<Id, Body>): nat {
    |Pending(bodies)|
  }

  ghost function Bytes(id: Id, n: nat): set<(Id, int)> {
    set k | 0 <= k < n :: (id, k)
  }

  lemma {:induction false} BytesCount(id: Id, n: nat)
    ensures |Bytes(id, n)| == n
  {
    if n > 0 {
      BytesCount(id, n - 1);
      assert Bytes(id, n) == Bytes(id, n - 1) + {(id, n - 1)};
    }
  }

  lemma UnreadDrop(bodies: map<Id, Body>, id: Id)
    requires id in bodies
    ensures Unread(bodies) == |bodies[id].buf| + Unread(bodies - {id})
  {
    BytesCount(id, |bodies[id].buf|);
    assert Pending(bodies) == Pending(bodies - {id}) + Bytes(id, |bodies[id].buf|);
  }

  lemma UnreadSet(bodies: map<Id, Body>, id: Id, b: Body)
    ensures id in bodies ==> Unread(bodies[id := b]) == Unread(bodies) - |bodies[id].buf| + |b.buf|
    ensures id !in bodies ==> Unread(bodies[id := b]) == Unread(bodies) + |b.buf|
  {
    UnreadDrop(bodies[id := b], id);
    if id in bodies {
      UnreadDrop(bodies, id);
      assert bodies[id := b] - {id} == bodies - {id};
    } else {
      assert bodies[id := b] - {id} == bodies;
    }
  }

  lemma UnreadEmpty()
    ensures Unread(map[]) == 0
  {
    assert Pending(map[]) == {};
  }

  /** Every byte charged to the connection is either credited back or unread in a live body. */
  ghost predicate Conserved(r: Recv) {
    && 0 <= r.inbound.conn
    && r.inbound.conn + Unread(r.held.bodies) == INITIAL_WINDOW
    && r.received == r.credited + Unread(r.held.bodies)
  }

  ghost predicate Released(r: Recv) {
    && (forall id | id in r.held.bodies :: !r.held.bodies[id].released)
    && (forall id | id in r.held.detached :: r.held.detached[id].released)
    && (forall id | id in r.held.bodies :: id !in r.held.detached)
    && 0 !in r.held.bodies && 0 !in r.held.detached
  }

  /** The stream window and the unread bytes of a live stream make up the initial window. */
  ghost predicate StreamConserved(r: Recv, id: Id) {
    id in r.held.bodies ==> id in r.inbound.stream && r.inbound.stream[id] + |r.held.bodies[id].buf| == INITIAL_WINDOW
  }

  ghost predicate StreamsConserved(r: Recv, except: set<Id>) {
    forall id | id in r.held.bodies && id !in except :: StreamConserved(r, id)
  }

  ghost predicate Sound(r: Recv, except: set<Id>) {
    Conserved(r) && Released(r) && StreamsConserved(r, except)
  }

  lemma NewSound(r: Recv)
    requires IsNew(r)
    ensures Sound(r, {})
  {
    UnreadEmpty();
  }

  lemma DropSound(r: Recv, id: Id, except: set<Id>)
    requires Conserved(r) && Released(r) && StreamsConserved(r, except + {id})
    ensures Sound(Drop(r, id), except)
  {
    if id in r.held.bodies {
      UnreadDrop(r.held.bodies, id);
    }
    var r' := Drop(r, id);
    forall i | i in r'.held.bodies && i !in except
      ensures StreamConserved(r', i)
    {
      assert StreamConserved(r, i);
    }
  }

  lemma OpenSound(r: Recv, id: Id, body: Body, except: set<Id>)
    requires Sound(r, except) && id != 0 && id !in r.held.bodies && id !in r.held.detached
    requires body.buf == [] && !body.released
    ensures Sound(Open(r, id, body), except)
  {
    UnreadSet(r.held.bodies, id, body);
    var r' := Open(r, id, body);
    forall i | i in r'.held.bodies && i !in except
      ensures StreamConserved(r', i)
    {
      assert StreamConserved(r, i);
    }
  }

  lemma CloseBodySound(r: Recv, id: Id, except: set<Id>)
    requires Sound(r, except)
    ensures Sound(CloseBody(r, id), except)
  {
    var r' := CloseBody(r, id);
    if id in r.held.bodies {
      UnreadSet(r.held.bodies, id, BodyClose(r.held.bodies[id]));
    }
    forall i | i in r'.held.bodies && i !in except
      ensures StreamConserved(r', i)
    {
      assert StreamConserved(r, i);
    }
  }

  lemma ReadBodySound(r: Recv, id: Id, room: nat, except: set<Id>)
    requires Sound(r, except)
    ensures Sound(ReadBody(r, id, room), except)
  {
    var r' := ReadBody(r, id, room);
    if id in r.held.bodies {
      UnreadSet(r.held.bodies, id, BodyRead(r.held.bodies[id], room));
    }
    forall i | i in r'.held.bodies && i !in except
      ensures StreamConserved(r', i)
    {
      assert StreamConserved(r, i);
    }
  }

  /** A charge handed straight back to the connection window only disturbs the frame's own stream window. */
  lemma ReturnSound(r: Recv, id: Id, n: nat, except: set<Id>)
    requires Sound(r, except) && n <= r.inbound.conn
    ensures
      var r' := Return(r, id, n);
      && Conserved(r') && Released(r') && StreamsConserved(r', except + {id})
      && (id !in r.held.bodies ==> StreamsConserved(r', except))
  {
    var r' := Return(r, id, n);
    assert r'.inbound.conn == r.inbound.conn;
    forall i | i in r'.held.bodies && i !in except && i != id
      ensures StreamConserved(r', i)
    {
      assert StreamConserved(r, i);
    }
  }

  /** A charge handed back to both windows changes neither. */
  lemma ReturnBothSound(r: Recv, id: Id, n: nat, except: set<Id>)
    requires Sound(r, except) && InVerdict(r.inbound, id, n).Accepted?
    ensures
      var r' := Credit(Charge(r, id, n), id, n);
      Sound(r', except) && r'.inbound == r.inbound
  {
    var r' := Credit(Charge(r, id, n), id, n);
    if id in r.inbound.stream {
      assert r'.inbound.stream == r.inbound.stream;
    }
    assert r' == r.(received := r.received + n, credited := r.credited + n);
    forall i | i in r'.held.bodies && i !in except
      ensures StreamConserved(r', i)
    {
      assert StreamConserved(r, i);
    }
  }

  lemma BufferedSound(r: Recv, id: Id, payload: seq<Byte>, n: nat, except: set<Id>)
    requires Sound(r, except) && |payload| <= n
    requires Verdict(r, id, payload, n).Buffered?
    ensures Sound(Buffer(r, id, payload, n), except)
  {
    var r' := Buffer(r, id, payload, n);
    var body := BodyWrite(r.held.bodies[id], payload);
    assert body.buf == r.held.bodies[id].buf + payload;
    UnreadSet(r.held.bodies, id, body);
    forall i | i in r'.held.bodies && i !in except
      ensures StreamConserved(r', i)
    {
      assert StreamConserved(r, i);
    }
  }
}
