/**
 Who removes a stream from the server's table (finish and endRequestBody in
 internal/http2x/serve.go), at the granularity of lock sections.

 The read loop is one thread. Every stream has a handler thread, which may first force the
 stream closed and always ends with finish(id, force). finish without force reads the body's
 closed flag, sets handlerDone and reads the flag again, all inside one section of the table
 lock; the body has its own lock, so it can be closed between the two reads. endRequestBody
 closes the body, then looks at handlerDone under the table lock, then forces the removal: three
 separate steps.
 */
module Teardown {

  type Id = nat

  /** Where a handler thread is: `Rechecking` holds the table lock between finish's two reads. */
  datatype Handler = Working | Rechecking | Returned

  datatype Reader = Idle | Closing(id: Id) | Checking(id: Id) | Forcing(id: Id)

  /** `removed` counts removals per stream, and `ended` the streams whose endRequestBody completed or whose
      opening HEADERS carried END_STREAM; both are history. */
  datatype Table = Table(
    streams: set<Id>,
    handlerDone: set<Id>,
    closed: set<Id>,
    open: int,
    maxStreams: nat,
    lastID: Id,
    handlers: map<Id, Handler>,
    reader: Reader,
    locked: bool,
    removed: map<Id, nat>,
    ended: set<Id>)

  datatype Event =
    | Opens(id: Id, end: bool)
    | ResetArrives(id: Id)
    | BodyEnds(id: Id)
    | ReaderSteps
    | ConsumerCloses(id: Id)
    | HandlerForces(id: Id)
    | HandlerFinishes(id: Id, force: bool)
    | HandlerRechecks(id: Id)

  predicate Initial(t: Table) {
    && t.streams == t.handlerDone == t.closed == t.ended == {}
    && t.open == 0 && t.lastID == 0
    && t.handlers == map[] && t.reader == Idle && !t.locked && t.removed == map[]
  }

  /** The locked tail of finish. */
  function Remove(t: Table, id: Id): Table {
    if id in t.streams && id in t.removed then
      t.(streams := t.streams - {id},
         handlerDone := t.handlerDone - {id},
         closed := t.closed + {id},
         open := if t.open > 0 then t.open - 1 else t.open,
         removed := t.removed[id := t.removed[id] + 1])
    else t
  }

  function SetHandler(t: Table, id: Id, h: Handler): Table {
    t.(handlers := t.handlers[id := h])
  }

  function ReaderStep(t: Table): Table {
    match t.reader
    case Idle => t
    case Closing(id) => t.(closed := t.closed + {id}, reader := Checking(id))
    case Checking(id) =>
      if t.locked then t
      else if id in t.streams && id in t.handlerDone then t.(reader := Forcing(id))
      else t.(reader := Idle, ended := t.ended + {id})
    case Forcing(id) =>
      if t.locked then t else Remove(t, id).(reader := Idle, ended := t.ended + {id})
  }

  function HandlerFinish(t: Table, id: Id, force: bool): Table {
    if force || id !in t.streams || id in t.closed then SetHandler(Remove(t, id), id, Returned)
    else SetHandler(t, id, Rechecking).(locked := true)
  }

  function HandlerRecheck(t: Table, id: Id): Table {
    var t' := t.(handlerDone := t.handlerDone + {id}, locked := false);
    if id in t.closed then SetHandler(Remove(t', id), id, Returned) else SetHandler(t', id, Returned)
  }

  /** A step whose guard fails waits: it leaves the state alone. */
  function Step(t: Table, e: Event): Table {
    match e
    case Opens(id, end) =>
      if t.reader == Idle && !t.locked && id > t.lastID && t.open < t.maxStreams then
        t.(streams := t.streams + {id}, lastID := id, open := t.open + 1,
           handlers := t.handlers[id := Working], removed := t.removed[id := 0],
           closed := if end then t.closed + {id} else t.closed,
           ended := if end then t.ended + {id} else t.ended)
      else t
    case ResetArrives(id) => if t.reader == Idle && !t.locked then Remove(t, id) else t
    case BodyEnds(id) => if t.reader == Idle && id in t.streams then t.(reader := Closing(id)) else t
    case ReaderSteps => ReaderStep(t)
    case ConsumerCloses(id) => if id in t.handlers then t.(closed := t.closed + {id}) else t
    case HandlerForces(id) => if Runs(t, id, Working) && !t.locked then Remove(t, id) else t
    case HandlerFinishes(id, force) => if Runs(t, id, Working) && !t.locked then HandlerFinish(t, id, force) else t
    case HandlerRechecks(id) => if Runs(t, id, Rechecking) then HandlerRecheck(t, id) else t
  }

  predicate Runs(t: Table, id: Id, h: Handler) {
    id in t.handlers && t.handlers[id] == h
  }

  function Run(t: Table, es: seq<Event>): Table
    decreases |es|
  {
    if es == [] then t else Step(Run(t, es[..|es| - 1]), es[|es| - 1])
  }

  // ---------------------------------------------------------------- invariant

  /** One opened stream: removed at most once and exactly when it is out of the table; a returned
      handler left its mark; an ended body is closed, and then only a working handler can still
      find the stream, which it will remove on sight. */
  ghost predicate StreamOk(t: Table, id: Id) {
    && id in t.handlers && id in t.removed
    && t.removed[id] == (if id in t.streams then 0 else 1)
    && (id in t.streams && t.handlers[id] == Returned ==> id in t.handlerDone)
    && (id in t.ended ==> id in t.closed)
    && (id in t.ended && id in t.streams ==> t.handlers[id] == Working)
    && (t.handlers[id] == Rechecking ==> t.locked && id in t.streams)
  }

  ghost predicate Inv(t: Table) {
    && t.open == |t.streams| <= t.maxStreams
    && t.handlers.Keys == t.removed.Keys
    && t.streams <= t.handlers.Keys && t.ended <= t.handlers.Keys
    && (forall id | id in t.handlers :: id <= t.lastID && StreamOk(t, id))
    && (forall a, b | a in t.handlers && b in t.handlers && t.handlers[a] == Rechecking == t.handlers[b] :: a == b)
    && ReaderOk(t)
  }

  ghost predicate ReaderOk(t: Table) {
    match t.reader
    case Idle => true
    case Closing(id) => id in t.handlers
    case Checking(id) => id in t.handlers && id in t.closed
    case Forcing(id) => id in t.handlers && id in t.closed
  }

  lemma RemoveInv(t: Table, id: Id)
    requires Inv(t) && !t.locked
    ensures Inv(Remove(t, id)) && id !in Remove(t, id).streams
  {
    var t' := Remove(t, id);
    forall i | i in t'.handlers
      ensures StreamOk(t', i)
    {
      assert StreamOk(t, i);
    }
  }

  lemma OpenInv(t: Table, id: Id)
    requires Inv(t)
    ensures Inv(Step(t, Opens(id, false)))
  {
    var t' := Step(t, Opens(id, false));
    assert id in t.handlers ==> id <= t.lastID;
    forall i | i in t'.handlers
      ensures i <= t'.lastID && StreamOk(t', i)
    {
      if i in t.handlers {
        assert StreamOk(t, i);
      }
    }
  }

  /** A body that ends with the opening HEADERS. */
  lemma EndInv(t: Table, id: Id)
    requires Inv(t) && Runs(t, id, Working)
    ensures Inv(t.(closed := t.closed + {id}, ended := t.ended + {id}))
  {
    var t' := t.(closed := t.closed + {id}, ended := t.ended + {id});
    forall i | i in t'.handlers
      ensures StreamOk(t', i)
    {
      assert StreamOk(t, i);
    }
  }

  lemma OpensInv(t: Table, id: Id, end: bool)
    requires Inv(t)
    ensures Inv(Step(t, Opens(id, end)))
  {
    OpenInv(t, id);
    var t' := Step(t, Opens(id, false));
    hide Inv;
    if end && t' != t {
      EndInv(t', id);
    }
  }

  lemma ReaderStepInv(t: Table)
    requires Inv(t)
    ensures Inv(ReaderStep(t))
  {
    var t' := ReaderStep(t);
    if t.reader.Forcing? && !t.locked {
      RemoveInv(t, t.reader.id);
      var u := Remove(t, t.reader.id);
      forall i | i in t'.handlers
        ensures StreamOk(t', i)
      {
        assert StreamOk(u, i);
      }
    } else {
      forall i | i in t'.handlers
        ensures StreamOk(t', i)
      {
        assert StreamOk(t, i);
      }
    }
  }

  lemma CloseInv(t: Table, id: Id)
    requires Inv(t) && id in t.handlers
    ensures Inv(t.(closed := t.closed + {id}))
  {
    var t' := t.(closed := t.closed + {id});
    forall i | i in t'.handlers
      ensures StreamOk(t', i)
    {
      assert StreamOk(t, i);
    }
  }

  lemma ReturnedInv(t: Table, id: Id)
    requires Inv(t) && Runs(t, id, Working) && !t.locked && id !in t.streams
    ensures Inv(SetHandler(t, id, Returned))
  {
    var t' := SetHandler(t, id, Returned);
    assert t'.handlers.Keys == t.handlers.Keys;
    forall i | i in t'.handlers ensures StreamOk(t', i) {
      assert StreamOk(t, i);
    }
  }

  lemma RecheckingInv(t: Table, id: Id)
    requires Inv(t) && Runs(t, id, Working) && !t.locked && id in t.streams && id !in t.closed
    ensures Inv(SetHandler(t, id, Rechecking).(locked := true))
  {
    var t' := SetHandler(t, id, Rechecking).(locked := true);
    assert t'.handlers.Keys == t.handlers.Keys;
    forall i | i in t'.handlers ensures StreamOk(t', i) {
      assert StreamOk(t, i);
    }
  }

  lemma HandlerFinishInv(t: Table, id: Id, force: bool)
    requires Inv(t) && Runs(t, id, Working) && !t.locked
    ensures Inv(HandlerFinish(t, id, force))
  {
    if force || id !in t.streams || id in t.closed {
      RemoveInv(t, id);
      ReturnedInv(Remove(t, id), id);
    } else {
      RecheckingInv(t, id);
    }
  }

  lemma HandlerRecheckInv(t: Table, id: Id)
    requires Inv(t) && Runs(t, id, Rechecking)
    ensures Inv(HandlerRecheck(t, id))
  {
    var t' := HandlerRecheck(t, id);
    assert StreamOk(t, id);
    assert t'.handlers.Keys == t.handlers.Keys;
    forall i | i in t'.handlers
      ensures StreamOk(t', i)
    {
      assert StreamOk(t, i);
    }
  }

  lemma BodyEndsInv(t: Table, id: Id)
    requires Inv(t)
    ensures Inv(Step(t, BodyEnds(id)))
  {
    var t' := Step(t, BodyEnds(id));
    forall i | i in t'.handlers
      ensures StreamOk(t', i)
    {
      assert StreamOk(t, i);
    }
  }

  lemma StepInv(t: Table, e: Event)
    requires Inv(t)
    ensures Inv(Step(t, e))
  {
    hide Inv;
    match e
    case Opens(id, end) => OpensInv(t, id, end);
    case ResetArrives(id) => if !t.locked { RemoveInv(t, id); }
    case BodyEnds(id) => BodyEndsInv(t, id);
    case ReaderSteps => ReaderStepInv(t);
    case ConsumerCloses(id) => if id in t.handlers { CloseInv(t, id); }
    case HandlerForces(id) => if !t.locked { RemoveInv(t, id); }
    case HandlerFinishes(id, force) => if Runs(t, id, Working) && !t.locked { HandlerFinishInv(t, id, force); }
    case HandlerRechecks(id) => if Runs(t, id, Rechecking) { HandlerRecheckInv(t, id); }
  }

  lemma {:induction false} RunInv(t: Table, es: seq<Event>)
    requires Initial(t)
    ensures Inv(Run(t, es))
    decreases |es|
  {
    if es != [] {
      RunInv(t, es[..|es| - 1]);
      StepInv(Run(t, es[..|es| - 1]), es[|es| - 1]);
    }
  }

  /** Exactly-once teardown: in every interleaving, `open` counts the table and respects the
      limit, no stream is removed twice, and a stream whose handler returned and whose request
      body ended has been removed exactly once. */
  lemma ExactlyOnceTeardown(t: Table, es: seq<Event>)
    requires Initial(t)
    ensures
      var s := Run(t, es);
      && s.open == |s.streams| <= s.maxStreams
      && (forall id | id in s.handlers ::
            && id in s.removed && s.removed[id] <= 1
            && (id in s.streams <==> s.removed[id] == 0)
            && (s.handlers[id] == Returned && id in s.ended ==> s.removed[id] == 1))
  {
    RunInv(t, es);
    var s := Run(t, es);
    forall id | id in s.handlers
      ensures
        && id in s.removed && s.removed[id] <= 1
        && (id in s.streams <==> s.removed[id] == 0)
        && (s.handlers[id] == Returned && id in s.ended ==> s.removed[id] == 1)
    {
      assert StreamOk(s, id);
    }
  }
}
