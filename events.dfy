/**
 * Event routing of nhc/controller.py as functions on values: the effect of
 * `update_state` on the list of actions, `handle_event` (update, then
 * dispatch), and the frame loop of `_listen` over already decoded frames.
 * These are the specifications the controller's methods are proved against.
 */
module Events {
  import opened Wrappers
  import opened Json
  import opened Actions
  import opened Callbacks

  /** One action after `update_state(id, v)` visited it: only an action with that id takes the state. */
  function Touch(d: ActionData, id: Value, v: Value): (r: ActionData)
    ensures d.base.id == id ==> r.base.state == Some(v)
    ensures d.base.id != id ==> r == d
    ensures r.actionType == d.actionType && r.base.id == d.base.id
    ensures r.base.name == d.base.name && r.base.suggestedArea == d.base.suggestedArea
  {
    if d.base.id == id then d.(base := WithState(d.base, v)) else d
  }

  /** The actions after `update_state(id, v)`: same length and order, each one touched. */
  function UpdateAll(ds: seq<ActionData>, id: Value, v: Value): (r: seq<ActionData>)
    ensures |r| == |ds|
    ensures forall i :: 0 <= i < |ds| ==> r[i] == Touch(ds[i], id, v)
  {
    if ds == [] then [] else [Touch(ds[0], id, v)] + UpdateAll(ds[1..], id, v)
  }

  /** An id no action carries leaves every action as it was. */
  lemma UpdateAllUnknown(ds: seq<ActionData>, id: Value, v: Value)
    requires forall i :: 0 <= i < |ds| ==> ds[i].base.id != id
    ensures UpdateAll(ds, id, v) == ds
  {
    assert forall i :: 0 <= i < |ds| ==> UpdateAll(ds, id, v)[i] == ds[i];
  }

  /** Updating twice with the same id and value is updating once. */
  lemma UpdateAllIdempotent(ds: seq<ActionData>, id: Value, v: Value)
    ensures UpdateAll(UpdateAll(ds, id, v), id, v) == UpdateAll(ds, id, v)
  {
    var once := UpdateAll(ds, id, v);
    forall i | 0 <= i < |ds|
      ensures UpdateAll(once, id, v)[i] == once[i]
    {
      WithStateIdempotent(ds[i].base, v);
    }
  }

  /** How far a run of event handling got: the actions, the callback invocations made, and the exception that stopped it. */
  datatype Step = Step(actions: seq<ActionData>, calls: seq<Invocation>, failure: Option<Error>)

  /**
   * `handle_event(event)`: `update_state(event["id"], event["value1"])`,
   * then the dispatch of the same id and value. A missing key raises
   * before anything changes.
   */
  function HandleEvent(ds: seq<ActionData>, m: Registry, event: Value): (s: Step)
    ensures s.failure == None <==> event.Obj? && "id" in event.fields && "value1" in event.fields
    ensures s.failure == None ==>
      s.actions == UpdateAll(ds, event.fields["id"], event.fields["value1"]) &&
      s.calls == Dispatch(m, event.fields["id"], event.fields["value1"])
    ensures s.failure != None ==> s.actions == ds && s.calls == []
    ensures !event.Obj? ==> s.failure == Some(TypeError)
    ensures event.Obj? && "id" !in event.fields ==> s.failure == Some(KeyError(Str("id")))
    ensures event.Obj? && "id" in event.fields && "value1" !in event.fields ==> s.failure == Some(KeyError(Str("value1")))
  {
    match Index(event, "id")
    case Err(e) => Step(ds, [], Some(e))
    case Ok(id) =>
      match Index(event, "value1")
      case Err(e) => Step(ds, [], Some(e))
      case Ok(v) => Step(UpdateAll(ds, id, v), Dispatch(m, id, v), None)
  }

  /** Runs `rest` from where `first` ended, when `first` ended without an exception. */
  function Continue(first: Step, rest: Step): Step {
    Step(rest.actions, first.calls + rest.calls, rest.failure)
  }

  /** `for data in items: await self.handle_event(data)`, stopping at the first exception. */
  function HandleEvents(ds: seq<ActionData>, m: Registry, events: seq<Value>): (s: Step)
    ensures |s.actions| == |ds|
    decreases |events|
  {
    if events == [] then Step(ds, [], None)
    else
      var first := HandleEvent(ds, m, events[0]);
      if first.failure != None then first
      else Continue(first, HandleEvents(first.actions, m, events[1..]))
  }

  /** An element `handle_event` accepts: a dict with `id` and `value1`. */
  predicate IsEvent(event: Value) {
    event.Obj? && "id" in event.fields && "value1" in event.fields
  }

  /** A batch runs to the end exactly when every element is one `handle_event` accepts. */
  lemma {:induction false} HandleEventsSucceeds(ds: seq<ActionData>, m: Registry, events: seq<Value>)
    ensures HandleEvents(ds, m, events).failure == None <==> forall i :: 0 <= i < |events| ==> IsEvent(events[i])
    decreases |events|
  {
    if events != [] {
      var first := HandleEvent(ds, m, events[0]);
      if first.failure == None {
        HandleEventsSucceeds(first.actions, m, events[1..]);
        assert forall i :: 1 <= i < |events| ==> events[i] == events[1..][i - 1];
      }
    }
  }

  /** Handling a batch in two parts is handling the parts one after the other. */
  lemma {:induction false} HandleEventsAppend(ds: seq<ActionData>, m: Registry, a: seq<Value>, b: seq<Value>)
    requires HandleEvents(ds, m, a).failure == None
    ensures HandleEvents(ds, m, a + b) ==
      Continue(HandleEvents(ds, m, a), HandleEvents(HandleEvents(ds, m, a).actions, m, b))
    decreases |a|
  {
    if a == [] {
      assert a + b == b;
      ContinueFromStart(HandleEvents(ds, m, b));
    } else {
      var first := HandleEvent(ds, m, a[0]);
      HandleEventsUnfold(ds, m, a, b);
      HandleEventsAppend(first.actions, m, a[1..], b);
      var mid := HandleEvents(first.actions, m, a[1..]);
      ContinueAssociative(first, mid, HandleEvents(mid.actions, m, b));
    }
  }

  lemma HandleEventsUnfold(ds: seq<ActionData>, m: Registry, a: seq<Value>, b: seq<Value>)
    requires a != [] && HandleEvents(ds, m, a).failure == None
    ensures HandleEvent(ds, m, a[0]).failure == None
    ensures HandleEvents(ds, m, a) ==
      Continue(HandleEvent(ds, m, a[0]), HandleEvents(HandleEvent(ds, m, a[0]).actions, m, a[1..]))
    ensures HandleEvents(ds, m, a + b) ==
      Continue(HandleEvent(ds, m, a[0]), HandleEvents(HandleEvent(ds, m, a[0]).actions, m, a[1..] + b))
  {
    assert (a + b)[0] == a[0];
    assert (a + b)[1..] == a[1..] + b;
  }

  lemma ContinueFromStart(s: Step)
    ensures Continue(Step(s.actions, [], None), s) == s
  {
    assert [] + s.calls == s.calls;
  }

  lemma ContinueAssociative(x: Step, y: Step, z: Step)
    ensures Continue(x, Continue(y, z)) == Continue(Continue(x, y), z)
  {
    assert x.calls + (y.calls + z.calls) == (x.calls + y.calls) + z.calls;
  }

  /** An event that raises ends the batch: what came before it stands and later events are not handled. */
  lemma HandleEventsStops(ds: seq<ActionData>, m: Registry, a: seq<Value>, e: Value, b: seq<Value>)
    requires HandleEvents(ds, m, a).failure == None
    requires HandleEvent(HandleEvents(ds, m, a).actions, m, e).failure != None
    ensures HandleEvents(ds, m, a + [e] + b) ==
      Step(HandleEvents(ds, m, a).actions, HandleEvents(ds, m, a).calls,
           HandleEvent(HandleEvents(ds, m, a).actions, m, e).failure)
  {
    assert a + [e] + b == a + ([e] + b);
    HandleEventsAppend(ds, m, a, [e] + b);
  }

  /** A single event is handled exactly as `handle_event` handles it. */
  lemma HandleEventsSingle(ds: seq<ActionData>, m: Registry, e: Value)
    ensures HandleEvents(ds, m, [e]).actions == HandleEvent(ds, m, e).actions
    ensures HandleEvents(ds, m, [e]).calls == HandleEvent(ds, m, e).calls
    ensures HandleEvents(ds, m, [e]).failure == HandleEvent(ds, m, e).failure
  {
    var first := HandleEvent(ds, m, e);
    if first.failure == None {
      assert [e][1..] == [];
      assert first.calls + [] == first.calls;
    }
  }

  /** With no callback registered, handling events invokes nothing. */
  lemma {:induction false} HandleEventsNoCallbacks(ds: seq<ActionData>, events: seq<Value>)
    ensures HandleEvents(ds, map[], events).calls == []
    decreases |events|
  {
    if events != [] {
      var first := HandleEvent(ds, map[], events[0]);
      if first.failure == None {
        HandleEventsNoCallbacks(first.actions, events[1..]);
      }
    }
  }

  /**
   * The test `"event" in message and message["event"] != "startevents"` on
   * a decoded frame. `in` is key membership for a dict, element membership
   * for a list and substring search for a string, and raises TypeError for
   * anything else. When it holds for a list or a string, `message["event"]`
   * raises TypeError.
   */
  function EventTest(message: Value): (r: Result<bool, Error>)
    ensures r == Ok(true) ==> message.Obj?
    ensures message.Obj? ==> r == Ok("event" in message.fields && message.fields["event"] != Str("startevents"))
    ensures message.Null? || message.Bool? || message.Int? ==> r == Err(TypeError)
  {
    match message
    case Obj(f) => Ok("event" in f && f["event"] != Str("startevents"))
    case Arr(items) => if Str("event") in items then Err(TypeError) else Ok(false)
    case Str(s) => if Occurs("event", s) then Err(TypeError) else Ok(false)
    case _ => Err(TypeError)
  }

  /** A frame `_listen` discards: one for which the test is false, such as the `startevents` acknowledgement. */
  predicate Ignored(message: Value) {
    EventTest(message) == Ok(false)
  }

  /** One decoded frame: discarded, or each element of its `data` handled in order. */
  function HandleFrame(ds: seq<ActionData>, m: Registry, message: Value): (s: Step)
    ensures Ignored(message) ==> s == Step(ds, [], None)
    ensures EventTest(message).Err? ==> s == Step(ds, [], Some(EventTest(message).error))
    ensures EventTest(message) == Ok(true) && "data" !in message.fields ==>
      s == Step(ds, [], Some(KeyError(Str("data"))))
    ensures EventTest(message) == Ok(true) && "data" in message.fields && message.fields["data"].Arr? ==>
      s == HandleEvents(ds, m, message.fields["data"].items)
    ensures |s.actions| == |ds|
  {
    match EventTest(message)
    case Err(e) => Step(ds, [], Some(e))
    case Ok(handled) =>
      if !handled then Step(ds, [], None)
      else
        match Index(message, "data")
        case Err(e) => Step(ds, [], Some(e))
        case Ok(data) =>
          match Elements(data)
          case Err(e) => Step(ds, [], Some(e))
          case Ok(items) => HandleEvents(ds, m, items)
  }

  /**
   * Frames that are not dicts: `None`, a boolean or a number raises
   * TypeError; a string raises TypeError exactly when it contains `event`,
   * and is discarded otherwise; a list is discarded unless it holds the
   * string `"event"`.
   */
  lemma NonDictFrames(ds: seq<ActionData>, m: Registry, s: string, items: seq<Value>, i: int, b: bool)
    ensures HandleFrame(ds, m, Null).failure == Some(TypeError)
    ensures HandleFrame(ds, m, Int(i)).failure == Some(TypeError)
    ensures HandleFrame(ds, m, Bool(b)).failure == Some(TypeError)
    ensures HandleFrame(ds, m, Str(s)).failure == (if Occurs("event", s) then Some(TypeError) else None)
    ensures Str("event") !in items ==> HandleFrame(ds, m, Arr(items)) == Step(ds, [], None)
    ensures Str("event") in items ==> HandleFrame(ds, m, Arr(items)) == Step(ds, [], Some(TypeError))
  {
  }

  /** The frame loop of `_listen`: frames in arrival order, ended by the first exception. */
  function Listen(ds: seq<ActionData>, m: Registry, frames: seq<Value>): (s: Step)
    ensures |s.actions| == |ds|
    decreases |frames|
  {
    if frames == [] then Step(ds, [], None)
    else
      var first := HandleFrame(ds, m, frames[0]);
      if first.failure != None then first
      else Continue(first, Listen(first.actions, m, frames[1..]))
  }

  /** The frames `_listen` acts on. */
  function Relevant(frames: seq<Value>): (r: seq<Value>)
    ensures forall i :: 0 <= i < |r| ==> !Ignored(r[i])
    ensures |r| <= |frames|
  {
    if frames == [] then []
    else if Ignored(frames[0]) then Relevant(frames[1..])
    else [frames[0]] + Relevant(frames[1..])
  }

  /** Discarded frames change nothing: listening to all frames is listening to the relevant ones. */
  lemma {:induction false} ListenSkipsIgnored(ds: seq<ActionData>, m: Registry, frames: seq<Value>)
    ensures Listen(ds, m, frames) == Listen(ds, m, Relevant(frames))
    decreases |frames|
  {
    if frames != [] {
      ListenSkipsIgnored(ds, m, frames[1..]);
      var first := HandleFrame(ds, m, frames[0]);
      if Ignored(frames[0]) {
        var rest := Listen(ds, m, frames[1..]);
        assert [] + rest.calls == rest.calls;
      } else {
        var r := [frames[0]] + Relevant(frames[1..]);
        assert r[0] == frames[0] && r[1..] == Relevant(frames[1..]);
        if first.failure == None {
          ListenSkipsIgnored(first.actions, m, frames[1..]);
        }
      }
    }
  }

  /** Listening in two parts is listening to the parts one after the other. */
  lemma {:induction false} ListenAppend(ds: seq<ActionData>, m: Registry, a: seq<Value>, b: seq<Value>)
    requires Listen(ds, m, a).failure == None
    ensures Listen(ds, m, a + b) == Continue(Listen(ds, m, a), Listen(Listen(ds, m, a).actions, m, b))
    decreases |a|
  {
    if a == [] {
      assert a + b == b;
      ContinueFromStart(Listen(ds, m, b));
    } else {
      var first := HandleFrame(ds, m, a[0]);
      ListenUnfold(ds, m, a, b);
      ListenAppend(first.actions, m, a[1..], b);
      var mid := Listen(first.actions, m, a[1..]);
      ContinueAssociative(first, mid, Listen(mid.actions, m, b));
    }
  }

  lemma ListenUnfold(ds: seq<ActionData>, m: Registry, a: seq<Value>, b: seq<Value>)
    requires a != [] && Listen(ds, m, a).failure == None
    ensures HandleFrame(ds, m, a[0]).failure == None
    ensures Listen(ds, m, a) ==
      Continue(HandleFrame(ds, m, a[0]), Listen(HandleFrame(ds, m, a[0]).actions, m, a[1..]))
    ensures Listen(ds, m, a + b) ==
      Continue(HandleFrame(ds, m, a[0]), Listen(HandleFrame(ds, m, a[0]).actions, m, a[1..] + b))
  {
    assert (a + b)[0] == a[0];
    assert (a + b)[1..] == a[1..] + b;
  }

  /** A single frame is handled exactly as HandleFrame handles it. */
  lemma ListenSingle(ds: seq<ActionData>, m: Registry, f: Value)
    ensures Listen(ds, m, [f]) == HandleFrame(ds, m, f)
  {
    var first := HandleFrame(ds, m, f);
    if first.failure == None {
      assert [f][1..] == [];
      assert first.calls + [] == first.calls;
    }
  }

  /** A frame that raises ends listening: what came before it stands and later frames are not read. */
  lemma ListenStops(ds: seq<ActionData>, m: Registry, a: seq<Value>, f: Value, b: seq<Value>)
    requires Listen(ds, m, a).failure == None
    requires HandleFrame(Listen(ds, m, a).actions, m, f).failure != None
    ensures Listen(ds, m, a + [f] + b) ==
      Continue(Listen(ds, m, a), HandleFrame(Listen(ds, m, a).actions, m, f))
  {
    assert a + [f] + b == a + ([f] + b);
    ListenAppend(ds, m, a, [f] + b);
    assert ([f] + b)[0] == f;
  }

  /**
   * One pass of the event loop: after handling `events[..i]` without an
   * exception, handling `events[i]` either extends the run to
   * `events[..i + 1]` or raises and ends the whole batch there.
   */
  lemma HandleEventsStep(ds: seq<ActionData>, m: Registry, events: seq<Value>, i: nat)
    requires i < |events| && HandleEvents(ds, m, events[..i]).failure == None
    ensures HandleEvent(HandleEvents(ds, m, events[..i]).actions, m, events[i]).failure == None ==>
      HandleEvents(ds, m, events[..i + 1]) ==
        Continue(HandleEvents(ds, m, events[..i]), HandleEvent(HandleEvents(ds, m, events[..i]).actions, m, events[i]))
    ensures HandleEvent(HandleEvents(ds, m, events[..i]).actions, m, events[i]).failure != None ==>
      HandleEvents(ds, m, events) ==
        Continue(HandleEvents(ds, m, events[..i]), HandleEvent(HandleEvents(ds, m, events[..i]).actions, m, events[i]))
  {
    var before := HandleEvents(ds, m, events[..i]);
    var s := HandleEvent(before.actions, m, events[i]);
    HandleEventsSingle(before.actions, m, events[i]);
    if s.failure == None {
      assert events[..i + 1] == events[..i] + [events[i]];
      HandleEventsAppend(ds, m, events[..i], [events[i]]);
    } else {
      assert events == events[..i] + [events[i]] + events[i + 1..];
      HandleEventsStops(ds, m, events[..i], events[i], events[i + 1..]);
      assert before.calls + s.calls == before.calls;
    }
  }

  /**
   * One pass of the frame loop: after `frames[..i]` without an exception,
   * frame `i` either extends the run to `frames[..i + 1]` or raises and
   * ends listening there.
   */
  lemma ListenStep(ds: seq<ActionData>, m: Registry, frames: seq<Value>, i: nat)
    requires i < |frames| && Listen(ds, m, frames[..i]).failure == None
    ensures HandleFrame(Listen(ds, m, frames[..i]).actions, m, frames[i]).failure == None ==>
      Listen(ds, m, frames[..i + 1]) ==
        Continue(Listen(ds, m, frames[..i]), HandleFrame(Listen(ds, m, frames[..i]).actions, m, frames[i]))
    ensures HandleFrame(Listen(ds, m, frames[..i]).actions, m, frames[i]).failure != None ==>
      Listen(ds, m, frames) ==
        Continue(Listen(ds, m, frames[..i]), HandleFrame(Listen(ds, m, frames[..i]).actions, m, frames[i]))
  {
    var before := Listen(ds, m, frames[..i]);
    var s := HandleFrame(before.actions, m, frames[i]);
    if s.failure == None {
      ListenSingle(before.actions, m, frames[i]);
      assert frames[..i + 1] == frames[..i] + [frames[i]];
      ListenAppend(ds, m, frames[..i], [frames[i]]);
    } else {
      assert frames == frames[..i] + [frames[i]] + frames[i + 1..];
      ListenStops(ds, m, frames[..i], frames[i], frames[i + 1..]);
    }
  }
}
