/**
 * NHCController of nhc/controller.py as a class: the registered actions,
 * the location table, the callback registry and the system information,
 * with the methods that update them in place. Each method is proved
 * against the functions of Discovery, Events and Callbacks that specify it.
 */
module Controllers {
  import opened Wrappers
  import opened Json
  import opened Actions
  import opened Commands
  import opened Callbacks
  import opened Events
  import opened Discovery

  /** The attributes of each action, in order. */
  function DataOf(acts: seq<Action>): (r: seq<ActionData>)
    reads acts
    ensures |r| == |acts|
    ensures forall i :: 0 <= i < |acts| ==> r[i] == acts[i].Data()
  {
    seq(|acts|, i requires 0 <= i < |acts| reads acts => acts[i].Data())
  }

  /** No action object is registered twice. */
  ghost predicate Distinct(acts: seq<Action>) {
    forall i, j :: 0 <= i < j < |acts| ==> acts[i] != acts[j]
  }

  /** The callback that `register_callback` hands back: it removes `callback` from the list of `id`. */
  datatype Remover = Remover(id: Value, callback: Callback)

  /** Whether a method ended normally or with the exception a step reported. */
  predicate Reports(outcome: Outcome<Error>, failure: Option<Error>) {
    match failure
    case None => outcome == Pass
    case Some(e) => outcome == Fail(e)
  }

  class Controller {
    const host: string
    const port: int
    var actions: seq<Action>
    var locations: Locations
    var callbacks: Registry
    /** `_system_info`, which is only assigned by a discovery that gets as far as `systeminfo`. */
    var systemInfo: Option<Value>

    /** The controller's invariant: each action object is held once, and no id maps to an empty callback list. */
    ghost predicate Valid()
      reads this
    {
      Distinct(actions) && NoEmptyLists(callbacks)
    }

    /** `NHCController(host, port)`; the source's default port is 8000. */
    constructor (host: string, port: int)
      ensures this.host == host && this.port == port
      ensures actions == [] && locations == map[] && callbacks == map[] && systemInfo == None
      ensures Valid()
    {
      this.host := host;
      this.port := port;
      actions := [];
      locations := map[];
      callbacks := map[];
      systemInfo := None;
    }

    /** The `system_info` property: reading it before discovery assigned it raises AttributeError. */
    function SystemInfo(): (r: Result<Value, Error>)
      reads this
      ensures systemInfo == None <==> r == Err(AttributeError("_system_info"))
      ensures r.Ok? ==> systemInfo == Some(r.value)
    {
      match systemInfo
      case None => Err(AttributeError("_system_info"))
      case Some(v) => Ok(v)
    }

    /** The actions of one kind, collected in one pass in the order the controller holds them. */
    method View(k: Kind) returns (r: seq<Action>)
      ensures r == Select(actions, k)
    {
      r := [];
      var i := 0;
      while i < |actions|
        invariant 0 <= i <= |actions|
        invariant r == Select(actions[..i], k)
      {
        SelectSnoc(actions[..i], actions[i], k);
        assert actions[..i + 1] == actions[..i] + [actions[i]];
        if Matches(actions[i], k) {
          r := r + [actions[i]];
        }
        i := i + 1;
      }
      assert actions[..i] == actions;
    }

    /** The `lights` property: the lights and dimmable lights. */
    method Lights() returns (r: seq<Action>)
      ensures r == Select(actions, Light)
    {
      r := View(Light);
    }

    /** The `covers` property. */
    method Covers() returns (r: seq<Action>)
      ensures r == Select(actions, Cover)
    {
      r := View(Cover);
    }

    /** The `fans` property. */
    method Fans() returns (r: seq<Action>)
      ensures r == Select(actions, Fan)
    {
      r := View(Fan);
    }

    /** `update_state(id, value)`: every action whose id equals `id` takes the state; nothing else changes. */
    method UpdateState(id: Value, v: Value)
      requires Valid()
      modifies actions
      ensures DataOf(actions) == UpdateAll(old(DataOf(actions)), id, v)
    {
      ghost var before := DataOf(actions);
      var k := 0;
      while k < |actions|
        invariant 0 <= k <= |actions|
        invariant forall i :: 0 <= i < k ==> actions[i].Data() == Touch(before[i], id, v)
        invariant forall i :: k <= i < |actions| ==> actions[i].Data() == before[i]
      {
        if actions[k].id == id {
          actions[k].UpdateState(v);
        }
        k := k + 1;
      }
      assert DataOf(actions) == UpdateAll(before, id, v);
    }

    /** `register_callback(id, cb)`: appends `cb` to the list of `id`, creating it, and returns its remover. */
    method RegisterCallback(id: Value, cb: Callback) returns (remover: Remover)
      requires Valid()
      modifies this
      ensures Valid()
      ensures callbacks == Register(old(callbacks), id, cb)
      ensures remover == Remover(id, cb)
      ensures actions == old(actions) && locations == old(locations) && systemInfo == old(systemInfo)
    {
      if id !in callbacks {
        callbacks := callbacks[id := []];
      }
      callbacks := callbacks[id := callbacks[id] + [cb]];
      remover := Remover(id, cb);
    }

    /**
     * Calling a remover: `self._callbacks[id].remove(cb)`, then `del` of the
     * id once its list is empty. A missing id raises KeyError and a callback
     * not in the list raises ValueError, leaving the registry as it was.
     */
    method RemoveCallback(remover: Remover) returns (outcome: Outcome<Error>)
      requires Valid()
      modifies this
      ensures Valid()
      ensures Unregister(old(callbacks), remover.id, remover.callback).Ok? ==>
        outcome == Pass && callbacks == Unregister(old(callbacks), remover.id, remover.callback).value
      ensures Unregister(old(callbacks), remover.id, remover.callback).Err? ==>
        outcome == Fail(Unregister(old(callbacks), remover.id, remover.callback).error) && callbacks == old(callbacks)
      ensures actions == old(actions) && locations == old(locations) && systemInfo == old(systemInfo)
    {
      var id, cb := remover.id, remover.callback;
      if id !in callbacks {
        return Fail(KeyError(id));
      }
      if cb !in callbacks[id] {
        return Fail(ValueError);
      }
      ghost var before := callbacks;
      UnregisterEffect(before, id, cb);
      var rest := RemoveFirst(callbacks[id], cb);
      if rest == [] {
        callbacks := callbacks - {id};
      } else {
        callbacks := callbacks[id := rest];
      }
      assert callbacks == Unregister(before, id, cb).value;
      outcome := Pass;
    }

    /** `async_dispatch_update(id, value)`: one invocation per callback of `id`, in registration order. */
    method AsyncDispatchUpdate(id: Value, v: Value) returns (calls: seq<Invocation>)
      ensures calls == Dispatch(callbacks, id, v)
    {
      var listeners := if id in callbacks then callbacks[id] else [];
      calls := [];
      var i := 0;
      while i < |listeners|
        invariant 0 <= i <= |listeners|
        invariant |calls| == i
        invariant forall j :: 0 <= j < i ==> calls[j] == Invocation(listeners[j], v)
      {
        calls := calls + [Invocation(listeners[i], v)];
        i := i + 1;
      }
    }

    /** `handle_event(event)`: `update_state(event["id"], event["value1"])`, then the dispatch. */
    method HandleEvent(event: Value) returns (outcome: Outcome<Error>, calls: seq<Invocation>)
      requires Valid()
      modifies actions
      ensures DataOf(actions) == Events.HandleEvent(old(DataOf(actions)), callbacks, event).actions
      ensures calls == Events.HandleEvent(old(DataOf(actions)), callbacks, event).calls
      ensures Reports(outcome, Events.HandleEvent(old(DataOf(actions)), callbacks, event).failure)
    {
      var id := Index(event, "id");
      if id.Err? {
        return Fail(id.error), [];
      }
      var v := Index(event, "value1");
      if v.Err? {
        return Fail(v.error), [];
      }
      UpdateState(id.value, v.value);
      calls := AsyncDispatchUpdate(id.value, v.value);
      outcome := Pass;
    }

    /** One decoded frame of `_listen`: discarded, or each element of its `data` handled in order. */
    method HandleFrame(message: Value) returns (outcome: Outcome<Error>, calls: seq<Invocation>)
      requires Valid()
      modifies actions
      ensures DataOf(actions) == Events.HandleFrame(old(DataOf(actions)), callbacks, message).actions
      ensures calls == Events.HandleFrame(old(DataOf(actions)), callbacks, message).calls
      ensures Reports(outcome, Events.HandleFrame(old(DataOf(actions)), callbacks, message).failure)
    {
      var handled := EventTest(message);
      if handled.Err? {
        return Fail(handled.error), [];
      }
      if !handled.value {
        return Pass, [];
      }
      var data := Index(message, "data");
      if data.Err? {
        return Fail(data.error), [];
      }
      var items := Elements(data.value);
      if items.Err? {
        return Fail(items.error), [];
      }
      outcome, calls := HandleEvents(items.value);
    }

    /** `for data in items: await self.handle_event(data)`, ended by the first exception. */
    method HandleEvents(es: seq<Value>) returns (outcome: Outcome<Error>, calls: seq<Invocation>)
      requires Valid()
      modifies actions
      ensures DataOf(actions) == Events.HandleEvents(old(DataOf(actions)), callbacks, es).actions
      ensures calls == Events.HandleEvents(old(DataOf(actions)), callbacks, es).calls
      ensures Reports(outcome, Events.HandleEvents(old(DataOf(actions)), callbacks, es).failure)
    {
      ghost var ds := DataOf(actions);
      ghost var cbs := callbacks;
      ghost var whole := Events.HandleEvents(ds, cbs, es);
      outcome, calls := Pass, [];
      var i := 0;
      while i < |es|
        invariant 0 <= i <= |es|
        invariant callbacks == cbs
        invariant outcome == Pass ==>
          Events.HandleEvents(ds, cbs, es[..i]).failure == None &&
          DataOf(actions) == Events.HandleEvents(ds, cbs, es[..i]).actions &&
          calls == Events.HandleEvents(ds, cbs, es[..i]).calls
        invariant outcome.Fail? ==>
          i == |es| && DataOf(actions) == whole.actions && calls == whole.calls && whole.failure == Some(outcome.error)
      {
        HandleEventsStep(ds, cbs, es, i);
        var o, c := HandleEvent(es[i]);
        calls := calls + c;
        if o.Fail? {
          outcome := o;
          i := |es|;
        } else {
          i := i + 1;
        }
      }
      assert es[..|es|] == es;
    }

    /** The frame loop of `_listen` over the frames that arrive, ended by the first exception. */
    method Listen(frames: seq<Value>) returns (outcome: Outcome<Error>, calls: seq<Invocation>)
      requires Valid()
      modifies actions
      ensures DataOf(actions) == Events.Listen(old(DataOf(actions)), callbacks, frames).actions
      ensures calls == Events.Listen(old(DataOf(actions)), callbacks, frames).calls
      ensures Reports(outcome, Events.Listen(old(DataOf(actions)), callbacks, frames).failure)
    {
      ghost var ds := DataOf(actions);
      ghost var cbs := callbacks;
      ghost var whole := Events.Listen(ds, cbs, frames);
      outcome, calls := Pass, [];
      var i := 0;
      while i < |frames|
        invariant 0 <= i <= |frames|
        invariant callbacks == cbs
        invariant outcome == Pass ==>
          Events.Listen(ds, cbs, frames[..i]).failure == None &&
          DataOf(actions) == Events.Listen(ds, cbs, frames[..i]).actions &&
          calls == Events.Listen(ds, cbs, frames[..i]).calls
        invariant outcome.Fail? ==>
          i == |frames| && DataOf(actions) == whole.actions && calls == whole.calls && whole.failure == Some(outcome.error)
      {
        ListenStep(ds, cbs, frames, i);
        var o, c := HandleFrame(frames[i]);
        calls := calls + c;
        if o.Fail? {
          outcome := o;
          i := |frames|;
        } else {
          i := i + 1;
        }
      }
      assert frames[..|frames|] == frames;
    }

    /** The location loop of `connect` over the decoded `listlocations` data. */
    method AddLocationsFrom(data: Value) returns (outcome: Outcome<Error>)
      modifies this
      ensures locations == LocationTable(old(locations), data).table
      ensures Reports(outcome, LocationTable(old(locations), data).failure)
      ensures actions == old(actions) && callbacks == old(callbacks) && systemInfo == old(systemInfo)
    {
      var items := Elements(data);
      if items.Err? {
        return Fail(items.error);
      }
      var es := items.value;
      var i := 0;
      while i < |es|
        invariant 0 <= i <= |es|
        invariant AddLocations(locations, es[i..]) == AddLocations(old(locations), es)
        invariant actions == old(actions) && callbacks == old(callbacks) && systemInfo == old(systemInfo)
      {
        assert es[i..][0] == es[i] && es[i..][1..] == es[i + 1..];
        var name := Index(es[i], "name");
        if name.Err? {
          return Fail(name.error);
        }
        var id := Index(es[i], "id");
        if id.Err? {
          return Fail(id.error);
        }
        locations := locations[id.value := name.value];
        i := i + 1;
      }
      outcome := Pass;
    }

    /**
     * The action loop of `connect` over the decoded `listactions` data:
     * a new action object for each record of type 1 to 4, appended in
     * discovery order; other types are skipped.
     */
    method AddActions(data: Value) returns (outcome: Outcome<Error>)
      requires Valid()
      modifies this
      ensures Valid()
      ensures |actions| >= |old(actions)| && actions[..|old(actions)|] == old(actions)
      ensures DataOf(actions[|old(actions)|..]) == ClassifyAll(data, locations).entries
      ensures Reports(outcome, ClassifyAll(data, locations).failure)
      ensures forall j :: |old(actions)| <= j < |actions| ==> fresh(actions[j])
      ensures locations == old(locations) && callbacks == old(callbacks) && systemInfo == old(systemInfo)
    {
      var items := Elements(data);
      if items.Err? {
        return Fail(items.error);
      }
      var es := items.value;
      ghost var n := |actions|;
      ghost var locs := locations;
      ghost var built: seq<ActionData> := [];
      ghost var created: set<Action> := {};
      outcome := Pass;
      var i := 0;
      while i < |es|
        invariant 0 <= i <= |es|
        invariant Valid()
        invariant |actions| >= n && actions[..n] == old(actions)
        invariant DataOf(actions[n..]) == built
        invariant fresh(created) && forall j :: n <= j < |actions| ==> actions[j] in created
        invariant locations == locs && locs == old(locations) && callbacks == old(callbacks) && systemInfo == old(systemInfo)
        invariant outcome == Pass ==>
          built + Classify(es[i..], locs).entries == Classify(es, locs).entries &&
          Classify(es[i..], locs).failure == Classify(es, locs).failure
        invariant outcome.Fail? ==> i == |es|
        invariant outcome.Fail? ==> built == Classify(es, locs).entries && Classify(es, locs).failure == Some(outcome.error)
      {
        ghost var m := |actions|;
        ghost var prev := actions;
        ClassifyStep(es, i, locs, built);
        var o, added := AddRecord(es[i], n);
        created := created + added;
        forall j | n <= j < |actions|
          ensures actions[j] in created
        {
          if j < m {
            assert actions[j] == prev[j];
          }
        }
        built := built + Entity(es[i], locs).entries;
        if o.Fail? {
          outcome := o;
          i := |es|;
        } else {
          i := i + 1;
        }
      }
      if outcome == Pass {
        assert es[i..] == [];
        assert built + [] == built;
      }
    }

    /** One pass of the action loop: the entity for one record, appended when its type is 1 to 4. */
    method AddRecord(x: Value, ghost n: nat) returns (outcome: Outcome<Error>, ghost added: set<Action>)
      requires Valid() && n <= |actions|
      modifies this
      ensures Valid()
      ensures |actions| >= |old(actions)| && actions[..|old(actions)|] == old(actions)
      ensures DataOf(actions[n..]) == old(DataOf(actions[n..])) + Entity(x, locations).entries
      ensures Reports(outcome, Entity(x, locations).failure)
      ensures forall j :: |old(actions)| <= j < |actions| ==> fresh(actions[j])
      ensures fresh(added) && forall j :: |old(actions)| <= j < |actions| ==> actions[j] in added
      ensures locations == old(locations) && callbacks == old(callbacks) && systemInfo == old(systemInfo)
    {
      added := {};
      ghost var before := DataOf(actions[n..]);
      ghost var prev := actions;
      var t := Index(x, "type");
      if t.Err? {
        assert before + [] == before;
        return Fail(t.error), {};
      }
      if !KnownType(t.value) {
        assert before + [] == before;
        return Pass, {};
      }
      var a := Action.Create(x.fields, locations);
      if a.Err? {
        assert before + [] == before;
        return Fail(a.error), {};
      }
      Append(a.value);
      added := {a.value};
      DataOfSplit(actions, n, |prev|);
      assert actions[n..|prev|] == prev[n..];
      outcome := Pass;
    }

    /** `self._actions.append(entity)` for an entity not yet registered. */
    method Append(a: Action)
      requires Valid() && a !in actions
      modifies this
      ensures Valid()
      ensures actions == old(actions) + [a]
      ensures locations == old(locations) && callbacks == old(callbacks) && systemInfo == old(systemInfo)
    {
      actions := actions + [a];
    }

    /**
     * The discovery part of `connect`, given the decoded replies to
     * `listactions`, `listlocations` and `systeminfo`: the location table is
     * filled, the system information stored, and the new actions appended,
     * each as far as discovery got before an exception.
     */
    method Connect(actionsReply: Value, locationsReply: Value, infoReply: Value) returns (outcome: Outcome<Error>)
      requires Valid()
      modifies this
      ensures Valid()
      ensures locations == Discover(old(locations), old(systemInfo), actionsReply, locationsReply, infoReply).locations
      ensures systemInfo == Discover(old(locations), old(systemInfo), actionsReply, locationsReply, infoReply).systemInfo
      ensures Reports(outcome, Discover(old(locations), old(systemInfo), actionsReply, locationsReply, infoReply).failure)
      ensures |actions| >= |old(actions)| && actions[..|old(actions)|] == old(actions)
      ensures DataOf(actions[|old(actions)|..]) == Discover(old(locations), old(systemInfo), actionsReply, locationsReply, infoReply).entries
      ensures forall j :: |old(actions)| <= j < |actions| ==> fresh(actions[j])
      ensures callbacks == old(callbacks)
    {
      var actionsData := Send(actionsReply);
      if actionsData.Err? {
        return Fail(actionsData.error);
      }
      var locationsData := Send(locationsReply);
      if locationsData.Err? {
        return Fail(locationsData.error);
      }
      outcome := AddLocationsFrom(locationsData.value);
      if outcome.Fail? {
        return;
      }
      var info := Send(infoReply);
      if info.Err? {
        return Fail(info.error);
      }
      systemInfo := Some(info.value);
      outcome := AddActions(actionsData.value);
    }
  }

  /** The attributes of a stretch of actions, split in two. */
  lemma DataOfSplit(acts: seq<Action>, n: nat, m: nat)
    requires n <= m <= |acts|
    ensures DataOf(acts[n..]) == DataOf(acts[n..m]) + DataOf(acts[m..])
  {
    assert acts[n..] == acts[n..m] + acts[m..];
  }
}
