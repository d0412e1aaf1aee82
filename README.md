# nhc — a Dafny model of the Niko Home Control client core

`nhc` is a Python client for the Niko Home Control hub. The hub speaks
line-delimited JSON over TCP. On `connect` the client lists the hub's
locations and actions and builds entities from them: lights, dimmable
lights, fans and covers. It keeps a registry of state-change callbacks, and
it reads an event stream that updates entity state and notifies those
callbacks.

This project models that core and proves properties of it:

- **Entities** (`action.dfy`, module `Actions`). The base constructor turns a
  raw record into a tagged identifier, an initial state and a suggested area.
  The module also covers `update_state`, the type predicates of plain actions,
  and the energy-channel predicates.
  - `Action` and `EnergyAction` are classes with a mutable `state`.
- **Thermostats** (`thermostat.dfy`, module `Thermostats`).
  - What the `NHCThermostat` constructor reads.
  - The doubly prefixed `id`.
  - The six-field `update_state`, which stops part way at a missing key.
  - The argument tuples that `set_mode` and `set_temperature` pass to the
    controller.
- **Command channel** (`commands.dfy`, module `Commands`).
  - `_send` as a function of the decoded reply.
  - The text `execute` sends, with a parser for that text proved to be its
    inverse.
- **Callback registry** (`callbacks.dfy`, module `Callbacks`).
  - `register_callback` and the remover it returns.
  - `async_dispatch_update`, as functions on a map from id to callback list.
- **Event routing** (`events.dfy`, module `Events`): `update_state`,
  `handle_event` and the frame loop of `_listen`, as functions on the
  attributes of the registered actions. Each stops at the first exception.
- **Discovery** (`discovery.dfy`, module `Discovery`).
  - The location loop and the type classification of `connect`.
  - The whole discovery sequence, as a function of the three decoded replies.
  - The `lights`, `covers` and `fans` views.
- **The controller** (`controller.dfy`, module `Controllers`). A class
  holding the actions, the location table, the callback registry and the
  system information. Each of its methods changes these fields in place and
  is proved against the function that specifies it.
- **Support** (`json.dfy`, module `Json`; `wrappers.dfy`, module `Wrappers`).
  - Decoded JSON values.
  - Python's subscripting, truthiness and `str()` of a value.
  - The exceptions an operation can raise.
  - Option, Result and Outcome.

Python exceptions are values: `KeyError(key)`, `TypeError`, `ValueError`,
`AttributeError(name)`, and `Raised(argument)` for an explicit `raise`.
An operation that can raise returns a `Result`, an `Outcome`, or a record
with an optional failure. Where an exception interrupts a loop, the model
keeps exactly what was done before it, as the Python code does.

The code as written, which the model follows:

- `_send` does not map error codes to distinct failures. It evaluates
  `raise Exception(error['error'])` for any truthy `error`. Only a dict with
  an `error` key gets as far as the Exception. An integer code raises
  TypeError, since an int cannot be indexed. A dict without the key raises
  KeyError. Any other truthy value raises TypeError.
- Thermostat `update_state` assigns its six fields one at a time. It is not
  atomic: a missing key stops it after the earlier assignments.
- Controller `update_state` changes every action whose id matches, not a
  single entry found through a map.
- There is no job queue: `execute` calls `_send` directly.

## Model

| member | source | states |
|---|---|---|
| Actions.BaseOfOutcome | nhc/action.py:8-35 | The base constructor succeeds exactly when the record has `name`, an `id` or a non-null `channel`, and (if it names a location) a location known to the table. Otherwise it raises KeyError on the first missing key: `name`, `id`, or the location. |
| Actions.BaseOfRules | nhc/action.py:10-35 | The name is copied. The id is `energy-{channel}`, else `thermostat-{id}`, else the raw id. The state is `value1`, else `v`, else `mode`, else unset. The suggested area is the table entry exactly when the location is present, non-null and non-empty. |
| Actions.InitBase | nhc/action.py:8-35 | The step-by-step constructor computes exactly the result of the rule function BaseOf, including its error cases. |
| Actions.Action.Create | nhc/action.py:65-68 | Building an NHCAction succeeds exactly when the base succeeds and `type` is present. The new object is fresh and holds the attributes ActionOf computes; otherwise the error is the one ActionOf reports. |
| Actions.Action.UpdateState | nhc/action.py:58-60 | `update_state` sets the state to the new value and leaves name, id, suggested area and type unchanged. |
| Actions.WithState | nhc/action.py:58-60 | After a state update the state is the new value; name, id and suggested area are unchanged. |
| Actions.WithStateIdempotent | nhc/action.py:58-60 | Updating the state twice with the same value is the same as updating it once. |
| Actions.ActionTypesExclusive | nhc/action.py:75-93 | `is_light`, `is_dimmable`, `is_fan` and `is_cover` are pairwise exclusive. One of them holds exactly when the type is 1, 2, 3 or 4. |
| Actions.BitOrOne | nhc/action.py:111 | Python's `1 \| i` on an int is odd, and is either `i` or `i + 1`. |
| Actions.ImportTestNeverHolds | nhc/action.py:108-111 | `is_import` as written (`type == (1 \| type) == 0`) is never true, including for the codes 0 and 1. |
| Actions.ImportExportCorrected | nhc/action.py:108-116 | The intended import test holds for 0 and 1 and not for 2, so it never holds together with `is_export`. |
| Actions.EnergyAction.IsImportAsWritten | nhc/action.py:108-111 | `is_import` as written never answers True for an energy channel. |
| Actions.EnergyAction.IsExport | nhc/action.py:113-116 | An energy channel that is an export is not an import, under the corrected test. |
| Actions.EnergyAction.Create | nhc/action.py:98-101 | Building an NHCEnergyAction succeeds exactly when the base succeeds and `type` is present. The new object holds the attributes ActionOf computes; otherwise the error is the one ActionOf reports. |
| Actions.EnergyAction.UpdateState | nhc/action.py:58-60 | An energy channel's `update_state` replaces only the state. |
| Thermostats.FirstMissing | nhc/thermostat.py:6-10 | Reports no field exactly when every field's key is in the record. Otherwise it reports the field at the first position whose key is missing, which is the one whose lookup raises first. |
| Thermostats.MissingIndex | nhc/thermostat.py:6-10 | Every field before the reported position has its key in the record, and the field at that position, if any, does not. |
| Thermostats.Thermostat.Create | nhc/thermostat.py:4-10 | Building an NHCThermostat succeeds exactly when ThermostatOf does: the base constructor, then the five fields in order. The new object holds its result; otherwise the error is the one it reports. |
| Thermostats.ThermostatFields | nhc/thermostat.py:4-10 | A constructed thermostat has the base attributes of the record, and `measured`, `setpoint`, `overrule`, `overruletime` and `ecosave` equal to the record's fields. |
| Thermostats.ThermostatIdentifier | nhc/thermostat.py:12-18 | For a record with a mode and no channel, the base identifier is already tagged, so the thermostat's `id` is `thermostat-thermostat-` followed by the record's `id`: the prefix appears twice. |
| Thermostats.Thermostat.UpdateState | nhc/thermostat.py:50-56 | The new attributes and the outcome are exactly ApplyUpdate of the old attributes: the six assignments in source order, stopping with KeyError at the first missing key. |
| Thermostats.ApplyUpdateComplete | nhc/thermostat.py:50-56 | With all six keys present, `update_state` succeeds and replaces mode, setpoint, measured, overrule, overrule time and eco-save together. So `mode` afterwards is `data["mode"]`, and name, id and suggested area are unchanged. |
| Thermostats.ApplyUpdateIdempotent | nhc/thermostat.py:50-56 | Applying `update_state` twice with the same data gives the same attributes and outcome as applying it once, also when a missing key stops it part way. |
| Thermostats.ApplyUpdateFails | nhc/thermostat.py:50-56 | Data that is not a dict raises TypeError. Data that lacks a key raises KeyError for the first missing key in assignment order. |
| Thermostats.AssignAllOutcome | nhc/thermostat.py:50-56 | Whether the update raises, and which error, depends only on the data, not on the thermostat's current attributes. |
| Thermostats.Thermostat.SetMode | nhc/thermostat.py:44-45 | `set_mode(m)` asks for the base id, the new mode, and the current overrule time, overrule and setpoint. It changes no field. |
| Thermostats.Thermostat.SetTemperature | nhc/thermostat.py:47-48 | `set_temperature(s)` asks for the base id, the current mode, overrule time and overrule, and the new setpoint. It raises AttributeError when the state was never set, and changes no field. |
| Commands.RaiseFor | nhc/controller.py:95 | `raise Exception(error['error'])` raises with `error['error']` for a dict with that key, KeyError for a dict without it, and TypeError for anything else. |
| Commands.Send | nhc/controller.py:90-96 | `_send` returns `reply['data']` or raises. It raises KeyError without `data` and TypeError for a reply that is not a dict. For a dict `data`, it raises exactly when `data` has a truthy `error`. |
| Commands.SendWithoutError | nhc/controller.py:92-96 | A `data` dict comes back unchanged exactly when it has no `error` or a falsy one. `None`, `False`, `0` and `""` do not raise. |
| Commands.SendErrorShapes | nhc/controller.py:92-95 | An integer error code other than 0 raises TypeError, not an Exception carrying the code. A dict error raises an Exception with its `error` value, or KeyError without one. The code 0 passes. |
| Commands.Execute | nhc/controller.py:98-99 | `execute` sends the command text of its arguments, and ends with the exception `_send` raises on the reply, if any. |
| Commands.ParseQuotedRoundTrip | nhc/controller.py:99 | A text built from a fixed head, middle and tail around two quote-free parts parses back into those two parts. |
| Commands.ExecuteTextRoundTrip | nhc/controller.py:99 | An id and value without double quotes read back unchanged from the executeactions text. |
| Commands.ParseExecuteSound | nhc/controller.py:99 | Every text that parses as an executeactions command is exactly the command text of what it parses to. |
| Commands.ExecuteCommandIntValue | nhc/controller.py:98-99 | With an integer value, the command carries `str(id)` and the decimal text of the value, which reads back as that integer. |
| Commands.ExecuteExample | nhc/controller.py:98-99 | `execute("1", 255)` sends `{"cmd": "executeactions", "id": "1", "value1": "255"}`. |
| Json.IntDecimalRoundTrip | nhc/controller.py:99 | `str()` of an integer is a sign and digits that parse back to the same integer. |
| Callbacks.Register | nhc/controller.py:111 | `setdefault(id, []).append(cb)` puts the callback at the end of the id's list, creating the list if absent. Other ids keep their lists, and no list is left empty. |
| Callbacks.RemoveFirst | nhc/controller.py:114 | `list.remove` drops exactly one occurrence: the length drops by one, and the multiset loses one copy of the callback. |
| Callbacks.IndexOf | nhc/controller.py:114 | The position `list.remove` deletes holds the callback, and no earlier position does. |
| Callbacks.RemoveFirstSplit | nhc/controller.py:114 | The occurrence `list.remove` drops is the first one. The callbacks before it and after it stay, in their order. |
| Callbacks.Unregister | nhc/controller.py:113-116 | The remover raises KeyError when the id has no list and ValueError when the callback is not in it; otherwise it succeeds. |
| Callbacks.UnregisterEffect | nhc/controller.py:113-116 | A successful removal takes one occurrence of the callback from the id's list and leaves other ids alone. It deletes the id exactly when that was its last callback, so no list is left empty. A list the id keeps is what `list.remove` leaves of the old one. |
| Callbacks.UnregisterKeepsOrder | nhc/controller.py:113-116 | When the id keeps a list, it is the old list without the first occurrence of the callback, with the other callbacks in their order. |
| Callbacks.RegisterThenUnregister | nhc/controller.py:107-118 | Calling the remover right after registering a callback not already present gives back the registry as it was. |
| Callbacks.UnregisterOnlyCallback | nhc/controller.py:113-116 | Removing an id's only callback deletes the id, so a later dispatch for it invokes nothing. |
| Callbacks.UnregisterTwice | nhc/controller.py:113-116 | Calling the remover again after it deleted the id raises KeyError. |
| Callbacks.Dispatch | nhc/controller.py:120-123 | Dispatch makes one invocation per registered callback of the id, in registration order, all with the same value. An unregistered id invokes nothing. |
| Callbacks.DispatchInRegistrationOrder | nhc/controller.py:120-123 | Two callbacks registered one after the other are invoked after the earlier ones, in that order, with the same value. |
| Events.Touch | nhc/controller.py:103-105 | An action whose id matches takes the new state; any other action is unchanged. An action's name, id, area and type never change. |
| Events.UpdateAll | nhc/controller.py:101-105 | `update_state` keeps the number and order of the actions and touches each one. |
| Events.UpdateAllUnknown | nhc/controller.py:101-105 | An id no action carries leaves every action as it was. |
| Events.UpdateAllIdempotent | nhc/controller.py:101-105 | Updating twice with the same id and value is the same as updating once. |
| Events.HandleEvent | nhc/controller.py:125-128 | `handle_event` succeeds exactly for a dict with `id` and `value1`. It is the state update followed by the dispatch of the same id and value. Otherwise it raises TypeError or KeyError for `id`, or else `value1`, with nothing changed. |
| Events.HandleEventsAppend | nhc/controller.py:147-148 | Handling a batch of events in two parts is handling the first part, then the second part from where the first ended. |
| Events.HandleEventsStops | nhc/controller.py:147-148 | An event that raises ends the batch. What was done before it stands, and later events are not handled. |
| Events.HandleEventsSingle | nhc/controller.py:147-148 | A batch of one event is handled exactly as `handle_event` handles it. |
| Events.HandleEventsNoCallbacks | nhc/controller.py:120-128 | With no callback registered, handling events invokes nothing. |
| Events.HandleEvents | nhc/controller.py:147-148 | Handling a batch of events keeps the number of actions. |
| Events.HandleEventsSucceeds | nhc/controller.py:147-148 | A batch runs to the end exactly when every element is a dict with `id` and `value1`. |
| Events.HandleFrame | nhc/controller.py:145-148 | A dict frame without `event`, or the `startevents` acknowledgement, changes nothing. A test that raises changes nothing and ends with that error. Any other frame raises KeyError without `data`; with a list `data` it handles the list's elements as a batch. The number of actions never changes. |
| Events.EventTest | nhc/controller.py:145-146 | The event test is true only for a dict, and for a dict it checks for `event` other than `startevents`. `None`, numbers and booleans raise TypeError. |
| Events.NonDictFrames | nhc/controller.py:145-146 | A `None`, number or boolean frame raises TypeError. A string or list frame is ignored unless it contains "event" (as a substring or an element), and then `message["event"]` raises TypeError. |
| Events.Relevant | nhc/controller.py:145-146 | The frames kept for handling are none of the discarded kind, and there are at most as many of them. |
| Events.ListenSkipsIgnored | nhc/controller.py:143-148 | Listening to all frames gives the same result as listening only to the frames that are not discarded. |
| Events.ListenAppend | nhc/controller.py:143-148 | Listening to frames in two parts is listening to the first part, then the second part from where the first ended. |
| Events.ListenStops | nhc/controller.py:143-148 | A frame that raises ends listening. What was done before it stands, and later frames are not read. |
| Events.ListenSingle | nhc/controller.py:143-148 | Listening to one frame is handling that frame. |
| Events.Listen | nhc/controller.py:143-148 | Listening to any frames keeps the number of actions. |
| Discovery.AddLocationsSucceeds | nhc/controller.py:69-70 | The location loop runs to the end exactly when every element is a dict with `name` and `id`. Otherwise it raises TypeError, KeyError('name') (checked first) or KeyError('id'). |
| Discovery.AddLocationsLastWins | nhc/controller.py:69-70 | After the loop, each location id maps to the name of its last record, so a later record with the same id overwrites an earlier one. |
| Discovery.AddLocationsUntouched | nhc/controller.py:69-70 | An id that no record carries keeps whatever the table held for it. |
| Discovery.AddLocationsKeys | nhc/controller.py:69-70 | Every id in the table was there before or is the id of some location record. |
| Discovery.AddLocations | nhc/controller.py:69-70 | The location loop never removes an id from the table, also when it raises part way. |
| Discovery.LocationTable | nhc/controller.py:69-70 | A list reply fills the table through the loop. Anything else that does not raise leaves the table as it was. |
| Discovery.Entity | nhc/controller.py:77-86 | One pass of the action loop yields at most one entity, and none when it raises. That entity has type 1 to 4 and is the one ActionOf builds from the record. A type outside 1 to 4 yields nothing and raises nothing. |
| Discovery.Classify | nhc/controller.py:77-86 | The action loop only ever appends entities of types 1 to 4, and no more than there are records. |
| Discovery.ClassifyAppend | nhc/controller.py:77-86 | Classifying two runs of records is classifying the first and, unless it raised, appending what the second yields and ending with its exception. |
| Discovery.ClassifyStops | nhc/controller.py:77-86 | A record whose construction raises ends the action loop: the entities of the records before it stand, and no later record is read. |
| Discovery.ClassifyKeepsOrder | nhc/controller.py:77-86 | A loop that runs to the end builds exactly one entity from each record of type 1 to 4, in discovery order, and drops every other record. |
| Discovery.ClassifyAll | nhc/controller.py:77-86 | A list reply is classified record by record. Any other reply appends nothing. |
| Discovery.Discover | nhc/controller.py:66-86 | Discovery that does not raise has received all three replies without errors, stored the system information, and filled the table from the locations reply. It built the entities from the actions reply with that table. A failing actions reply changes nothing, and entities are only built once the system-information reply succeeded. |
| Discovery.Select | nhc/controller.py:39-61 | A view holds at most as many actions as there are. |
| Discovery.SelectSnoc | nhc/controller.py:39-61 | Appending an action to the list extends a view by that action exactly when it is of the view's kind. |
| Discovery.SelectExact | nhc/controller.py:39-61 | An action is in a view exactly when it is among the controller's actions and of the view's kind: light or dimmable, cover, or fan. |
| Discovery.SelectIsSubsequence | nhc/controller.py:39-61 | Each view is an order-preserving subsequence of the controller's actions. |
| Discovery.ViewsPartition | nhc/controller.py:39-61 | When every action has a type from 1 to 4, the lengths of the three views add up to the number of actions. |
| Discovery.LampDiscovered | nhc/controller.py:77-86 | One light record with an empty location yields one entity: id "1", state 0, no suggested area. |
| Discovery.LampEventHandled | nhc/controller.py:143-148 | The event frame that sets "1" to 255 updates the lamp's state to 255 and notifies every callback of "1" with 255. |
| Discovery.LampFrame | nhc/controller.py:145-148 | That frame is handled by updating the lamp and dispatching 255 to the callbacks of "1". |
| Controllers.Controller.constructor | nhc/controller.py:11-17 | A new controller keeps the host and port, and has no actions, locations, callbacks or system information. |
| Controllers.Controller.SystemInfo | nhc/controller.py:31-33 | Reading `system_info` raises AttributeError exactly when discovery never assigned it; otherwise it returns the stored value. |
| Controllers.Controller.View | nhc/controller.py:39-61 | The filter loop returns exactly the view of its kind over the current actions. |
| Controllers.Controller.Lights | nhc/controller.py:39-45 | `lights` is the view of lights and dimmable lights. |
| Controllers.Controller.Covers | nhc/controller.py:47-53 | `covers` is the view of covers. |
| Controllers.Controller.Fans | nhc/controller.py:55-61 | `fans` is the view of fans. |
| Controllers.Controller.UpdateState | nhc/controller.py:101-105 | The loop leaves the actions' attributes exactly as UpdateAll says: matching ids take the state, and everything else and the order are unchanged. |
| Controllers.Controller.RegisterCallback | nhc/controller.py:107-118 | `register_callback` turns the registry into Register of the old one, returns the remover for that id and callback, and keeps the invariant. |
| Controllers.Controller.RemoveCallback | nhc/controller.py:113-116 | Calling a remover gives the registry Unregister computes. When Unregister reports an error, it raises that error and leaves the registry as it was. |
| Controllers.Controller.AsyncDispatchUpdate | nhc/controller.py:120-123 | The dispatch loop makes exactly the invocations of Dispatch. |
| Controllers.Controller.HandleEvent | nhc/controller.py:125-128 | The new action attributes, the invocations made and the exception raised are those of Events.HandleEvent. |
| Controllers.Controller.HandleEvents | nhc/controller.py:147-148 | The element loop ends with the attributes, invocations and exception of Events.HandleEvents. |
| Controllers.Controller.HandleFrame | nhc/controller.py:145-148 | One frame, of any JSON type, leaves the attributes, invocations and exception of Events.HandleFrame. |
| Controllers.Controller.Listen | nhc/controller.py:143-148 | The frame loop ends with the attributes, invocations and exception of Events.Listen. |
| Controllers.Controller.AddLocationsFrom | nhc/controller.py:69-70 | The location loop leaves the table and the exception of LocationTable, and nothing else changes. |
| Controllers.Controller.AddActions | nhc/controller.py:77-86 | The action loop keeps the earlier actions and appends fresh entities whose attributes are those ClassifyAll builds. It raises what ClassifyAll reports. |
| Controllers.Controller.AddRecord | nhc/controller.py:78-86 | One pass appends the entity Entity computes for the record, fresh, or raises its exception. |
| Controllers.Controller.Append | nhc/controller.py:86 | `self._actions.append(entity)` adds the entity at the end and keeps the invariant. |
| Controllers.Controller.Connect | nhc/controller.py:66-86 | Discovery leaves the location table, system information, appended entities and exception that Discover computes. |

## Left out

- `nhc/connection.py` is not part of this model: it is a socket wrapper over a foreign library. The decoded replies and frames are arguments instead.
- The networking in `connect` and `_listen` is left out: opening the connection, `write`/`drain`, `asyncio.create_task`, and the `finally` that closes the writer. `Controllers.Controller.Listen` takes the frames that arrive as a sequence.
- The `await` scheduling is left out; calls run in sequence.
- JSON encoding and `json.loads` are left out. A decoded value is a `Json.Value`, and the command is built as text.
- A line that is not valid JSON is not modelled, because decoding is outside the model.
- `nhc/light.py`, `nhc/fan.py`, `nhc/cover.py`, `nhc/scene.py`, `nhc/const.py` and `nhc/event.py` are not part of this model.
  - The controller builds NHCLight, NHCFan and NHCCover; the model builds the NHCAction they extend.
- `execute_thermostat` is not defined in the controller, so the thermostat methods return the arguments they would pass.
- Thermostat and energy discovery are commented out in `connect`, so discovery builds only types 1 to 4.
- No job queue, error-code mapping or timeout is modelled, because none exists in the code.
- Python's `True == 1` and `False == 0` equality is not modelled: `Bool` and `Int` values are distinct, so a type code `True` is not a light.
- Floating-point values and unhashable dict keys are not modelled. Unhashable keys would raise TypeError.
- `str()` of a float, list or dict is not modelled; the model renders them as a placeholder text.
- Callbacks are opaque tokens, and running one is recorded as an invocation. A callback that raises, or that registers or removes callbacks while a dispatch runs, is not modelled.
- The attribute `_connection` and the listener handle `_listen_task` are not modelled.
- Commands.ExecuteTextRoundTrip: the round trip is proved only for ids and values without double quotes. The code does not escape quotes, so other texts do not read back.

## Findings

| source | as written | input that shows it | evidently intended | confidence | as-written member | corrected member |
|---|---|---|---|---|---|---|
| nhc/action.py:111 | `self.type == 1 \| self.type == 0` parses as the chain `type == (1 \| type) == 0`. `1 \| type` is odd, so `is_import` is false for every type. | type 1 (and type 0): `is_import` is False | `self.type == 1 or self.type == 0` | not executed | Actions.ImportTestNeverHolds | Actions.ImportExportCorrected |
