/**
 * The entities of nhc/action.py: the base constructor that turns a raw
 * discovery record into a typed entity (tagged identifier, initial state,
 * suggested area), the state update, and the type predicates of plain
 * actions (lights, fans, covers) and energy channels.
 */
module Actions {
  import opened Wrappers
  import opened Json

  /** The controller's location table: location id to location name. */
  type Locations = map<Value, Value>

  /**
   * The attributes NHCBaseAction.__init__ sets. `state` is `None` while
   * `_state` has never been assigned (reading it then raises AttributeError).
   */
  datatype Base = Base(name: Value, id: Value, state: Option<Value>, suggestedArea: Option<Value>)

  /** A plain action or an energy channel: the base attributes and `type`. */
  datatype ActionData = ActionData(base: Base, actionType: Value)

  /** The tagged identifier: `energy-{channel}`, else `thermostat-{id}`, else the raw id. */
  function TaggedId(r: Record): Result<Value, Error> {
    if Given(r, "channel") then Ok(Str("energy-" + PyStr(r["channel"])))
    else if "id" !in r then Err(KeyError(Str("id")))
    else if Given(r, "mode") then Ok(Str("thermostat-" + PyStr(r["id"])))
    else Ok(r["id"])
  }

  /** The initial state: `value1`, else `v` (energy), else `mode` (thermostat), else unset. */
  function InitialState(r: Record): Option<Value> {
    if Given(r, "value1") then Some(r["value1"])
    else if Given(r, "v") then Some(r["v"])
    else if Given(r, "mode") then Some(r["mode"])
    else None
  }

  /** The record names a location: present, not None and not the empty string. */
  predicate HasLocation(r: Record) {
    Given(r, "location") && r["location"] != Str("")
  }

  /** The suggested area, looked up in the location table only when the record names a location. */
  function SuggestedArea(r: Record, locations: Locations): Result<Option<Value>, Error> {
    if !HasLocation(r) then Ok(None)
    else if r["location"] in locations then Ok(Some(locations[r["location"]]))
    else Err(KeyError(r["location"]))
  }

  /** What NHCBaseAction.__init__ computes, failing at the first missing key. */
  function BaseOf(r: Record, locations: Locations): Result<Base, Error> {
    if "name" !in r then Err(KeyError(Str("name")))
    else
      match TaggedId(r)
      case Err(e) => Err(e)
      case Ok(id) =>
        match SuggestedArea(r, locations)
        case Err(e) => Err(e)
        case Ok(area) => Ok(Base(r["name"], id, InitialState(r), area))
  }

  /** What NHCAction.__init__ and NHCEnergyAction.__init__ compute: the base, then `type`. */
  function ActionOf(r: Record, locations: Locations): Result<ActionData, Error> {
    match BaseOf(r, locations)
    case Err(e) => Err(e)
    case Ok(b) => if "type" in r then Ok(ActionData(b, r["type"])) else Err(KeyError(Str("type")))
  }

  /** When construction succeeds, and which key it fails on otherwise. */
  lemma BaseOfOutcome(r: Record, locations: Locations)
    ensures BaseOf(r, locations).Ok? <==>
      "name" in r && (Given(r, "channel") || "id" in r) && (HasLocation(r) ==> r["location"] in locations)
    ensures "name" !in r ==> BaseOf(r, locations) == Err(KeyError(Str("name")))
    ensures "name" in r && !Given(r, "channel") && "id" !in r ==> BaseOf(r, locations) == Err(KeyError(Str("id")))
    ensures "name" in r && (Given(r, "channel") || "id" in r) && HasLocation(r) && r["location"] !in locations ==>
      BaseOf(r, locations) == Err(KeyError(r["location"]))
  {
  }

  /** The three rules of the constructor, and that `name` is copied. */
  lemma BaseOfRules(r: Record, locations: Locations)
    requires BaseOf(r, locations).Ok?
    ensures BaseOf(r, locations).value.name == r["name"]
    ensures Given(r, "channel") ==> BaseOf(r, locations).value.id == Str("energy-" + PyStr(r["channel"]))
    ensures !Given(r, "channel") && Given(r, "mode") ==> BaseOf(r, locations).value.id == Str("thermostat-" + PyStr(r["id"]))
    ensures !Given(r, "channel") && !Given(r, "mode") ==> BaseOf(r, locations).value.id == r["id"]
    ensures Given(r, "value1") ==> BaseOf(r, locations).value.state == Some(r["value1"])
    ensures !Given(r, "value1") && Given(r, "v") ==> BaseOf(r, locations).value.state == Some(r["v"])
    ensures !Given(r, "value1") && !Given(r, "v") && Given(r, "mode") ==> BaseOf(r, locations).value.state == Some(r["mode"])
    ensures !Given(r, "value1") && !Given(r, "v") && !Given(r, "mode") ==> BaseOf(r, locations).value.state == None
    ensures BaseOf(r, locations).value.suggestedArea ==
      if HasLocation(r) then Some(locations[r["location"]]) else None
  {
  }

  /**
   * NHCBaseAction.__init__ step by step; raising is returning `Err`. Used
   * by the constructors of every entity family.
   */
  method InitBase(action: Record, locations: Locations) returns (res: Result<Base, Error>)
    ensures res == BaseOf(action, locations)
  {
    if "name" !in action {
      return Err(KeyError(Str("name")));
    }
    var name := action["name"];

    var id: Value;
    if Given(action, "channel") {
      id := Str("energy-" + PyStr(action["channel"]));
    } else if Given(action, "mode") {
      if "id" !in action {
        return Err(KeyError(Str("id")));
      }
      id := Str("thermostat-" + PyStr(action["id"]));
    } else {
      if "id" !in action {
        return Err(KeyError(Str("id")));
      }
      id := action["id"];
    }

    var state: Option<Value> := None;
    if Given(action, "value1") {
      state := Some(action["value1"]);
    } else if Given(action, "v") {
      state := Some(action["v"]);
    } else if Given(action, "mode") {
      state := Some(action["mode"]);
    }

    var area: Option<Value> := None;
    if Given(action, "location") && action["location"] != Str("") {
      if action["location"] !in locations {
        return Err(KeyError(action["location"]));
      }
      area := Some(locations[action["location"]]);
    }
    return Ok(Base(name, id, state, area));
  }

  /** The base attributes after `update_state(s)`. */
  function WithState(b: Base, s: Value): (r: Base)
    ensures r.state == Some(s)
    ensures r.name == b.name && r.id == b.id && r.suggestedArea == b.suggestedArea
  {
    b.(state := Some(s))
  }

  /** Updating the state twice with the same value is updating it once. */
  lemma WithStateIdempotent(b: Base, s: Value)
    ensures WithState(WithState(b, s), s) == WithState(b, s)
  {
  }

  /** The type codes the controller turns into entities: 1, 2 (lights), 3 (fan), 4 (cover). */
  predicate KnownType(t: Value) {
    t == Int(1) || t == Int(2) || t == Int(3) || t == Int(4)
  }

  /** NHCAction: a light, dimmable light, fan or cover. Only the state changes after construction. */
  class Action {
    const name: Value
    const id: Value
    const suggestedArea: Option<Value>
    const actionType: Value
    var state: Option<Value>

    /** The attributes of this action as a value. */
    function Data(): ActionData
      reads this
    {
      ActionData(Base(name, id, state, suggestedArea), actionType)
    }

    constructor (d: ActionData)
      ensures Data() == d
    {
      name := d.base.name;
      id := d.base.id;
      suggestedArea := d.base.suggestedArea;
      actionType := d.actionType;
      state := d.base.state;
    }

    /** NHCAction.__init__: the base constructor, then `type`. */
    static method Create(record: Record, locations: Locations) returns (res: Result<Action, Error>)
      ensures res.Ok? <==> ActionOf(record, locations).Ok?
      ensures res.Ok? ==> fresh(res.value) && res.value.Data() == ActionOf(record, locations).value
      ensures res.Err? ==> res.error == ActionOf(record, locations).error
    {
      var b := InitBase(record, locations);
      if b.Err? {
        return Err(b.error);
      }
      if "type" !in record {
        return Err(KeyError(Str("type")));
      }
      var a := new Action(ActionData(b.value, record["type"]));
      return Ok(a);
    }

    /** `update_state`: replaces the state and nothing else. */
    method UpdateState(s: Value)
      modifies this
      ensures Data() == old(Data()).(base := WithState(old(Data()).base, s))
    {
      state := Some(s);
    }

    predicate IsLight() {
      actionType == Int(1)
    }

    predicate IsDimmable() {
      actionType == Int(2)
    }

    predicate IsFan() {
      actionType == Int(3)
    }

    predicate IsCover() {
      actionType == Int(4)
    }
  }

  /** The four type predicates are exclusive, and one holds exactly for the codes 1 to 4. */
  lemma ActionTypesExclusive(a: Action)
    ensures a.IsLight() ==> !a.IsDimmable() && !a.IsFan() && !a.IsCover()
    ensures a.IsDimmable() ==> !a.IsFan() && !a.IsCover()
    ensures a.IsFan() ==> !a.IsCover()
    ensures (a.IsLight() || a.IsDimmable() || a.IsFan() || a.IsCover()) <==> KnownType(a.actionType)
  {
  }

  /** Python's `1 | i` on an int: sets bit 0 (two's complement, so also for negative `i`). */
  function BitOrOne(i: int): (r: int)
    ensures r % 2 == 1
    ensures r == i || r == i + 1
  {
    if i % 2 == 0 then i + 1 else i
  }

  /**
   * `type == 1 | type == 0` as Python parses it: `|` binds tighter than
   * `==`, so it is the chain `type == (1 | type) == 0`. `1 | type` raises
   * TypeError unless `type` is an int or a bool; for a bool it is the int 1.
   */
  function ImportTestAsWritten(t: Value): Result<bool, Error> {
    match t
    case Int(i) => Ok(t == Int(BitOrOne(i)) && BitOrOne(i) == 0)
    case Bool(_) => Ok(false)
    case _ => Err(TypeError)
  }

  /** As written, `is_import` is never true: `1 | type` is odd, so it is never 0. */
  lemma ImportTestNeverHolds(t: Value)
    ensures ImportTestAsWritten(t) != Ok(true)
    ensures ImportTestAsWritten(Int(1)) == Ok(false) && ImportTestAsWritten(Int(0)) == Ok(false)
  {
    if t.Int? {
      assert BitOrOne(t.i) % 2 == 1;
    }
  }

  /** The import test as intended (`type == 1 or type == 0`). */
  predicate IsImportType(t: Value) {
    t == Int(1) || t == Int(0)
  }

  /** The corrected import test holds for the codes 0 and 1 and never together with export. */
  lemma ImportExportCorrected(t: Value)
    ensures IsImportType(Int(0)) && IsImportType(Int(1)) && !IsImportType(Int(2))
    ensures IsImportType(t) ==> t != Int(2)
  {
  }

  /** NHCEnergyAction: an energy channel. Only the state changes after construction. */
  class EnergyAction {
    const name: Value
    const id: Value
    const suggestedArea: Option<Value>
    const energyType: Value
    var state: Option<Value>

    function Data(): ActionData
      reads this
    {
      ActionData(Base(name, id, state, suggestedArea), energyType)
    }

    constructor (d: ActionData)
      ensures Data() == d
    {
      name := d.base.name;
      id := d.base.id;
      suggestedArea := d.base.suggestedArea;
      energyType := d.actionType;
      state := d.base.state;
    }

    /** NHCEnergyAction.__init__: the base constructor, then `type`. */
    static method Create(record: Record, locations: Locations) returns (res: Result<EnergyAction, Error>)
      ensures res.Ok? <==> ActionOf(record, locations).Ok?
      ensures res.Ok? ==> fresh(res.value) && res.value.Data() == ActionOf(record, locations).value
      ensures res.Err? ==> res.error == ActionOf(record, locations).error
    {
      var b := InitBase(record, locations);
      if b.Err? {
        return Err(b.error);
      }
      if "type" !in record {
        return Err(KeyError(Str("type")));
      }
      var a := new EnergyAction(ActionData(b.value, record["type"]));
      return Ok(a);
    }

    /** `update_state`: replaces the state and nothing else. */
    method UpdateState(s: Value)
      modifies this
      ensures Data() == old(Data()).(base := WithState(old(Data()).base, s))
    {
      state := Some(s);
    }

    /** `is_import` as written: it never answers True, whatever the type. */
    function IsImportAsWritten(): (r: Result<bool, Error>)
      ensures r != Ok(true)
    {
      ImportTestNeverHolds(energyType);
      ImportTestAsWritten(energyType)
    }

    /** `is_import` as intended. */
    predicate IsImport() {
      IsImportType(energyType)
    }

    /** `is_export`: never holds together with the corrected `is_import`. */
    predicate IsExport(): (r: bool)
      ensures r ==> !IsImport()
    {
      energyType == Int(2)
    }
  }
}
