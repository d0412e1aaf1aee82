/**
 * The thermostat entity of nhc/thermostat.py: the base constructor plus
 * five thermostat fields, the doubly tagged identifier, the six-field
 * update and the argument tuples that `set_mode` and `set_temperature`
 * hand to the controller's `execute_thermostat`.
 */
module Thermostats {
  import opened Wrappers
  import opened Json
  import opened Actions

  /** The attributes of an NHCThermostat; the mode is the base `state`. */
  datatype ThermostatData = ThermostatData(
    base: Base,
    measured: Value,
    setpoint: Value,
    overrule: Value,
    overruletime: Value,
    ecosave: Value)

  /** The arguments of `execute_thermostat(id, mode, overruletime, overrule, setpoint)`. */
  datatype ThermostatCall = ThermostatCall(
    id: Value,
    mode: Value,
    overruletime: Value,
    overrule: Value,
    setpoint: Value)

  /** The thermostat fields a record or an update names. */
  datatype Field = Mode | Setpoint | Measured | Overrule | OverruleTime | Ecosave

  /** The record key of each field. */
  function KeyOf(f: Field): string {
    match f
    case Mode => "mode"
    case Setpoint => "setpoint"
    case Measured => "measured"
    case Overrule => "overrule"
    case OverruleTime => "overruletime"
    case Ecosave => "ecosave"
  }

  /** The fields the constructor reads after the base constructor, in its order. */
  const ConstructorFields: seq<Field> := [Measured, Setpoint, Overrule, OverruleTime, Ecosave]

  /** The fields `update_state` assigns, in its order. */
  const UpdateFields: seq<Field> := [Mode, Setpoint, Measured, Overrule, OverruleTime, Ecosave]

  /** The position of the first of `fields` whose key `r` lacks, or `|fields|`. */
  function MissingIndex(r: Record, fields: seq<Field>): (k: nat)
    ensures k <= |fields|
    ensures forall j :: 0 <= j < k ==> KeyOf(fields[j]) in r
    ensures k < |fields| ==> KeyOf(fields[k]) !in r
  {
    if fields == [] then 0
    else if KeyOf(fields[0]) !in r then 0
    else 1 + MissingIndex(r, fields[1..])
  }

  /** The first of `fields` whose key `r` lacks: every field before it has its key. */
  function FirstMissing(r: Record, fields: seq<Field>): (f: Option<Field>)
    ensures f == if MissingIndex(r, fields) < |fields| then Some(fields[MissingIndex(r, fields)]) else None
    ensures f.None? <==> forall g :: g in fields ==> KeyOf(g) in r
    ensures f.Some? ==> f.value in fields && KeyOf(f.value) !in r
  {
    if fields == [] then None
    else if KeyOf(fields[0]) !in r then Some(fields[0])
    else FirstMissing(r, fields[1..])
  }

  /** What NHCThermostat.__init__ computes, failing at the first missing key. */
  function ThermostatOf(r: Record, locations: Locations): Result<ThermostatData, Error> {
    match BaseOf(r, locations)
    case Err(e) => Err(e)
    case Ok(b) =>
      match FirstMissing(r, ConstructorFields)
      case Some(f) => Err(KeyError(Str(KeyOf(f))))
      case None =>
        assert Measured in ConstructorFields && Setpoint in ConstructorFields && Overrule in ConstructorFields;
        assert OverruleTime in ConstructorFields && Ecosave in ConstructorFields;
        Ok(ThermostatData(b, r["measured"], r["setpoint"], r["overrule"], r["overruletime"], r["ecosave"]))
  }

  /** The `id` property: `thermostat-` in front of the base identifier. */
  function IdOf(actionId: Value): Value {
    Str("thermostat-" + PyStr(actionId))
  }

  /**
   * The `id` of a constructed thermostat carries the prefix over its base
   * identifier; for a record with a mode and no channel the base identifier
   * is already tagged, so the prefix appears twice.
   */
  lemma ThermostatIdentifier(r: Record, locations: Locations)
    requires ThermostatOf(r, locations).Ok?
    ensures !Given(r, "channel") && Given(r, "mode") ==>
      IdOf(ThermostatOf(r, locations).value.base.id) == Str("thermostat-thermostat-" + PyStr(r["id"]))
  {
    var b := ThermostatOf(r, locations).value.base;
    BaseOfRules(r, locations);
    if !Given(r, "channel") && Given(r, "mode") {
      assert "thermostat-" + ("thermostat-" + PyStr(r["id"])) == "thermostat-thermostat-" + PyStr(r["id"]);
    }
  }

  /** The constructor copies the five thermostat fields from the record. */
  lemma ThermostatFields(r: Record, locations: Locations)
    requires ThermostatOf(r, locations).Ok?
    ensures "measured" in r && "setpoint" in r && "overrule" in r && "overruletime" in r && "ecosave" in r
    ensures ThermostatOf(r, locations).value.base == BaseOf(r, locations).value
    ensures ThermostatOf(r, locations).value.measured == r["measured"]
    ensures ThermostatOf(r, locations).value.setpoint == r["setpoint"]
    ensures ThermostatOf(r, locations).value.overrule == r["overrule"]
    ensures ThermostatOf(r, locations).value.overruletime == r["overruletime"]
    ensures ThermostatOf(r, locations).value.ecosave == r["ecosave"]
  {
    assert FirstMissing(r, ConstructorFields).None?;
    assert Measured in ConstructorFields && Setpoint in ConstructorFields && Overrule in ConstructorFields;
    assert OverruleTime in ConstructorFields && Ecosave in ConstructorFields;
  }

  /** One assignment of `update_state`: field `f` gets `v`. */
  function Assign(d: ThermostatData, f: Field, v: Value): ThermostatData {
    match f
    case Mode => d.(base := WithState(d.base, v))
    case Setpoint => d.(setpoint := v)
    case Measured => d.(measured := v)
    case Overrule => d.(overrule := v)
    case OverruleTime => d.(overruletime := v)
    case Ecosave => d.(ecosave := v)
  }

  /** The fields assigned before the first missing key. */
  function Reached(m: Record, fields: seq<Field>): (p: seq<Field>)
    ensures forall f :: f in p ==> f in fields && KeyOf(f) in m
  {
    if fields == [] || KeyOf(fields[0]) !in m then [] else [fields[0]] + Reached(m, fields[1..])
  }

  /** The assignments of `fields` in order, stopping with KeyError at the first key `m` lacks. */
  function AssignAll(d: ThermostatData, m: Record, fields: seq<Field>): (ThermostatData, Outcome<Error>)
    decreases |fields|
  {
    if fields == [] then (d, Pass)
    else if KeyOf(fields[0]) !in m then (d, Fail(KeyError(Str(KeyOf(fields[0])))))
    else AssignAll(Assign(d, fields[0], m[KeyOf(fields[0])]), m, fields[1..])
  }

  /** `update_state(data)`: the six assignments in the source's order; a missing key stops it part way. */
  function ApplyUpdate(d: ThermostatData, data: Value): (ThermostatData, Outcome<Error>) {
    if !data.Obj? then (d, Fail(TypeError)) else AssignAll(d, data.fields, UpdateFields)
  }

  predicate DistinctFields(fields: seq<Field>) {
    forall i, j :: 0 <= i < j < |fields| ==> fields[i] != fields[j]
  }

  /** Assignment `f := m[key of f]` already holds in `d`. */
  predicate Holds(d: ThermostatData, m: Record, f: Field)
    requires KeyOf(f) in m
  {
    Assign(d, f, m[KeyOf(f)]) == d
  }

  /** The outcome of the assignments depends only on the fields and `m`. */
  lemma {:induction false} AssignAllOutcome(d: ThermostatData, e: ThermostatData, m: Record, fields: seq<Field>)
    ensures AssignAll(d, m, fields).1 == AssignAll(e, m, fields).1
    decreases |fields|
  {
    if fields != [] && KeyOf(fields[0]) in m {
      var v := m[KeyOf(fields[0])];
      AssignAllOutcome(Assign(d, fields[0], v), Assign(e, fields[0], v), m, fields[1..]);
    }
  }

  /** Nothing but the six thermostat fields changes. */
  lemma {:induction false} AssignAllKeepsIdentity(d: ThermostatData, m: Record, fields: seq<Field>)
    ensures AssignAll(d, m, fields).0.base.name == d.base.name
    ensures AssignAll(d, m, fields).0.base.id == d.base.id
    ensures AssignAll(d, m, fields).0.base.suggestedArea == d.base.suggestedArea
    decreases |fields|
  {
    if fields != [] && KeyOf(fields[0]) in m {
      AssignAllKeepsIdentity(Assign(d, fields[0], m[KeyOf(fields[0])]), m, fields[1..]);
    }
  }

  /** A state in which every reached assignment already holds is left as it is. */
  lemma {:induction false} AssignAllStable(e: ThermostatData, m: Record, fields: seq<Field>)
    requires forall f :: f in Reached(m, fields) ==> Holds(e, m, f)
    ensures AssignAll(e, m, fields).0 == e
    decreases |fields|
  {
    if fields != [] && KeyOf(fields[0]) in m {
      assert fields[0] in Reached(m, fields);
      assert Reached(m, fields) == [fields[0]] + Reached(m, fields[1..]);
      AssignAllStable(e, m, fields[1..]);
    }
  }

  /** Assignments to other fields keep an assignment that holds. */
  lemma {:induction false} AssignLaterKeeps(d: ThermostatData, m: Record, fields: seq<Field>, f: Field)
    requires KeyOf(f) in m && f !in fields && Holds(d, m, f)
    ensures Holds(AssignAll(d, m, fields).0, m, f)
    decreases |fields|
  {
    if fields != [] && KeyOf(fields[0]) in m {
      assert fields == [fields[0]] + fields[1..];
      AssignLaterKeeps(Assign(d, fields[0], m[KeyOf(fields[0])]), m, fields[1..], f);
    }
  }

  /** After the assignments, every reached assignment holds. */
  lemma {:induction false} AssignAllHolds(d: ThermostatData, m: Record, fields: seq<Field>)
    requires DistinctFields(fields)
    ensures forall f :: f in Reached(m, fields) ==> Holds(AssignAll(d, m, fields).0, m, f)
    decreases |fields|
  {
    if fields != [] && KeyOf(fields[0]) in m {
      var f0 := fields[0];
      var d1 := Assign(d, f0, m[KeyOf(f0)]);
      assert DistinctFields(fields[1..]);
      AssignAllHolds(d1, m, fields[1..]);
      // f0 is not among the later fields, so its assignment still holds at the end
      assert f0 !in fields[1..] by {
        forall i | 0 <= i < |fields[1..]| ensures fields[1..][i] != f0 {
          assert fields[1..][i] == fields[i + 1];
        }
      }
      AssignLaterKeeps(d1, m, fields[1..], f0);
      assert Reached(m, fields) == [f0] + Reached(m, fields[1..]);
    }
  }

  /** Every field is reached when every key is present. */
  lemma {:induction false} ReachedAll(m: Record, fields: seq<Field>)
    requires forall f :: f in fields ==> KeyOf(f) in m
    ensures Reached(m, fields) == fields
    decreases |fields|
  {
    if fields != [] {
      assert fields == [fields[0]] + fields[1..];
      ReachedAll(m, fields[1..]);
    }
  }

  /** `update_state` is idempotent, also when it stops part way at a missing key. */
  lemma ApplyUpdateIdempotent(d: ThermostatData, data: Value)
    ensures ApplyUpdate(ApplyUpdate(d, data).0, data) == ApplyUpdate(d, data)
  {
    if data.Obj? {
      var m := data.fields;
      var r := AssignAll(d, m, UpdateFields);
      AssignAllHolds(d, m, UpdateFields);
      AssignAllStable(r.0, m, UpdateFields);
      AssignAllOutcome(r.0, d, m, UpdateFields);
    }
  }

  /**
   * With all six keys present, `update_state` succeeds and replaces all six
   * fields together (so `mode` afterwards is `data["mode"]`); name, id and
   * suggested area are unchanged.
   */
  lemma ApplyUpdateComplete(d: ThermostatData, m: Record)
    requires "mode" in m && "setpoint" in m && "measured" in m
    requires "overrule" in m && "overruletime" in m && "ecosave" in m
    ensures ApplyUpdate(d, Obj(m)).1 == Pass
    ensures ApplyUpdate(d, Obj(m)).0 ==
      ThermostatData(WithState(d.base, m["mode"]), m["measured"], m["setpoint"], m["overrule"], m["overruletime"], m["ecosave"])
  {
    var r := ApplyUpdate(d, Obj(m)).0;
    AssignAllResult(d, m, UpdateFields);
    assert Holds(r, m, Mode) && Holds(r, m, Setpoint) && Holds(r, m, Measured);
    assert Holds(r, m, Overrule) && Holds(r, m, OverruleTime) && Holds(r, m, Ecosave);
  }

  /** With every key present all assignments are made and hold at the end. */
  lemma AssignAllResult(d: ThermostatData, m: Record, fields: seq<Field>)
    requires DistinctFields(fields)
    requires forall f :: f in fields ==> KeyOf(f) in m
    ensures AssignAll(d, m, fields).1 == Pass
    ensures forall f :: f in fields ==> Holds(AssignAll(d, m, fields).0, m, f)
    ensures AssignAll(d, m, fields).0.base.name == d.base.name
    ensures AssignAll(d, m, fields).0.base.id == d.base.id
    ensures AssignAll(d, m, fields).0.base.suggestedArea == d.base.suggestedArea
  {
    ReachedAll(m, fields);
    AssignAllHolds(d, m, fields);
    AssignAllKeepsIdentity(d, m, fields);
    AssignAllFirstMissing(d, m, fields);
  }

  /** A data value that is not a dict, or lacks a key, makes `update_state` raise. */
  lemma ApplyUpdateFails(d: ThermostatData, data: Value)
    ensures !data.Obj? ==> ApplyUpdate(d, data).1 == Fail(TypeError)
    ensures data.Obj? && FirstMissing(data.fields, UpdateFields).Some? ==>
      ApplyUpdate(d, data).1 == Fail(KeyError(Str(KeyOf(FirstMissing(data.fields, UpdateFields).value))))
  {
    if data.Obj? {
      AssignAllFirstMissing(d, data.fields, UpdateFields);
    }
  }

  lemma {:induction false} AssignAllFirstMissing(d: ThermostatData, m: Record, fields: seq<Field>)
    ensures FirstMissing(m, fields).Some? ==>
      AssignAll(d, m, fields).1 == Fail(KeyError(Str(KeyOf(FirstMissing(m, fields).value))))
    ensures FirstMissing(m, fields).None? ==> AssignAll(d, m, fields).1 == Pass
    decreases |fields|
  {
    if fields != [] && KeyOf(fields[0]) in m {
      AssignAllFirstMissing(Assign(d, fields[0], m[KeyOf(fields[0])]), m, fields[1..]);
    }
  }

  /** NHCThermostat. The name, base identifier and suggested area never change. */
  class Thermostat {
    const name: Value
    const actionId: Value
    const suggestedArea: Option<Value>
    var state: Option<Value>
    var measured: Value
    var setpoint: Value
    var overrule: Value
    var overruletime: Value
    var ecosave: Value

    function Data(): ThermostatData
      reads this
    {
      ThermostatData(Base(name, actionId, state, suggestedArea), measured, setpoint, overrule, overruletime, ecosave)
    }

    constructor (d: ThermostatData)
      ensures Data() == d
    {
      name := d.base.name;
      actionId := d.base.id;
      suggestedArea := d.base.suggestedArea;
      state := d.base.state;
      measured := d.measured;
      setpoint := d.setpoint;
      overrule := d.overrule;
      overruletime := d.overruletime;
      ecosave := d.ecosave;
    }

    /** NHCThermostat.__init__: the base constructor, then the five fields in order. */
    static method Create(record: Record, locations: Locations) returns (res: Result<Thermostat, Error>)
      ensures res.Ok? <==> ThermostatOf(record, locations).Ok?
      ensures res.Ok? ==> fresh(res.value) && res.value.Data() == ThermostatOf(record, locations).value
      ensures res.Err? ==> res.error == ThermostatOf(record, locations).error
    {
      var b := InitBase(record, locations);
      if b.Err? {
        return Err(b.error);
      }
      var missing := FirstMissing(record, ConstructorFields);
      if missing.Some? {
        return Err(KeyError(Str(KeyOf(missing.value))));
      }
      assert Measured in ConstructorFields && Setpoint in ConstructorFields && Overrule in ConstructorFields;
      assert OverruleTime in ConstructorFields && Ecosave in ConstructorFields;
      var t := new Thermostat(ThermostatData(b.value, record["measured"], record["setpoint"],
                                             record["overrule"], record["overruletime"], record["ecosave"]));
      return Ok(t);
    }

    /** The `id` property. */
    function Id(): Value {
      IdOf(actionId)
    }

    /** The `mode` property: the stored state. */
    function Mode(): Option<Value>
      reads this
    {
      state
    }

    /** `update_state(data)`: six assignments in order; a missing key raises after the earlier ones. */
    method UpdateState(data: Value) returns (outcome: Outcome<Error>)
      modifies this
      ensures (Data(), outcome) == ApplyUpdate(old(Data()), data)
    {
      ghost var d0 := Data();
      if !data.Obj? {
        return Fail(TypeError);
      }
      var m := data.fields;
      if "mode" !in m {
        return Fail(KeyError(Str("mode")));
      }
      state := Some(m["mode"]);
      if "setpoint" !in m {
        return Fail(KeyError(Str("setpoint")));
      }
      setpoint := m["setpoint"];
      if "measured" !in m {
        return Fail(KeyError(Str("measured")));
      }
      measured := m["measured"];
      if "overrule" !in m {
        return Fail(KeyError(Str("overrule")));
      }
      overrule := m["overrule"];
      if "overruletime" !in m {
        return Fail(KeyError(Str("overruletime")));
      }
      overruletime := m["overruletime"];
      if "ecosave" !in m {
        return Fail(KeyError(Str("ecosave")));
      }
      ecosave := m["ecosave"];
      return Pass;
    }

    /** `set_mode(mode)`: asks for the new mode with the current overrule time, overrule and setpoint. */
    method SetMode(mode: Value) returns (call: ThermostatCall)
      ensures call.id == actionId && call.mode == mode
      ensures call.overruletime == overruletime && call.overrule == overrule && call.setpoint == setpoint
    {
      call := ThermostatCall(actionId, mode, overruletime, overrule, setpoint);
    }

    /**
     * `set_temperature(setpoint)`: asks for the new setpoint with the current
     * mode, overrule time and overrule; reading `_state` when it was never
     * assigned raises AttributeError.
     */
    method SetTemperature(newSetpoint: Value) returns (call: Result<ThermostatCall, Error>)
      ensures state.None? ==> call == Err(AttributeError("_state"))
      ensures state.Some? ==> call.Ok? && call.value.id == actionId && call.value.mode == state.value
      ensures state.Some? ==>
        call.Ok? && call.value.overruletime == overruletime && call.value.overrule == overrule &&
        call.value.setpoint == newSetpoint
    {
      if state.None? {
        return Err(AttributeError("_state"));
      }
      call := Ok(ThermostatCall(actionId, state.value, overruletime, overrule, newSetpoint));
    }
  }
}
