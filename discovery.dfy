/**
 * Discovery in `NHCController.connect` (nhc/controller.py) as functions on
 * the decoded replies: the location table, the classification of the
 * action list by type code, and the `lights`/`covers`/`fans` views of the
 * registered actions. The replies themselves come from `_send`; the
 * connection that produces them is outside the model.
 */
module Discovery {
  import opened Wrappers
  import opened Json
  import opened Actions
  import opened Commands
  import opened Callbacks
  import opened Events

  // ---------------------------------------------------------------------
  // The location table
  // ---------------------------------------------------------------------

  /** The table after a location loop, and the exception that ended the loop early, if any. */
  datatype Filled = Filled(table: Locations, failure: Option<Error>)

  /**
   * `for location in items: self._locations[location["id"]] = location["name"]`.
   * The right-hand side is evaluated first, so a record without `name`
   * raises KeyError('name') even when it also lacks `id`.
   */
  function AddLocations(locs: Locations, items: seq<Value>): (r: Filled)
    ensures locs.Keys <= r.table.Keys
    decreases |items|
  {
    if items == [] then Filled(locs, None)
    else
      match Index(items[0], "name")
      case Err(e) => Filled(locs, Some(e))
      case Ok(name) =>
        match Index(items[0], "id")
        case Err(e) => Filled(locs, Some(e))
        case Ok(id) => AddLocations(locs[id := name], items[1..])
  }

  /** Every element is a location record: a dict with `name` and `id`. */
  predicate LocationItems(items: seq<Value>) {
    forall i :: 0 <= i < |items| ==> items[i].Obj? && "name" in items[i].fields && "id" in items[i].fields
  }

  /** The loop runs to the end exactly when every element is a location record. */
  lemma {:induction false} AddLocationsSucceeds(locs: Locations, items: seq<Value>)
    ensures AddLocations(locs, items).failure == None <==> LocationItems(items)
    ensures AddLocations(locs, items).failure != None ==>
      AddLocations(locs, items).failure.value in {TypeError, KeyError(Str("name")), KeyError(Str("id"))}
    decreases |items|
  {
    if items != [] {
      var x := items[0];
      if x.Obj? && "name" in x.fields && "id" in x.fields {
        AddLocationsSucceeds(locs[x.fields["id"] := x.fields["name"]], items[1..]);
        if LocationItems(items[1..]) {
          assert forall i :: 1 <= i < |items| ==> items[i] == items[1..][i - 1];
        } else {
          var i :| 0 <= i < |items[1..]| && !(items[1..][i].Obj? && "name" in items[1..][i].fields && "id" in items[1..][i].fields);
          assert items[i + 1] == items[1..][i];
        }
      }
    }
  }

  /** A later location with the same id overwrites an earlier one: the table names each id after its last record. */
  lemma {:induction false} AddLocationsLastWins(locs: Locations, items: seq<Value>, i: nat)
    requires LocationItems(items) && i < |items|
    requires forall j :: i < j < |items| ==> items[j].fields["id"] != items[i].fields["id"]
    ensures AddLocations(locs, items).failure == None
    ensures items[i].fields["id"] in AddLocations(locs, items).table
    ensures AddLocations(locs, items).table[items[i].fields["id"]] == items[i].fields["name"]
    decreases |items|
  {
    AddLocationsSucceeds(locs, items);
    var x := items[0];
    var next := locs[x.fields["id"] := x.fields["name"]];
    if i == 0 {
      AddLocationsUntouched(next, items[1..], x.fields["id"]);
    } else {
      assert forall j :: i - 1 < j < |items[1..]| ==> items[1..][j] == items[j + 1];
      AddLocationsLastWins(next, items[1..], i - 1);
    }
  }

  /** An id no location record carries keeps whatever the table held for it. */
  lemma {:induction false} AddLocationsUntouched(locs: Locations, items: seq<Value>, k: Value)
    requires LocationItems(items)
    requires forall j :: 0 <= j < |items| ==> items[j].fields["id"] != k
    ensures k in AddLocations(locs, items).table <==> k in locs
    ensures k in locs ==> AddLocations(locs, items).table[k] == locs[k]
    decreases |items|
  {
    if items != [] {
      var x := items[0];
      assert forall j :: 0 <= j < |items[1..]| ==> items[1..][j] == items[j + 1];
      AddLocationsUntouched(locs[x.fields["id"] := x.fields["name"]], items[1..], k);
    }
  }

  /** Every id in the table was there before or is the id of some location record. */
  lemma {:induction false} AddLocationsKeys(locs: Locations, items: seq<Value>, k: Value)
    requires LocationItems(items)
    requires k in AddLocations(locs, items).table
    ensures k in locs || exists j :: 0 <= j < |items| && items[j].fields["id"] == k
    decreases |items|
  {
    if items != [] {
      var x := items[0];
      var next := locs[x.fields["id"] := x.fields["name"]];
      assert forall j :: 0 <= j < |items[1..]| ==> items[1..][j] == items[j + 1];
      AddLocationsKeys(next, items[1..], k);
      if k !in locs && k != x.fields["id"] {
        var j :| 0 <= j < |items[1..]| && items[1..][j].fields["id"] == k;
        assert items[j + 1].fields["id"] == k;
      }
    }
  }

  /** The location loop over a decoded `listlocations` reply: a list is iterated, anything else raises. */
  function LocationTable(locs: Locations, data: Value): (r: Filled)
    ensures data.Arr? ==> r == AddLocations(locs, data.items)
    ensures r.failure == None ==> (data.Arr? || r.table == locs)
  {
    match Elements(data)
    case Err(e) => Filled(locs, Some(e))
    case Ok(items) => AddLocations(locs, items)
  }

  // ---------------------------------------------------------------------
  // Classification of the action list
  // ---------------------------------------------------------------------

  /** The entities the action loop appended, and the exception that ended it early, if any. */
  datatype Built = Built(entries: seq<ActionData>, failure: Option<Error>)

  /**
   * One pass of the action loop: `_action["type"]` decides the entity
   * class (1 or 2 a light, 3 a fan, 4 a cover) and any other type is
   * skipped. A record that cannot be indexed or built raises.
   */
  function Entity(x: Value, locs: Locations): (r: Built)
    ensures |r.entries| <= 1 && (r.failure != None ==> r.entries == [])
    ensures forall i :: 0 <= i < |r.entries| ==> KnownType(r.entries[i].actionType)
    ensures r.entries != [] ==> x.Obj? && ActionOf(x.fields, locs) == Ok(r.entries[0])
    ensures x.Obj? && "type" in x.fields && !KnownType(x.fields["type"]) ==> r == Built([], None)
  {
    match Index(x, "type")
    case Err(e) => Built([], Some(e))
    case Ok(t) =>
      if !KnownType(t) then Built([], None)
      else
        match ActionOf(x.fields, locs)
        case Err(e) => Built([], Some(e))
        case Ok(d) => Built([d], None)
  }

  /**
   * The action loop: each entity is appended as it is built, and a record
   * that raises ends the loop, keeping what was appended before it.
   */
  function Classify(items: seq<Value>, locs: Locations): (r: Built)
    ensures forall i :: 0 <= i < |r.entries| ==> KnownType(r.entries[i].actionType)
    ensures |r.entries| <= |items|
    decreases |items|
  {
    if items == [] then Built([], None)
    else
      var first := Entity(items[0], locs);
      if first.failure != None then first
      else
        var rest := Classify(items[1..], locs);
        Built(first.entries + rest.entries, rest.failure)
  }

  /**
   * The action loop's bookkeeping: if `before` followed by what the loop
   * builds from `items[i..]` is what it builds from `items`, that stays
   * true one record later, or, when record `i` raises, the loop ends there.
   */
  lemma ClassifyStep(items: seq<Value>, i: nat, locs: Locations, before: seq<ActionData>)
    requires i < |items|
    requires before + Classify(items[i..], locs).entries == Classify(items, locs).entries
    requires Classify(items[i..], locs).failure == Classify(items, locs).failure
    ensures Entity(items[i], locs).failure == None ==>
      (before + Entity(items[i], locs).entries) + Classify(items[i + 1..], locs).entries == Classify(items, locs).entries &&
      Classify(items[i + 1..], locs).failure == Classify(items, locs).failure
    ensures Entity(items[i], locs).failure != None ==>
      before + Entity(items[i], locs).entries == Classify(items, locs).entries &&
      Entity(items[i], locs).failure == Classify(items, locs).failure
  {
    var tail := items[i..];
    assert tail[0] == items[i] && tail[1..] == items[i + 1..];
    ClassifyCons(tail, locs);
    Bookkeeping(before, Entity(items[i], locs), Classify(items[i + 1..], locs), Classify(tail, locs), Classify(items, locs));
  }

  lemma Bookkeeping(before: seq<ActionData>, first: Built, rest: Built, tail: Built, whole: Built)
    requires tail == if first.failure != None then first else Built(first.entries + rest.entries, rest.failure)
    requires before + tail.entries == whole.entries && tail.failure == whole.failure
    ensures first.failure == None ==> (before + first.entries) + rest.entries == whole.entries && rest.failure == whole.failure
    ensures first.failure != None ==> before + first.entries == whole.entries && first.failure == whole.failure
  {
    assert (before + first.entries) + rest.entries == before + (first.entries + rest.entries);
  }

  /** The action loop over a list is the pass over its first record, then the loop over the rest unless that pass raised. */
  lemma ClassifyCons(items: seq<Value>, locs: Locations)
    requires items != []
    ensures Entity(items[0], locs).failure != None ==> Classify(items, locs) == Entity(items[0], locs)
    ensures Entity(items[0], locs).failure == None ==>
      Classify(items, locs) == Built(Entity(items[0], locs).entries + Classify(items[1..], locs).entries, Classify(items[1..], locs).failure)
  {
  }

  /** Running the action loop over two lists in a row: the first, then the second unless the first raised. */
  lemma {:induction false} ClassifyAppend(a: seq<Value>, b: seq<Value>, locs: Locations)
    ensures Classify(a, locs).failure == None ==>
      Classify(a + b, locs) == Built(Classify(a, locs).entries + Classify(b, locs).entries, Classify(b, locs).failure)
    ensures Classify(a, locs).failure != None ==> Classify(a + b, locs) == Classify(a, locs)
    decreases |a|
  {
    if a == [] {
      assert a + b == b;
    } else {
      assert (a + b)[0] == a[0] && (a + b)[1..] == a[1..] + b;
      ClassifyCons(a, locs);
      ClassifyCons(a + b, locs);
      ClassifyAppend(a[1..], b, locs);
      AppendBookkeeping(Entity(a[0], locs), Classify(a[1..], locs), Classify(a[1..] + b, locs), Classify(b, locs),
                        Classify(a, locs), Classify(a + b, locs));
    }
  }

  lemma AppendBookkeeping(first: Built, rest: Built, restSecond: Built, second: Built, whole: Built, wholeSecond: Built)
    requires whole == if first.failure != None then first else Built(first.entries + rest.entries, rest.failure)
    requires wholeSecond == if first.failure != None then first else Built(first.entries + restSecond.entries, restSecond.failure)
    requires rest.failure == None ==> restSecond == Built(rest.entries + second.entries, second.failure)
    requires rest.failure != None ==> restSecond == rest
    ensures whole.failure == None ==> wholeSecond == Built(whole.entries + second.entries, second.failure)
    ensures whole.failure != None ==> wholeSecond == whole
  {
    assert first.entries + (rest.entries + second.entries) == (first.entries + rest.entries) + second.entries;
  }

  /** A record that raises ends the action loop: what was appended before it stands and later records are not read. */
  lemma ClassifyStops(a: seq<Value>, x: Value, b: seq<Value>, locs: Locations)
    requires Classify(a, locs).failure == None
    requires Entity(x, locs).failure != None
    ensures Classify(a + [x] + b, locs) == Built(Classify(a, locs).entries, Entity(x, locs).failure)
  {
    assert a + [x] + b == a + ([x] + b);
    assert ([x] + b)[0] == x;
    ClassifyAppend(a, [x] + b, locs);
    ClassifyCons([x] + b, locs);
    assert Classify(a, locs).entries + [] == Classify(a, locs).entries;
  }

  /** Every element is a dict with a `type`. */
  predicate Typed(items: seq<Value>) {
    forall i :: 0 <= i < |items| ==> items[i].Obj? && "type" in items[i].fields
  }

  /** The records of the known types 1 to 4, in discovery order. */
  function Kept(items: seq<Value>): (r: seq<Record>)
    requires Typed(items)
    ensures forall i :: 0 <= i < |r| ==> "type" in r[i] && KnownType(r[i]["type"])
    decreases |items|
  {
    if items == [] then []
    else if KnownType(items[0].fields["type"]) then [items[0].fields] + Kept(items[1..])
    else Kept(items[1..])
  }

  /**
   * A loop that runs to the end builds, in discovery order, exactly one
   * entity from each record of a known type.
   */
  lemma {:induction false} ClassifyKeepsOrder(items: seq<Value>, locs: Locations)
    requires Typed(items)
    requires Classify(items, locs).failure == None
    ensures |Classify(items, locs).entries| == |Kept(items)|
    ensures forall i :: 0 <= i < |Kept(items)| ==>
      ActionOf(Kept(items)[i], locs) == Ok(Classify(items, locs).entries[i])
    decreases |items|
  {
    if items != [] {
      var rest := items[1..];
      assert Typed(rest) by {
        assert forall i :: 0 <= i < |rest| ==> rest[i] == items[i + 1];
      }
      var first := Entity(items[0], locs);
      var c := Classify(rest, locs);
      assert Classify(items, locs) == Built(first.entries + c.entries, c.failure);
      ClassifyKeepsOrder(rest, locs);
      EntityOfRecord(items[0].fields, locs);
      assert items[0] == Obj(items[0].fields);
      if KnownType(items[0].fields["type"]) {
        KeptKnown(items);
        assert first.entries == [ActionOf(items[0].fields, locs).value];
      } else {
        assert Kept(items) == Kept(rest);
        assert first.entries == [];
        assert first.entries + c.entries == c.entries;
      }
    }
  }

  lemma KeptKnown(items: seq<Value>)
    requires items != [] && Typed(items) && KnownType(items[0].fields["type"])
    ensures Typed(items[1..])
    ensures Kept(items) == [items[0].fields] + Kept(items[1..])
  {
    assert forall i :: 0 <= i < |items[1..]| ==> items[1..][i] == items[i + 1];
  }

  /** A record of an unknown type contributes nothing; one of a known type contributes its entity or its exception. */
  lemma EntityOfRecord(x: Record, locs: Locations)
    requires "type" in x
    ensures !KnownType(x["type"]) ==> Entity(Obj(x), locs) == Built([], None)
    ensures KnownType(x["type"]) && ActionOf(x, locs).Ok? ==> Entity(Obj(x), locs) == Built([ActionOf(x, locs).value], None)
    ensures KnownType(x["type"]) && ActionOf(x, locs).Err? ==> Entity(Obj(x), locs) == Built([], Some(ActionOf(x, locs).error))
  {
  }

  /** The action loop over a decoded `listactions` reply. */
  function ClassifyAll(data: Value, locs: Locations): (r: Built)
    ensures data.Arr? ==> r == Classify(data.items, locs)
    ensures !data.Arr? ==> r.entries == []
  {
    match Elements(data)
    case Err(e) => Built([], Some(e))
    case Ok(items) => Classify(items, locs)
  }

  // ---------------------------------------------------------------------
  // The whole of discovery
  // ---------------------------------------------------------------------

  /** What discovery leaves behind: the location table, the system information, the new entities, and the exception, if any. */
  datatype Discovered = Discovered(locations: Locations, systemInfo: Option<Value>, entries: seq<ActionData>, failure: Option<Error>)

  /**
   * The discovery part of `connect`, given the decoded replies to
   * `listactions`, `listlocations` and `systeminfo`: both lists are fetched
   * first, then the location table is filled, then the system information
   * is fetched, then the entities are built with the filled table. Each
   * step that raises ends discovery with what was done before it.
   */
  function Discover(locs: Locations, info: Option<Value>, actionsReply: Value, locationsReply: Value, infoReply: Value): (r: Discovered)
    ensures r.failure == None ==> Send(actionsReply).Ok? && Send(locationsReply).Ok? && Send(infoReply).Ok?
    ensures r.failure == None ==> r.systemInfo == Some(Send(infoReply).value)
    ensures r.failure == None ==> r.locations == LocationTable(locs, Send(locationsReply).value).table
    ensures r.failure == None ==> r.entries == ClassifyAll(Send(actionsReply).value, r.locations).entries
    ensures Send(actionsReply).Err? ==> r == Discovered(locs, info, [], Some(Send(actionsReply).error))
    ensures r.entries != [] ==> Send(infoReply).Ok?
  {
    match Send(actionsReply)
    case Err(e) => Discovered(locs, info, [], Some(e))
    case Ok(actions) =>
      match Send(locationsReply)
      case Err(e) => Discovered(locs, info, [], Some(e))
      case Ok(locations) =>
        var filled := LocationTable(locs, locations);
        if filled.failure != None then Discovered(filled.table, info, [], filled.failure)
        else
          match Send(infoReply)
          case Err(e) => Discovered(filled.table, info, [], Some(e))
          case Ok(systemInfo) =>
            var built := ClassifyAll(actions, filled.table);
            Discovered(filled.table, Some(systemInfo), built.entries, built.failure)
  }

  // ---------------------------------------------------------------------
  // The lights, covers and fans views
  // ---------------------------------------------------------------------

  /** The three views the controller offers over its actions. */
  datatype Kind = Light | Cover | Fan

  /** `is_light or is_dimmable`, `is_cover`, `is_fan`. */
  predicate Matches(a: Action, k: Kind) {
    match k
    case Light => a.IsLight() || a.IsDimmable()
    case Cover => a.IsCover()
    case Fan => a.IsFan()
  }

  /** The actions of one kind, in the order the controller holds them. */
  function Select(acts: seq<Action>, k: Kind): (r: seq<Action>)
    ensures |r| <= |acts|
    decreases |acts|
  {
    if acts == [] then []
    else if Matches(acts[0], k) then [acts[0]] + Select(acts[1..], k)
    else Select(acts[1..], k)
  }

  /** `r` is `s` with some elements left out, the rest in their order. */
  predicate IsSubsequence<T(==)>(r: seq<T>, s: seq<T>)
    decreases |s|
  {
    if r == [] then true
    else if s == [] then false
    else if r[0] == s[0] then IsSubsequence(r[1..], s[1..])
    else IsSubsequence(r, s[1..])
  }

  /** Selecting from a list extended by one action extends the selection by that action when it is of the kind. */
  lemma {:induction false} SelectSnoc(acts: seq<Action>, a: Action, k: Kind)
    ensures Select(acts + [a], k) == Select(acts, k) + (if Matches(a, k) then [a] else [])
    decreases |acts|
  {
    if acts == [] {
      assert [a][1..] == [];
    } else {
      assert (acts + [a])[0] == acts[0];
      assert (acts + [a])[1..] == acts[1..] + [a];
      SelectSnoc(acts[1..], a, k);
    }
  }

  /** Every action a view holds is of its kind, and every action of its kind is in the view. */
  lemma {:induction false} SelectExact(acts: seq<Action>, k: Kind, a: Action)
    ensures a in Select(acts, k) <==> a in acts && Matches(a, k)
    decreases |acts|
  {
    if acts != [] {
      SelectExact(acts[1..], k, a);
      assert acts == [acts[0]] + acts[1..];
    }
  }

  /** A view keeps the order of the actions. */
  lemma {:induction false} SelectIsSubsequence(acts: seq<Action>, k: Kind)
    ensures IsSubsequence(Select(acts, k), acts)
    decreases |acts|
  {
    if acts != [] {
      SelectIsSubsequence(acts[1..], k);
      if !Matches(acts[0], k) {
        SkipFront(Select(acts[1..], k), acts);
      }
    }
  }

  /** Leaving out the first element of `s` keeps a subsequence of its tail a subsequence of `s`. */
  lemma {:induction false} SkipFront<T>(r: seq<T>, s: seq<T>)
    requires s != [] && IsSubsequence(r, s[1..])
    ensures IsSubsequence(r, s)
    decreases |s|, 0
  {
    if r != [] && r[0] == s[0] {
      DropHead(r, s[1..]);
    }
  }

  /** Leaving out the first element of a subsequence keeps it a subsequence. */
  lemma {:induction false} DropHead<T>(r: seq<T>, t: seq<T>)
    requires r != [] && IsSubsequence(r, t)
    ensures IsSubsequence(r[1..], t)
    decreases |t|, 1
  {
    if r[0] == t[0] {
      SkipFront(r[1..], t);
    } else {
      DropHead(r, t[1..]);
      SkipFront(r[1..], t);
    }
  }

  /** When every action has one of the four known types, the three views split the actions between them. */
  lemma {:induction false} ViewsPartition(acts: seq<Action>)
    requires forall i :: 0 <= i < |acts| ==> KnownType(acts[i].actionType)
    ensures |Select(acts, Light)| + |Select(acts, Cover)| + |Select(acts, Fan)| == |acts|
    decreases |acts|
  {
    if acts != [] {
      assert forall i :: 0 <= i < |acts[1..]| ==> acts[1..][i] == acts[i + 1];
      ViewsPartition(acts[1..]);
    }
  }

  // ---------------------------------------------------------------------
  // End to end
  // ---------------------------------------------------------------------

  const LampRecord: Record := map["id" := Str("1"), "name" := Str("Lamp"), "type" := Int(1), "value1" := Int(0), "location" := Str("")]
  const LampEvent: Value := Obj(map["event" := Str("x"), "data" := Arr([Obj(map["id" := Str("1"), "value1" := Int(255)])])])

  /** The lamp as discovery builds it: id "1", state 0, no suggested area. */
  const Lamp: ActionData := ActionData(Base(Str("Lamp"), Str("1"), Some(Int(0)), None), Int(1))

  /** One light record with an empty location gives one entity: id "1", state 0, no suggested area. */
  lemma LampDiscovered(locs: Locations)
    ensures Classify([Obj(LampRecord)], locs) == Built([Lamp], None)
  {
    EntityOfRecord(LampRecord, locs);
    assert [Obj(LampRecord)][1..] == [];
    assert !HasLocation(LampRecord);
    assert ActionOf(LampRecord, locs) == Ok(Lamp);
  }

  /** The event frame that sets "1" to 255 updates the lamp's state and notifies the callbacks of "1" with 255. */
  lemma LampEventHandled(m: Registry)
    ensures Listen([Lamp], m, [LampEvent]) ==
      Step([Lamp.(base := Lamp.base.(state := Some(Int(255))))], Dispatch(m, Str("1"), Int(255)), None)
  {
    var event := Obj(map["id" := Str("1"), "value1" := Int(255)]);
    var after := UpdateAll([Lamp], Str("1"), Int(255));
    assert after == [Lamp.(base := Lamp.base.(state := Some(Int(255))))];
    LampFrame(m);
    var frame := HandleFrame([Lamp], m, LampEvent);
    assert [LampEvent][1..] == [];
    assert frame.calls + [] == frame.calls;
  }

  lemma LampFrame(m: Registry)
    ensures HandleFrame([Lamp], m, LampEvent) ==
      Step(UpdateAll([Lamp], Str("1"), Int(255)), Dispatch(m, Str("1"), Int(255)), None)
  {
    var event := Obj(map["id" := Str("1"), "value1" := Int(255)]);
    assert EventTest(LampEvent) == Ok(true) && LampEvent.fields["data"] == Arr([event]);
    HandleEventsSingle([Lamp], m, event);
  }
}
