/**
 * The callback registry of nhc/controller.py as values: a map from entity
 * id to the ordered list of callbacks registered for it, the append done by
 * `register_callback`, the removal done by the remover it returns, and the
 * invocations `async_dispatch_update` makes. Callbacks are opaque tokens;
 * running one is recorded as an Invocation.
 */
module Callbacks {
  import opened Wrappers
  import opened Json

  /** An opaque callback; two tokens are the same callback when equal. */
  datatype Callback = Callback(token: nat)

  /** One `await callback(value)`. */
  datatype Invocation = Invocation(callback: Callback, value: Value)

  type Registry = map<Value, seq<Callback>>

  /** The registry invariant: no id maps to an empty list. */
  ghost predicate NoEmptyLists(m: Registry) {
    forall id :: id in m ==> m[id] != []
  }

  /** `self._callbacks.get(id, [])` */
  function Listeners(m: Registry, id: Value): seq<Callback> {
    if id in m then m[id] else []
  }

  /** `self._callbacks.setdefault(id, []).append(cb)` */
  function Register(m: Registry, id: Value, cb: Callback): (r: Registry)
    ensures Listeners(r, id) == Listeners(m, id) + [cb]
    ensures forall other :: other != id ==> Listeners(r, other) == Listeners(m, other)
    ensures r.Keys == m.Keys + {id}
    ensures NoEmptyLists(m) ==> NoEmptyLists(r)
  {
    m[id := Listeners(m, id) + [cb]]
  }

  /** The position of the first occurrence of `x` in `s`. */
  function IndexOf(s: seq<Callback>, x: Callback): (k: nat)
    requires x in s
    ensures k < |s| && s[k] == x && x !in s[..k]
  {
    if s[0] == x then 0
    else
      var k := IndexOf(s[1..], x);
      assert s[..k + 1] == [s[0]] + s[1..][..k];
      k + 1
  }

  /** `list.remove(x)`: drops one occurrence of `x`. */
  function RemoveFirst(s: seq<Callback>, x: Callback): (r: seq<Callback>)
    requires x in s
    ensures |r| == |s| - 1
    ensures multiset(r) == multiset(s) - multiset{x}
  {
    if s[0] == x then
      assert s == [s[0]] + s[1..];
      s[1..]
    else
      var rest := RemoveFirst(s[1..], x);
      assert s == [s[0]] + s[1..];
      [s[0]] + rest
  }

  /**
   * The occurrence `list.remove` drops is the first one, and the callbacks
   * before and after it keep their order.
   */
  lemma {:induction false} RemoveFirstSplit(s: seq<Callback>, x: Callback)
    requires x in s
    ensures RemoveFirst(s, x) == s[..IndexOf(s, x)] + s[IndexOf(s, x) + 1..]
  {
    if s[0] == x {
      assert s[..0] == [];
    } else {
      RemoveFirstSplit(s[1..], x);
      ShiftSplit(s, IndexOf(s[1..], x), RemoveFirst(s[1..], x));
    }
  }

  /** Cutting position `k` out of the tail of `s` is cutting position `k + 1` out of `s`. */
  lemma ShiftSplit(s: seq<Callback>, k: nat, rest: seq<Callback>)
    requires k + 1 < |s| && rest == s[1..][..k] + s[1..][k + 1..]
    ensures [s[0]] + rest == s[..k + 1] + s[k + 2..]
  {
    assert s[..k + 1] == [s[0]] + s[1..][..k];
    assert s[k + 2..] == s[1..][k + 1..];
  }

  /** Removing a callback appended after a list without it gives the list back. */
  lemma {:induction false} RemoveFirstAppended(s: seq<Callback>, x: Callback)
    requires x !in s
    ensures RemoveFirst(s + [x], x) == s
  {
    if s != [] {
      assert (s + [x])[1..] == s[1..] + [x];
      RemoveFirstAppended(s[1..], x);
    }
  }

  /**
   * The remover returned by `register_callback(id, cb)`: `remove(cb)` from
   * the id's list, then `del` the id once its list is empty. It raises
   * KeyError when the id has no list and ValueError when `cb` is not in it.
   */
  function Unregister(m: Registry, id: Value, cb: Callback): (r: Result<Registry, Error>)
    ensures id !in m ==> r == Err(KeyError(id))
    ensures id in m && cb !in m[id] ==> r == Err(ValueError)
    ensures id in m && cb in m[id] ==> r.Ok?
  {
    if id !in m then Err(KeyError(id))
    else if cb !in m[id] then Err(ValueError)
    else
      var rest := RemoveFirst(m[id], cb);
      if rest == [] then Ok(m - {id}) else Ok(m[id := rest])
  }

  /**
   * What a successful removal does: one occurrence of the callback leaves
   * the id's list, the id is dropped exactly when that was its last
   * callback, other ids keep their lists, and no list is left empty.
   */
  lemma UnregisterEffect(m: Registry, id: Value, cb: Callback)
    requires Unregister(m, id, cb).Ok?
    ensures multiset(Listeners(Unregister(m, id, cb).value, id)) == multiset(Listeners(m, id)) - multiset{cb}
    ensures id in Unregister(m, id, cb).value ==> Unregister(m, id, cb).value[id] == RemoveFirst(m[id], cb)
    ensures forall other :: other != id ==> Listeners(Unregister(m, id, cb).value, other) == Listeners(m, other)
    ensures Unregister(m, id, cb).value.Keys <= m.Keys
    ensures id in Unregister(m, id, cb).value <==> |m[id]| > 1
    ensures NoEmptyLists(m) ==> NoEmptyLists(Unregister(m, id, cb).value)
  {
  }

  /** The list an id keeps after a removal is the old list without the first occurrence, in order. */
  lemma UnregisterKeepsOrder(m: Registry, id: Value, cb: Callback)
    requires Unregister(m, id, cb).Ok? && id in Unregister(m, id, cb).value
    ensures Unregister(m, id, cb).value[id] == m[id][..IndexOf(m[id], cb)] + m[id][IndexOf(m[id], cb) + 1..]
  {
    RemoveFirstSplit(m[id], cb);
  }

  /** `async_dispatch_update(id, value)`: every callback registered for `id`, in order, gets `value`. */
  function Dispatch(m: Registry, id: Value, value: Value): (calls: seq<Invocation>)
    ensures |calls| == |Listeners(m, id)|
    ensures forall i :: 0 <= i < |calls| ==> calls[i] == Invocation(Listeners(m, id)[i], value)
    ensures id !in m ==> calls == []
  {
    seq(|Listeners(m, id)|, i requires 0 <= i < |Listeners(m, id)| => Invocation(Listeners(m, id)[i], value))
  }

  /** Removing a callback right after registering it, when it was not registered before, undoes the registration. */
  lemma RegisterThenUnregister(m: Registry, id: Value, cb: Callback)
    requires NoEmptyLists(m)
    requires cb !in Listeners(m, id)
    ensures Unregister(Register(m, id, cb), id, cb) == Ok(m)
  {
    if id in m {
      UndoAppend(m, id, cb);
    } else {
      UndoCreate(m, id, cb);
    }
  }

  lemma UndoAppend(m: Registry, id: Value, cb: Callback)
    requires id in m && m[id] != [] && cb !in m[id]
    ensures Unregister(Register(m, id, cb), id, cb) == Ok(m)
  {
    var r := m[id := m[id] + [cb]];
    assert Register(m, id, cb) == r;
    RemoveFirstAppended(m[id], cb);
    UnregisterKeeping(r, id, cb);
    StoreBack(m, id, m[id] + [cb]);
  }

  lemma UnregisterKeeping(r: Registry, id: Value, cb: Callback)
    requires id in r && cb in r[id] && RemoveFirst(r[id], cb) != []
    ensures Unregister(r, id, cb) == Ok(r[id := RemoveFirst(r[id], cb)])
  {
  }

  lemma StoreBack(m: Registry, id: Value, v: seq<Callback>)
    requires id in m
    ensures m[id := v][id := m[id]] == m
  {
  }

  lemma UndoCreate(m: Registry, id: Value, cb: Callback)
    requires id !in m
    ensures Unregister(Register(m, id, cb), id, cb) == Ok(m)
  {
    var r := m[id := [cb]];
    assert Listeners(m, id) + [cb] == [cb];
    assert Register(m, id, cb) == r;
    assert RemoveFirst(r[id], cb) == [];
    assert Unregister(r, id, cb) == Ok(r - {id});
    assert r - {id} == m;
  }

  /** Two callbacks registered for one id are both invoked, in registration order, with the same value. */
  lemma DispatchInRegistrationOrder(m: Registry, id: Value, a: Callback, b: Callback, value: Value)
    ensures Dispatch(Register(Register(m, id, a), id, b), id, value) ==
      Dispatch(m, id, value) + [Invocation(a, value), Invocation(b, value)]
  {
  }

  /** Unsubscribing the only callback of an id removes the id, so a later dispatch invokes nothing. */
  lemma UnregisterOnlyCallback(m: Registry, id: Value, cb: Callback, value: Value)
    requires id in m && m[id] == [cb]
    ensures Unregister(m, id, cb).Ok?
    ensures id !in Unregister(m, id, cb).value
    ensures Dispatch(Unregister(m, id, cb).value, id, value) == []
  {
  }

  /** Calling a remover a second time after it emptied the list raises KeyError. */
  lemma UnregisterTwice(m: Registry, id: Value, cb: Callback)
    requires id in m && m[id] == [cb]
    ensures Unregister(Unregister(m, id, cb).value, id, cb) == Err(KeyError(id))
  {
  }
}
