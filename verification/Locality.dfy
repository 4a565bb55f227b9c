/** Linearizability is local: a history over a whole store is linearizable exactly when the operations
    on each key are. */
module Locality {
  import opened Linearizability
  import opened Operations
  import opened Kv
  import opened Options

  // ----- from the store to one key -----

  /** How often an operation occurs among those of its key. */
  lemma {:induction false} OfKeyCount(ops: seq<Op>, key: string, op: Op)
    ensures multiset(OfKey(ops, key))[op] == if KeyOf(op) == key then multiset(ops)[op] else 0
  {
    if ops != [] {
      var k := |ops| - 1;
      OfKeyCount(ops[..k], key, op);
      assert ops == ops[..k] + [ops[k]];
    }
  }

  lemma OfKeyRearranged(a: seq<Op>, b: seq<Op>, key: string)
    requires multiset(a) == multiset(b)
    ensures multiset(OfKey(a, key)) == multiset(OfKey(b, key))
  {
    forall op
      ensures multiset(OfKey(a, key))[op] == multiset(OfKey(b, key))[op]
    {
      OfKeyCount(a, key, op);
      OfKeyCount(b, key, op);
    }
  }

  lemma OfKeyMember(ops: seq<Op>, key: string, op: Op)
    ensures op in OfKey(ops, key) <==> op in ops && KeyOf(op) == key
  {
    OfKeyCount(ops, key, op);
    assert op in OfKey(ops, key) <==> multiset(OfKey(ops, key))[op] > 0;
    assert op in ops <==> multiset(ops)[op] > 0;
  }

  /** The members of `group` stand at increasing places of the history, which are all those of the key. */
  ghost predicate StandAt(ops: seq<Op>, key: string, group: seq<Op>, places: seq<nat>)
  {
    && |places| == |group|
    && (forall i | 0 <= i < |places| :: places[i] < |ops| && group[i] == ops[places[i]])
    && (forall i, j | 0 <= i < j < |places| :: places[i] < places[j])
    && forall k: nat | k < |ops| :: KeyOf(ops[k]) == key <==> k in places
  }

  lemma StandAtNext(ops: seq<Op>, op: Op, key: string, group: seq<Op>, places: seq<nat>)
    requires StandAt(ops, key, group, places)
    ensures if KeyOf(op) == key then StandAt(ops + [op], key, group + [op], places + [|ops|])
            else StandAt(ops + [op], key, group, places)
  {
    var more := ops + [op];
    assert forall k: nat | k < |ops| :: more[k] == ops[k];
    assert |ops| !in places;
  }

  /** A group keeps the order of the history. */
  lemma {:induction false} OfKeyKeepsOrder(ops: seq<Op>, key: string) returns (places: seq<nat>)
    ensures StandAt(ops, key, OfKey(ops, key), places)
  {
    hide StandAt;
    if ops == [] {
      places := [];
      NothingStands(key);
    } else {
      var n := |ops| - 1;
      var front := OfKeyKeepsOrder(ops[..n], key);
      places := if KeyOf(ops[n]) == key then front + [n] else front;
      StandAtNext(ops[..n], ops[n], key, OfKey(ops[..n], key), front);
      assert ops == ops[..n] + [ops[n]];
    }
  }

  lemma NothingStands(key: string)
    ensures StandAt([], key, [], [])
  {
  }

  lemma {:induction false} OfKeyRespectsTime(ops: seq<Op>, key: string)
    requires RespectsTime(ops)
    ensures RespectsTime(OfKey(ops, key))
  {
    if ops != [] {
      var k := |ops| - 1;
      var front := ops[..k];
      OfKeyRespectsTime(front, key);
      if KeyOf(ops[k]) == key {
        forall i | 0 <= i < |OfKey(front, key)|
          ensures !(ops[k].ret < OfKey(front, key)[i].call)
        {
          OfKeyMember(front, key, OfKey(front, key)[i]);
        }
      }
    }
  }

  lemma {:induction false} RunOpsSnoc<S, V>(m: Model<S, V>, s: S, order: seq<Operation<V>>, op: Operation<V>)
    ensures RunOps(m, s, order + [op]) ==
            var r := RunOps(m, s, order);
            if r.None? then None
            else if m.step(r.value, op.input, op.output).0 then Some(m.step(r.value, op.input, op.output).1) else None
  {
    if order == [] {
      assert [op][1..] == [] && order + [op] == [op];
    } else {
      assert (order + [op])[1..] == order[1..] + [op];
      if m.step(s, order[0].input, order[0].output).0 {
        RunOpsSnoc(m, m.step(s, order[0].input, order[0].output).1, order[1..], op);
      }
    }
  }

  lemma EmptyStore(key: string)
    ensures Get(map[], key) == ""
  {
  }

  lemma StoreStepOnKey(store: Store, op: Op, key: string)
    requires StoreStep(store, op.input, op.output).0
    ensures var store' := StoreStep(store, op.input, op.output).1;
            if KeyOf(op) == key then RegisterStep(Get(store, key), op.input, op.output) == (true, Get(store', key))
            else Get(store', key) == Get(store, key)
  {
  }

  /** A run of the store is, seen from one key, a run of the register. */
  lemma {:induction false} StoreRunIsRegisterRun(order: seq<Op>, key: string)
    requires RunOps(STORE_MODEL, map[], order).Some?
    ensures RunOps(KV_MODEL, "", OfKey(order, key)) == Some(Get(RunOps(STORE_MODEL, map[], order).value, key))
  {
    hide StoreStep, RegisterStep, Get, KeyOf;
    assert Get(map[], key) == "" by { EmptyStore(key); }
    if order != [] {
      var k := |order| - 1;
      var front, op := order[..k], order[k];
      assert order == front + [op];
      RunOpsSnoc(STORE_MODEL, map[], front, op);
      StoreRunIsRegisterRun(front, key);
      RunOpsSnoc(KV_MODEL, "", OfKey(front, key), op);
      StoreStepOnKey(RunOps(STORE_MODEL, map[], front).value, op, key);
    }
  }

  lemma StoreImpliesKey(ops: seq<Op>, key: string)
    requires OpsLinearizable(STORE_MODEL, ops)
    ensures OpsLinearizable(KV_MODEL, OfKey(ops, key))
  {
    var order: seq<Op> :| multiset(order) == multiset(ops) && RespectsTime(order)
        && RunOps(STORE_MODEL, STORE_MODEL.init, order).Some?;
    OfKeyRearranged(order, ops, key);
    OfKeyRespectsTime(order, key);
    StoreRunIsRegisterRun(order, key);
  }

  // ----- from the keys to the store -----

  /** The operations of each key, in an order that is legal from the given store. */
  ghost predicate KeyOrders(ops: seq<Op>, orders: map<string, seq<Op>>, store: Store)
  {
    forall key | key in orders ::
      && multiset(orders[key]) == multiset(OfKey(ops, key))
      && RespectsTime(orders[key])
      && RunOps(KV_MODEL, Get(store, key), orders[key]).Some?
  }

  lemma {:induction false} EarliestReturn(ops: seq<Op>) returns (x: Op)
    requires ops != []
    ensures x in ops && forall z | z in ops :: x.ret <= z.ret
  {
    if |ops| == 1 {
      x := ops[0];
    } else {
      x := EarliestReturn(ops[1..]);
      if ops[0].ret < x.ret {
        x := ops[0];
      }
    }
  }

  /** The operation to put first: the head of the order of the key whose operation returns first. */
  lemma NextOperation(ops: seq<Op>, orders: map<string, seq<Op>>, store: Store) returns (hd: Op)
    requires ops != [] && Timed(ops) && KeyOrders(ops, orders, store)
    requires forall op | op in ops :: KeyOf(op) in orders
    ensures hd in ops && orders[KeyOf(hd)] != [] && orders[KeyOf(hd)][0] == hd
    ensures forall z | z in ops :: !(z.ret < hd.call)
  {
    var x := EarliestReturn(ops);
    var key := KeyOf(x);
    var order := orders[key];
    OfKeyMember(ops, key, x);
    assert x in multiset(OfKey(ops, key));
    assert x in order;
    var j :| 0 <= j < |order| && order[j] == x;
    hd := order[0];
    assert hd in multiset(order);
    OfKeyMember(ops, key, hd);
    assert hd.call <= x.ret;
  }

  /** Taking the head of one key's order leaves legal orders for what remains. */
  lemma OrdersAfter(ops: seq<Op>, rest: seq<Op>, hd: Op, orders: map<string, seq<Op>>, store: Store)
    requires KeyOrders(ops, orders, store) && multiset(ops) == multiset(rest) + multiset{hd}
    requires KeyOf(hd) in orders && orders[KeyOf(hd)] != [] && orders[KeyOf(hd)][0] == hd
    ensures StoreStep(store, hd.input, hd.output).0
    ensures KeyOrders(rest, orders[KeyOf(hd) := orders[KeyOf(hd)][1..]], StoreStep(store, hd.input, hd.output).1)
  {
    hide OfKey, RunOps, RespectsTime;
    var k := KeyOf(hd);
    HeadOfKey(store, hd, orders[k]);
    var orders', store' := orders[k := orders[k][1..]], StoreStep(store, hd.input, hd.output).1;
    forall key | key in orders'
      ensures multiset(orders'[key]) == multiset(OfKey(rest, key))
      ensures RespectsTime(orders'[key])
      ensures RunOps(KV_MODEL, Get(store', key), orders'[key]).Some?
    {
      RestOfKey(ops, rest, hd, key);
      if key == k {
        MultisetCancel(multiset(orders[k][1..]), multiset(OfKey(rest, key)), hd);
      }
    }
  }

  /** Applying the first operation of a key's order to the store advances the register of that key only. */
  lemma HeadOfKey(store: Store, hd: Op, order: seq<Op>)
    requires order != [] && order[0] == hd && RespectsTime(order)
    requires RunOps(KV_MODEL, Get(store, KeyOf(hd)), order).Some?
    ensures var r := StoreStep(store, hd.input, hd.output);
            && r.0 && RunOps(KV_MODEL, Get(r.1, KeyOf(hd)), order[1..]).Some?
            && forall key | key != KeyOf(hd) :: Get(r.1, key) == Get(store, key)
    ensures RespectsTime(order[1..]) && multiset(order) == multiset(order[1..]) + multiset{hd}
  {
    assert order == [hd] + order[1..];
  }

  lemma RestOfKey(ops: seq<Op>, rest: seq<Op>, hd: Op, key: string)
    requires multiset(ops) == multiset(rest) + multiset{hd}
    ensures multiset(OfKey(ops, key)) == if KeyOf(hd) == key then multiset(OfKey(rest, key)) + multiset{hd}
            else multiset(OfKey(rest, key))
  {
    assert multiset(rest + [hd]) == multiset(ops);
    OfKeyRearranged(ops, rest + [hd], key);
    OfKeySnoc(rest, hd, key);
  }

  /** Legal orders of all keys merge into one legal order of the whole history. */
  lemma {:induction false} MergeOrders(ops: seq<Op>, orders: map<string, seq<Op>>, store: Store)
    returns (order: seq<Op>)
    requires Timed(ops) && KeyOrders(ops, orders, store)
    requires forall op | op in ops :: KeyOf(op) in orders
    ensures multiset(order) == multiset(ops) && RespectsTime(order) && RunOps(STORE_MODEL, store, order).Some?
    decreases |ops|
  {
    hide KeyOrders, StoreStep, OfKey, KeyOf;
    if ops == [] {
      order := [];
    } else {
      var hd := NextOperation(ops, orders, store);
      var k :| 0 <= k < |ops| && ops[k] == hd;
      var rest := Without(ops, k);
      WithoutMultiset(ops, k);
      OrdersAfter(ops, rest, hd, orders, store);
      forall op | op in rest
        ensures op in ops
      {
        assert op in multiset(rest);
        assert op in multiset(ops);
      }
      var orders' := orders[KeyOf(hd) := orders[KeyOf(hd)][1..]];
      var tail := MergeOrders(rest, orders', StoreStep(store, hd.input, hd.output).1);
      order := [hd] + tail;
      ConsOrder(ops, rest, hd, tail, store);
    }
  }

  lemma ConsOrder(ops: seq<Op>, rest: seq<Op>, hd: Op, tail: seq<Op>, store: Store)
    requires multiset(ops) == multiset(rest) + multiset{hd} && multiset(tail) == multiset(rest) && RespectsTime(tail)
    requires forall z | z in ops :: !(z.ret < hd.call)
    requires StoreStep(store, hd.input, hd.output).0 && RunOps(STORE_MODEL, StoreStep(store, hd.input, hd.output).1,
             tail).Some?
    ensures multiset([hd] + tail) == multiset(ops) && RespectsTime([hd] + tail)
            && RunOps(STORE_MODEL, store, [hd] + tail).Some?
  {
    var order := [hd] + tail;
    assert order[1..] == tail;
    forall j | 0 <= j < |tail|
      ensures !(tail[j].ret < hd.call)
    {
      assert tail[j] in multiset(tail);
      assert tail[j] in multiset(ops);
    }
  }

  lemma KeysImplyStore(ops: seq<Op>)
    requires Timed(ops)
    requires forall key | key in Keys(ops) :: OpsLinearizable(KV_MODEL, OfKey(ops, key))
    ensures OpsLinearizable(STORE_MODEL, ops)
  {
    var orders := ChooseOrders(ops, Keys(ops));
    forall op | op in ops
      ensures KeyOf(op) in orders
    {
      var i :| 0 <= i < |ops| && ops[i] == op;
    }
    var order := MergeOrders(ops, orders, map[]);
  }

  lemma {:induction false} ChooseOrders(ops: seq<Op>, keys: set<string>) returns (orders: map<string, seq<Op>>)
    requires forall key | key in keys :: OpsLinearizable(KV_MODEL, OfKey(ops, key))
    ensures orders.Keys == keys && KeyOrders(ops, orders, map[])
  {
    if keys == {} {
      orders := map[];
    } else {
      var key :| key in keys;
      orders := ChooseOrders(ops, keys - {key});
      var order: seq<Op> :| multiset(order) == multiset(OfKey(ops, key)) && RespectsTime(order)
          && RunOps(KV_MODEL, KV_MODEL.init, order).Some?;
      orders := orders[key := order];
    }
  }

  /** The whole-store history is linearizable exactly when every group of the partition is. */
  lemma PartitionIsLocal(ops: seq<Op>, keys: seq<string>, groups: seq<seq<Op>>)
    requires Timed(ops) && IsPartition(ops, keys, groups)
    ensures OpsLinearizable(STORE_MODEL, ops) <==> forall i | 0 <= i < |groups| :: OpsLinearizable(KV_MODEL, groups[i])
  {
    if OpsLinearizable(STORE_MODEL, ops) {
      forall i | 0 <= i < |groups|
        ensures OpsLinearizable(KV_MODEL, groups[i])
      {
        StoreImpliesKey(ops, keys[i]);
      }
    }
    if forall i | 0 <= i < |groups| :: OpsLinearizable(KV_MODEL, groups[i]) {
      forall key | key in Keys(ops)
        ensures OpsLinearizable(KV_MODEL, OfKey(ops, key))
      {
        var i :| 0 <= i < |keys| && keys[i] == key;
        assert groups[i] == OfKey(ops, key);
      }
      KeysImplyStore(ops);
    }
  }
}
