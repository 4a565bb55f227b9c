/** The key-value model, its split of a history by key, and the locality of linearizability. */
module Kv {
  import opened Linearizability
  import opened Operations
  import Sorting

  newtype uint8 = x: int | 0 <= x < 256

  /** The dynamic values of inputs and outputs; `op` is 0 for get, 1 for put, anything else for append. */
  datatype Value = KvInput(op: uint8, key: string, value: string) | KvOutput(value: string)

  type Op = Operation<Value>

  /** What the type assertions of the model demand. */
  predicate WellTyped(op: Op)
  {
    op.input.KvInput? && op.output.KvOutput?
  }

  ghost predicate AllWellTyped(ops: seq<Op>)
  {
    forall i | 0 <= i < |ops| :: WellTyped(ops[i])
  }

  predicate IsGet(op: Op)
  {
    op.input.KvInput? && op.input.op == 0
  }

  predicate IsPut(op: Op)
  {
    op.input.KvInput? && op.input.op == 1
  }

  predicate IsAppend(op: Op)
  {
    op.input.KvInput? && op.input.op > 1
  }

  // ----- the register model -----

  function RegisterStep(state: string, input: Value, output: Value): (bool, string)
  {
    if !input.KvInput? || !output.KvOutput? then (false, state)  // a failed type assertion
    else if input.op == 0 then (output.value == state, state)
    else if input.op == 1 then (true, input.value)
    else (true, state + input.value)
  }

  /** One key's value, compared with `==`. */
  const KV_MODEL: Model<string, Value> := Model("", RegisterStep, (s: string, t: string) => s == t)

  /** States that compare equal accept the same continuations, and states that do not are told apart
      by one operation. */
  lemma KvEqualSimulates()
    ensures EqualSimulates(KV_MODEL)
    ensures forall s, t :: KV_MODEL.equal(s, t) <==>
              forall input, output :: KV_MODEL.step(s, input, output).0 == KV_MODEL.step(t, input, output).0
  {
    forall s, t
      ensures KV_MODEL.equal(s, t) <==>
              forall input, output :: KV_MODEL.step(s, input, output).0 == KV_MODEL.step(t, input, output).0
    {
      if s != t {
        var get := KvInput(0, "", "");
        assert KV_MODEL.step(s, get, KvOutput(s)).0 && !KV_MODEL.step(t, get, KvOutput(s)).0;
      }
    }
  }

  // ----- the store the register model stands for -----

  type Store = map<string, string>

  function Get(store: Store, key: string): string
  {
    if key in store then store[key] else ""
  }

  /** A whole map of keys, in which absent keys read as "". */
  function StoreStep(store: Store, input: Value, output: Value): (bool, Store)
  {
    if !input.KvInput? || !output.KvOutput? then (false, store)
    else if input.op == 0 then (output.value == Get(store, input.key), store)
    else if input.op == 1 then (true, store[input.key := input.value])
    else (true, store[input.key := Get(store, input.key) + input.value])
  }

  const STORE_MODEL: Model<Store, Value> := Model(map[], StoreStep, (s: Store, t: Store) => s == t)

  // ----- the split by key -----

  function KeyOf(op: Op): string
  {
    if op.input.KvInput? then op.input.key else ""
  }

  function Keys(ops: seq<Op>): set<string>
  {
    set i | 0 <= i < |ops| :: KeyOf(ops[i])
  }

  /** No operation is called at the very time another one on the same key returns. */
  ghost predicate NoTiesPerKey(ops: seq<Op>)
  {
    forall i, j | 0 <= i < |ops| && 0 <= j < |ops| && KeyOf(ops[i]) == KeyOf(ops[j]) :: ops[i].ret != ops[j].call
  }

  /** The operations on one key, in history order. */
  function OfKey(ops: seq<Op>, key: string): seq<Op>
  {
    if ops == [] then []
    else
      var k := |ops| - 1;
      if KeyOf(ops[k]) == key then OfKey(ops[..k], key) + [ops[k]] else OfKey(ops[..k], key)
  }

  ghost predicate StrictlySorted(keys: seq<string>)
  {
    forall i, j | 0 <= i < j < |keys| :: Sorting.StringLeq(keys[i], keys[j]) && keys[i] != keys[j]
  }

  /** One group for each key that occurs, in key order. */
  ghost predicate IsPartition(ops: seq<Op>, keys: seq<string>, groups: seq<seq<Op>>)
  {
    && StrictlySorted(keys)
    && (forall key :: key in keys <==> key in Keys(ops))
    && |groups| == |keys| && forall i | 0 <= i < |keys| :: groups[i] == OfKey(ops, keys[i])
  }

  lemma OfKeySnoc(ops: seq<Op>, op: Op, key: string)
    ensures OfKey(ops + [op], key) == if KeyOf(op) == key then OfKey(ops, key) + [op] else OfKey(ops, key)
    ensures Keys(ops + [op]) == Keys(ops) + {KeyOf(op)}
  {
    var more := ops + [op];
    assert more[..|ops|] == ops;
    forall k
      ensures k in Keys(more) <==> k in Keys(ops) + {KeyOf(op)}
    {
      if k in Keys(ops) {
        var i :| 0 <= i < |ops| && KeyOf(ops[i]) == k;
        assert KeyOf(more[i]) == k;
      }
      if k == KeyOf(op) {
        assert KeyOf(more[|ops|]) == k;
      }
    }
  }

  method GroupByKey(history: seq<Op>) returns (m: map<string, seq<Op>>)
    requires forall i | 0 <= i < |history| :: history[i].input.KvInput?
    ensures m.Keys == Keys(history) && forall key | key in m :: m[key] == OfKey(history, key)
  {
    hide OfKey;
    m := map[];
    EmptyHistory();
    for i := 0 to |history|
      invariant m.Keys == Keys(history[..i])
      invariant forall key :: OfKey(history[..i], key) == if key in m then m[key] else []
    {
      var v := history[i];
      var key := v.input.key;
      ghost var before, after := history[..i], history[..i + 1];
      assert after == before + [v];
      forall k
        ensures OfKey(after, k) == if k == key then OfKey(before, k) + [v] else OfKey(before, k)
      {
        OfKeySnoc(before, v, k);
      }
      OfKeySnoc(before, v, key);
      m := m[key := (if key in m then m[key] else []) + [v]];
    }
    assert history[..|history|] == history;
  }

  lemma EmptyHistory()
    ensures Keys([]) == {} && forall key :: OfKey([], key) == []
  {
  }

  method Partition(history: seq<Op>) returns (ret: seq<seq<Op>>)
    requires forall i | 0 <= i < |history| :: history[i].input.KvInput?
    ensures exists keys :: IsPartition(history, keys, ret)
  {
    hide OfKey, Keys, Sorting.StringLeq;
    var m := GroupByKey(history);
    var unsorted := MapKeys(m);
    Sorting.StringOrder();
    var sorted := Sorting.Sort(unsorted, Sorting.StringLeq);
    SortedDistinct(unsorted, sorted);
    ret := [];
    for i := 0 to |sorted|
      invariant |ret| == i && forall j | 0 <= j < i :: ret[j] == OfKey(history, sorted[j])
    {
      assert sorted[i] in sorted;
      ret := ret + [m[sorted[i]]];
    }
    assert IsPartition(history, sorted, ret);
  }

  /** The keys of the map, in the arbitrary order of map iteration. */
  method MapKeys(m: map<string, seq<Op>>) returns (keys: seq<string>)
    ensures forall key :: key in keys <==> key in m
    ensures forall i, j | 0 <= i < j < |keys| :: keys[i] != keys[j]
  {
    keys := [];
    var rest := m.Keys;
    while rest != {}
      invariant rest <= m.Keys
      invariant forall key :: key in keys <==> key in m && key !in rest
      invariant forall i, j | 0 <= i < j < |keys| :: keys[i] != keys[j]
      decreases |rest|
    {
      var k :| k in rest;
      keys := keys + [k];
      rest := rest - {k};
    }
  }

  lemma SortedDistinct(a: seq<string>, b: seq<string>)
    requires multiset(a) == multiset(b) && Sorting.SortedBy(b, Sorting.StringLeq)
    requires forall i, j | 0 <= i < j < |a| :: a[i] != a[j]
    ensures StrictlySorted(b)
    ensures forall key :: key in b <==> key in a
  {
    forall i, j | 0 <= i < j < |b|
      ensures b[i] != b[j]
    {
      if b[i] == b[j] {
        TwiceInMultiset(b, i, j);
        OnceInMultiset(a, b[i]);
      }
    }
    forall key
      ensures key in b <==> key in a
    {
      assert key in b <==> key in multiset(b);
      assert key in a <==> key in multiset(a);
    }
  }
}
