/** What the key-value model means, in terms of the order of operations alone: a get returns what was
    last put on its key, followed by what has been appended since. */
module KvMeaning {
  import opened Linearizability
  import opened Operations
  import opened Kv
  import opened Options
  import Locality

  predicate PutsOn(op: Op, key: string)
  {
    IsPut(op) && KeyOf(op) == key
  }

  predicate AppendsTo(op: Op, key: string)
  {
    IsAppend(op) && KeyOf(op) == key
  }

  /** The last put on the key before place `j`, or -1. */
  function LastPut(order: seq<Op>, key: string, j: nat): (p: int)
    requires j <= |order|
    ensures -1 <= p < j
    ensures p >= 0 ==> PutsOn(order[p], key)
    ensures forall q | p < q < j :: !PutsOn(order[q], key)
  {
    if j == 0 then -1 else if PutsOn(order[j - 1], key) then j - 1 else LastPut(order, key, j - 1)
  }

  /** What is appended to the key from place `from` on and before place `j`, in order. */
  function Appended(order: seq<Op>, key: string, from: nat, j: nat): string
    requires from <= j <= |order|
  {
    if from == j then ""
    else Appended(order, key, from, j - 1) + if AppendsTo(order[j - 1], key) then order[j - 1].input.value else ""
  }

  function Current(order: seq<Op>, key: string, j: nat): string
    requires j <= |order|
  {
    var p := LastPut(order, key, j);
    (if p < 0 then "" else order[p].input.value) + Appended(order, key, p + 1, j)
  }

  /** Every get returns what its key holds at its place. */
  ghost predicate ReadsCurrent(order: seq<Op>)
  {
    forall j | 0 <= j < |order| && IsGet(order[j]) && order[j].output.KvOutput? ::
      order[j].output.value == Current(order, order[j].input.key, j)
  }

  // ----- one more operation -----

  lemma {:induction false} LastPutBefore(order: seq<Op>, op: Op, key: string, j: nat)
    requires j <= |order|
    ensures LastPut(order + [op], key, j) == LastPut(order, key, j)
  {
    if j > 0 {
      LastPutBefore(order, op, key, j - 1);
    }
  }

  lemma {:induction false} AppendedBefore(order: seq<Op>, op: Op, key: string, from: nat, j: nat)
    requires from <= j <= |order|
    ensures Appended(order + [op], key, from, j) == Appended(order, key, from, j)
  {
    if from < j {
      AppendedBefore(order, op, key, from, j - 1);
    }
  }

  lemma CurrentBefore(order: seq<Op>, op: Op, key: string, j: nat)
    requires j <= |order|
    ensures Current(order + [op], key, j) == Current(order, key, j)
  {
    LastPutBefore(order, op, key, j);
    AppendedBefore(order, op, key, LastPut(order, key, j) + 1, j);
  }

  lemma CurrentAfter(order: seq<Op>, op: Op, key: string)
    ensures Current(order + [op], key, |order| + 1)
         == if PutsOn(op, key) then op.input.value
            else if AppendsTo(op, key) then Current(order, key, |order|) + op.input.value
            else Current(order, key, |order|)
  {
    hide LastPut, Appended;
    var more, n := order + [op], |order|;
    LastPutBefore(order, op, key, n);
    LastPutNext(more, key, n);
    if PutsOn(op, key) {
      AppendedNext(more, key, n + 1, n);
    } else {
      var p := LastPut(order, key, n);
      AppendedBefore(order, op, key, p + 1, n);
      AppendedNext(more, key, p + 1, n);
      assert Current(order, key, n) + "" == Current(order, key, n);
    }
  }

  lemma LastPutNext(order: seq<Op>, key: string, j: nat)
    requires j < |order|
    ensures LastPut(order, key, j + 1) == if PutsOn(order[j], key) then j else LastPut(order, key, j)
  {
  }

  lemma AppendedNext(order: seq<Op>, key: string, from: nat, j: nat)
    requires j < |order| && from <= j + 1
    ensures Appended(order, key, from, j + 1)
         == if from > j then ""
            else Appended(order, key, from, j) + if AppendsTo(order[j], key) then order[j].input.value else ""
  {
  }

  lemma ReadsSnoc(order: seq<Op>, op: Op)
    requires WellTyped(op)
    ensures ReadsCurrent(order + [op]) <==>
            ReadsCurrent(order) && (IsGet(op) ==> op.output.value == Current(order, op.input.key, |order|))
  {
    var more := order + [op];
    forall j | 0 <= j <= |order|
      ensures j < |order| ==> more[j] == order[j]
      ensures forall key :: Current(more, key, j) == Current(order, key, j)
    {
      forall key
        ensures Current(more, key, j) == Current(order, key, j)
      {
        CurrentBefore(order, op, key, j);
      }
    }
    assert more[|order|] == op;
    if ReadsCurrent(more) {
      forall j | 0 <= j < |order| && IsGet(order[j]) && order[j].output.KvOutput?
        ensures order[j].output.value == Current(order, order[j].input.key, j)
      {
        assert more[j] == order[j];
      }
    }
  }

  // ----- legal orders -----

  lemma NothingYet()
    ensures ReadsCurrent([]) && forall key :: Current([], key, 0) == ""
  {
  }

  lemma {:induction false} StoreFollows(order: seq<Op>)
    requires AllWellTyped(order)
    ensures RunOps(STORE_MODEL, map[], order).Some? <==> ReadsCurrent(order)
    ensures RunOps(STORE_MODEL, map[], order).Some? ==>
              forall key :: Get(RunOps(STORE_MODEL, map[], order).value, key) == Current(order, key, |order|)
  {
    hide Current, ReadsCurrent;
    NothingYet();
    if order != [] {
      var n := |order| - 1;
      var front, op := order[..n], order[n];
      assert order == front + [op];
      assert AllWellTyped(front);
      StoreFollows(front);
      Locality.RunOpsSnoc(STORE_MODEL, map[], front, op);
      ReadsSnoc(front, op);
      forall key
        ensures Current(order, key, |order|)
             == if PutsOn(op, key) then op.input.value
                else if AppendsTo(op, key) then Current(front, key, n) + op.input.value
                else Current(front, key, n)
      {
        CurrentAfter(front, op, key);
      }
    }
  }

  /** An order of operations is legal for the whole store exactly if every get returns the value of the
      last put on its key before it ("" if there is none), followed by the values of all appends to
      that key since then, in order. */
  lemma StoreLegalIffReadsCurrent(order: seq<Op>)
    requires AllWellTyped(order)
    ensures RunOps(STORE_MODEL, STORE_MODEL.init, order).Some? <==> ReadsCurrent(order)
  {
    StoreFollows(order);
  }

  lemma {:induction false} RegisterFollows(order: seq<Op>, key: string)
    requires AllWellTyped(order) && forall i | 0 <= i < |order| :: KeyOf(order[i]) == key
    ensures RunOps(KV_MODEL, "", order).Some? <==> ReadsCurrent(order)
    ensures RunOps(KV_MODEL, "", order).Some? ==> RunOps(KV_MODEL, "", order).value == Current(order, key, |order|)
  {
    hide Current, ReadsCurrent;
    NothingYet();
    if order != [] {
      var n := |order| - 1;
      var front, op := order[..n], order[n];
      assert order == front + [op];
      RegisterFollows(front, key);
      Locality.RunOpsSnoc(KV_MODEL, "", front, op);
      ReadsSnoc(front, op);
      CurrentAfter(front, op, key);
    }
  }

  /** The same for one register and operations on one key. */
  lemma RegisterLegalIffReadsCurrent(order: seq<Op>, key: string)
    requires AllWellTyped(order) && forall i | 0 <= i < |order| :: KeyOf(order[i]) == key
    ensures RunOps(KV_MODEL, KV_MODEL.init, order).Some? <==> ReadsCurrent(order)
  {
    RegisterFollows(order, key);
  }

  /** So a history is linearizable over the store exactly if some order that respects real time lets
      every get return what its key holds. */
  lemma LinearizableIffSomeOrderReads(ops: seq<Op>)
    requires AllWellTyped(ops)
    ensures OpsLinearizable(STORE_MODEL, ops) <==>
            exists order: seq<Op> :: multiset(order) == multiset(ops) && RespectsTime(order) && ReadsCurrent(order)
  {
    forall order: seq<Op> | multiset(order) == multiset(ops)
      ensures RunOps(STORE_MODEL, STORE_MODEL.init, order).Some? <==> ReadsCurrent(order)
    {
      forall i | 0 <= i < |order|
        ensures WellTyped(order[i])
      {
        assert order[i] in multiset(order);
        assert order[i] in ops;
      }
      StoreLegalIffReadsCurrent(order);
    }
  }

  /** Appending "x" and then "y" to a key makes "xy", and nothing else can be read. */
  lemma AppendsAppend(x: Op, y: Op, get: Op)
    requires WellTyped(x) && WellTyped(y) && WellTyped(get) && KeyOf(x) == KeyOf(y) == KeyOf(get)
    requires x.input.op == 2 && x.input.value == "x" && y.input.op == 2 && y.input.value == "y" && get.input.op == 0
    ensures RunOps(STORE_MODEL, STORE_MODEL.init, [x, y, get]).Some? <==> get.output.value == "xy"
    ensures RunOps(KV_MODEL, KV_MODEL.init, [x, y, get]).Some? <==> get.output.value == "xy"
  {
    var key, order := KeyOf(x), [x, y, get];
    assert LastPut(order, key, 1) == LastPut(order, key, 0) == -1;
    assert LastPut(order, key, 2) == -1;
    assert Appended(order, key, 0, 1) == "x";
    assert Appended(order, key, 0, 2) == "x" + "y";
    assert Current(order, key, 2) == "xy";
    assert order[0] == x && order[1] == y && order[2] == get;
    assert ReadsCurrent(order) <==> get.output.value == "xy" by {
      assert IsGet(order[2]) && !IsGet(order[0]) && !IsGet(order[1]);
    }
    StoreLegalIffReadsCurrent(order);
    RegisterLegalIffReadsCurrent(order, key);
  }
}
