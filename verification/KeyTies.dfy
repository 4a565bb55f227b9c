/** Exactly which ties can make the verdict on a key-value history wrong: a return and a call at the
    same time on the same key. */
module KeyTies {
  import opened Linearizability
  import opened Operations
  import opened Kv
  import opened Porcupine
  import opened Options
  import Locality
  import Sorting
  import Ties

  /** The same keys at the same times; what the operations do may differ. */
  ghost predicate SameShape(shape: seq<Op>, ops: seq<Op>)
  {
    && |ops| == |shape|
    && forall i | 0 <= i < |ops| ::
         KeyOf(ops[i]) == KeyOf(shape[i]) && ops[i].call == shape[i].call && ops[i].ret == shape[i].ret
  }

  /** However the sort breaks ties, the groups are linearizable exactly if the history is. */
  ghost predicate AlwaysRight(ops: seq<Op>)
    requires Timed(ops)
  {
    forall keys, groups, l | IsPartition(ops, keys, groups) && EntriesOfGroups(groups, l) ::
      AllWellFormed(l) && (EachLinearizable(KV_MODEL, l, Range(|l|)) <==> OpsLinearizable(STORE_MODEL, ops))
  }

  // ----- a history that goes wrong at a tie -----

  /** A put of "v", a get that returns "", or an append of nothing. */
  predicate Plain(op: Op)
  {
    && WellTyped(op)
    && (IsPut(op) ==> op.input.value == "v")
    && (IsGet(op) ==> op.output.value == "")
    && (!IsPut(op) && !IsGet(op) ==> op.input.value == "")
  }

  /** The history of the given shape that puts at `a`, gets at `b` and appends nothing elsewhere. */
  function PutAndGet(shape: seq<Op>, a: nat, b: nat): (ops: seq<Op>)
    ensures |ops| == |shape|
    ensures forall i | 0 <= i < |ops| :: ops[i] == PlainOp(shape[i], if i == a then 1 else if i == b then 0 else 2)
  {
    seq(|shape|, i requires 0 <= i < |shape| => PlainOp(shape[i], if i == a then 1 else if i == b then 0 else 2))
  }

  function PlainOp(op: Op, kind: uint8): Op
  {
    Operation(op.clientId, KvInput(kind, KeyOf(op), if kind == 1 then "v" else ""), op.call, KvOutput(""), op.ret)
  }

  // ----- the store accepts it -----

  function Point(op: Op): int
  {
    if IsPut(op) then op.ret else op.call
  }

  /** Puts take effect when they return, all others when they are called, and gets come first. */
  predicate PutLate(x: Op, y: Op)
  {
    Point(x) < Point(y) || (Point(x) == Point(y) && (IsGet(x) || !IsGet(y)))
  }

  lemma PutLateOrder()
    ensures Sorting.TotalPreorder(PutLate)
  {
  }

  ghost predicate Blank(store: Store)
  {
    forall key :: Get(store, key) == ""
  }

  lemma {:induction false} GetsBeforePutsRun(store: Store, order: seq<Op>)
    requires forall i | 0 <= i < |order| :: Plain(order[i])
    requires forall i, j | 0 <= i < j < |order| :: !(IsPut(order[i]) && IsGet(order[j]))
    requires Blank(store) || forall i | 0 <= i < |order| :: !IsGet(order[i])
    ensures RunOps(STORE_MODEL, store, order).Some?
    decreases |order|
  {
    if order != [] {
      var r := StoreStep(store, order[0].input, order[0].output);
      if Blank(store) && !IsPut(order[0]) {
        StaysBlank(store, order[0]);
      }
      assert r.0;
      GetsBeforePutsRun(r.1, order[1..]);
    }
  }

  lemma StaysBlank(store: Store, op: Op)
    requires Blank(store) && Plain(op) && !IsPut(op)
    ensures Blank(StoreStep(store, op.input, op.output).1)
  {
    var next := StoreStep(store, op.input, op.output).1;
    assert Get(store, op.input.key) == "";
    forall key
      ensures Get(next, key) == ""
    {
      assert Get(store, key) == "";
    }
  }

  lemma StoreAccepts(shape: seq<Op>, a: nat, b: nat)
    requires Timed(shape) && a < |shape| && b < |shape| && a != b && shape[a].ret == shape[b].call
    ensures OpsLinearizable(STORE_MODEL, PutAndGet(shape, a, b))
  {
    hide Sorting.SortedBy, Sorting.TotalPreorder, RespectsTime, RunOps;
    var ops := PutAndGet(shape, a, b);
    var order := Ties.SortFunction(ops, PutLate);
    PutLateOrder();
    Ties.SortFunctionSorts(ops, PutLate);
    SortedFacts(shape, a, b, order);
    GetsBeforePutsRun(map[], order);
  }

  lemma SortedFacts(shape: seq<Op>, a: nat, b: nat, order: seq<Op>)
    requires Timed(shape) && a < |shape| && b < |shape| && a != b && shape[a].ret == shape[b].call
    requires Sorting.SortedBy(order, PutLate) && multiset(order) == multiset(PutAndGet(shape, a, b))
    ensures RespectsTime(order) && Blank(map[])
    ensures forall i | 0 <= i < |order| :: Plain(order[i])
    ensures forall i, j | 0 <= i < j < |order| :: !(IsPut(order[i]) && IsGet(order[j]))
  {
    var ops := PutAndGet(shape, a, b);
    forall i | 0 <= i < |order|
      ensures Plain(order[i]) && order[i].call < order[i].ret
      ensures IsPut(order[i]) ==> order[i].ret == shape[a].ret
      ensures IsGet(order[i]) ==> order[i].call == shape[b].call
    {
      assert order[i] in multiset(order);
      assert order[i] in ops;
      var k :| 0 <= k < |ops| && ops[k] == order[i];
    }
    forall i, j | 0 <= i < j < |order|
      ensures !(order[j].ret < order[i].call) && !(IsPut(order[i]) && IsGet(order[j]))
    {
      assert PutLate(order[i], order[j]);
    }
  }

  // ----- the register does not, if the put comes first -----

  lemma StepOfGroup(group: seq<Op>, h: seq<Entry<Value>>, s: string, id: int)
    requires EntriesOf(group, h) && Timed(group) && WellFormed(h) && 0 <= id < |group|
    ensures id in Ids(h) && StepOf(KV_MODEL, h, s, id) == RegisterStep(s, group[id].input, group[id].output)
  {
    hide Complete, EntriesOf;
    EntryPresent(group, h, id);
  }

  /** After the put of "v" no get of "" is accepted. */
  lemma {:induction false} GetFails(group: seq<Op>, h: seq<Entry<Value>>, b: nat, c: seq<int>)
    requires EntriesOf(group, h) && Timed(group) && WellFormed(h) && b < |group| && IsGet(group[b]) && b in c
    requires forall i | 0 <= i < |group| :: Plain(group[i])
    requires forall i | 0 <= i < |c| :: 0 <= c[i] < |group|
    ensures Run(KV_MODEL, h, "v", c).None?
  {
    hide Complete, EntriesOf, Timed, Ids, StepOf;
    StepOfGroup(group, h, "v", c[0]);
    if c[0] != b {
      assert b in c[1..];
      var r := StepOf(KV_MODEL, h, "v", c[0]);
      assert r.0 ==> r.1 == "v";
      GetFails(group, h, b, c[1..]);
    }
  }

  lemma RegisterRejects(group: seq<Op>, h: seq<Entry<Value>>, a: nat, b: nat)
    requires EntriesOf(group, h) && Timed(group) && WellFormed(h) && a < |group| && b < |group| && a != b
    requires IsPut(group[a]) && IsGet(group[b]) && Precedes(h, a, b)
    requires forall i | 0 <= i < |group| :: Plain(group[i])
    ensures !Linearizable(KV_MODEL, h)
  {
    hide EntriesOf, Timed, StepOf, Complete, Run;
    forall c
      ensures !IsLinearization(KV_MODEL, h, c)
    {
      if IsLinearization(KV_MODEL, h, c) {
        StepOfGroup(group, h, "", a);
        StepOfGroup(group, h, "", b);
        assert a in Elems(c) && b in Elems(c);
        var i: nat :| i < |c| && c[i] == a;
        var j: nat :| j < |c| && c[j] == b;
        assert i < j;
        PutThenGet(group, h, c, i, j);
      }
    }
  }

  lemma PutThenGet(group: seq<Op>, h: seq<Entry<Value>>, c: seq<int>, i: nat, j: nat)
    requires EntriesOf(group, h) && Timed(group) && WellFormed(h) && Elems(c) <= Ids(h) && i < j < |c|
    requires 0 <= c[i] < |group| && 0 <= c[j] < |group| && IsPut(group[c[i]]) && IsGet(group[c[j]])
    requires forall k | 0 <= k < |group| :: Plain(group[k])
    ensures Run(KV_MODEL, h, "", c).None?
  {
    hide EntriesOf, Timed, StepOf, Complete, Ids;
    EntriesWellFormed(group, h);
    forall k | 0 <= k < |c|
      ensures 0 <= c[k] < |group|
    {
      assert c[k] in Elems(c);
    }
    assert c == c[..i] + c[i..];
    RunAppend(KV_MODEL, h, "", c[..i], c[i..]);
    var s := Run(KV_MODEL, h, "", c[..i]);
    if s.Some? {
      StepOfGroup(group, h, s.value, c[i]);
      assert c[i..][1..] == c[i + 1..] && c[i + 1..][j - i - 1] == c[j];
      GetFails(group, h, c[j], c[i + 1..]);
    }
  }

  // ----- some arrangement of the entries puts it first -----

  lemma {:induction false} ListKeys(s: set<string>) returns (keys: seq<string>)
    ensures forall key :: key in keys <==> key in s
    ensures forall i, j | 0 <= i < j < |keys| :: keys[i] != keys[j]
  {
    if s == {} {
      keys := [];
    } else {
      var key :| key in s;
      var rest := ListKeys(s - {key});
      keys := [key] + rest;
    }
  }

  lemma SomePartition(ops: seq<Op>) returns (keys: seq<string>, groups: seq<seq<Op>>)
    ensures IsPartition(ops, keys, groups)
  {
    hide Sorting.TotalPreorder, Sorting.StringLeq, OfKey, Keys;
    var unsorted := ListKeys(Keys(ops));
    keys := Ties.SortFunction(unsorted, Sorting.StringLeq);
    Sorting.StringOrder();
    Ties.SortFunctionSorts(unsorted, Sorting.StringLeq);
    SortedDistinct(unsorted, keys);
    groups := seq(|keys|, i requires 0 <= i < |keys| => OfKey(ops, keys[i]));
  }

  /** The entries of every group, with the given ones for group x. */
  lemma SomeEntries(groups: seq<seq<Op>>, x: nat, h: seq<Entry<Value>>) returns (l: seq<seq<Entry<Value>>>)
    requires x < |groups| && EntriesOf(groups[x], h)
    ensures EntriesOfGroups(groups, l) && l[x] == h
  {
    hide Sorting.TotalPreorder, Sorting.SortedBy;
    l := seq(|groups|, i requires 0 <= i < |groups| =>
      if i == x then h else Ties.SortFunction(RawEntries(groups[i], |groups[i]|), Earlier));
    EarlierIsOrder<Value>();
    forall i | 0 <= i < |groups|
      ensures EntriesOf(groups[i], l[i])
    {
      if i != x {
        Ties.SortFunctionSorts(RawEntries(groups[i], |groups[i]|), Earlier);
      }
    }
  }

  lemma TieInGroup(ops: seq<Op>, key: string, a: nat, b: nat) returns (h: seq<Entry<Value>>)
    requires Timed(ops) && a < |ops| && b < |ops| && KeyOf(ops[a]) == KeyOf(ops[b]) == key
    requires ops[a].ret == ops[b].call && IsPut(ops[a]) && IsGet(ops[b]) && forall i | 0 <= i < |ops| :: Plain(ops[i])
    ensures EntriesOf(OfKey(ops, key), h) && WellFormed(h) && !Linearizable(KV_MODEL, h)
  {
    hide OfKey, EntriesOf, WellFormed, Linearizable;
    var group := OfKey(ops, key);
    GroupInHistory(ops, key);
    forall i | 0 <= i < |group|
      ensures Plain(group[i])
    {
      Locality.OfKeyMember(ops, key, group[i]);
      assert group[i] in ops;
    }
    Locality.OfKeyMember(ops, key, ops[a]);
    Locality.OfKeyMember(ops, key, ops[b]);
    var i: nat :| i < |group| && group[i] == ops[a];
    var j: nat :| j < |group| && group[j] == ops[b];
    h := Ties.TieInvertsOrder(group, i, j);
    EntriesWellFormed(group, h);
    RegisterRejects(group, h, i, j);
  }

  lemma TieGoesWrong(shape: seq<Op>, a: nat, b: nat)
    requires Timed(shape) && a < |shape| && b < |shape|
    requires KeyOf(shape[a]) == KeyOf(shape[b]) && shape[a].ret == shape[b].call
    ensures var ops := PutAndGet(shape, a, b);
            SameShape(shape, ops) && AllWellTyped(ops) && Timed(ops) && !AlwaysRight(ops)
  {
    hide OfKey, EntriesOf, WellFormed, Linearizable, OpsLinearizable, Keys;
    var ops := PutAndGet(shape, a, b);
    var key := KeyOf(shape[a]);
    StoreAccepts(shape, a, b);
    var h := TieInGroup(ops, key, a, b);
    var keys, groups := SomePartition(ops);
    KeyOccurs(ops, a);
    var x: nat :| x < |keys| && keys[x] == key;
    var l := SomeEntries(groups, x, h);
  }

  lemma KeyOccurs(ops: seq<Op>, a: nat)
    requires a < |ops|
    ensures KeyOf(ops[a]) in Keys(ops)
  {
  }

  // ----- exactly the ties on one key -----

  lemma NoTiesIsRight(ops: seq<Op>)
    requires Timed(ops) && NoTiesPerKey(ops)
    ensures AlwaysRight(ops)
  {
    hide OfKey, EntriesOf, WellFormed, Linearizable, OpsLinearizable, Keys, IsPartition, EntriesOfGroups,
        EachLinearizable;
    forall keys, groups, l | IsPartition(ops, keys, groups) && EntriesOfGroups(groups, l)
      ensures AllWellFormed(l) && (EachLinearizable(KV_MODEL, l, Range(|l|)) <==> OpsLinearizable(STORE_MODEL, ops))
    {
      GroupsWellFormed(ops, keys, groups, l);
      GroupsDecideStore(ops, keys, groups, l);
    }
  }

  /** Given which keys are used when, the check is right about all operations and however the sort
      breaks ties, if and only if no return coincides with a call on the same key. */
  lemma RightIffNoTiesPerKey(shape: seq<Op>)
    requires Timed(shape)
    ensures NoTiesPerKey(shape) <==>
            forall ops | SameShape(shape, ops) && AllWellTyped(ops) :: Timed(ops) && AlwaysRight(ops)
  {
    hide AlwaysRight;
    if NoTiesPerKey(shape) {
      forall ops | SameShape(shape, ops) && AllWellTyped(ops)
        ensures Timed(ops) && AlwaysRight(ops)
      {
        NoTiesIsRight(ops);
      }
    } else {
      var a: nat, b: nat :|
        a < |shape| && b < |shape| && KeyOf(shape[a]) == KeyOf(shape[b]) && shape[a].ret == shape[b].call;
      TieGoesWrong(shape, a, b);
    }
  }
}
