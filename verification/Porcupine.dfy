/** The entry points: from a history of operations or events to a verdict. */
module Porcupine {
  import opened Linearizability
  import opened Operations
  import opened Kv
  import opened Parallel
  import Checker
  import Events
  import Locality
  import Search

  ghost predicate AllWellFormed<V>(history: seq<seq<Entry<V>>>)
  {
    forall i | 0 <= i < |history| :: WellFormed(history[i])
  }

  ghost predicate EachLinearizable<S(!new), V(!new)>(m: Model<S, V>, history: seq<seq<Entry<V>>>, who: set<int>)
    requires AllWellFormed(history)
  {
    forall i | i in who && 0 <= i < |history| :: Linearizable(m, history[i])
  }

  /** Without a timeout and without info: take the results in whatever order they arrive, and stop at
      the first refutation. */
  method CheckParallel<S(!new), V(0, !new)>(m: Model<S, V>, history: seq<seq<Entry<V>>>) returns (result: CheckResult)
    requires history != [] && AllWellFormed(history)
    ensures result == Ok || result == Illegal
    ensures result == Ok ==> EachLinearizable(m, history, Range(|history|))
    ensures EqualSimulates(m) && result == Illegal ==> !EachLinearizable(m, history, Range(|history|))
  {
    hide Linearizable, WellFormed, EqualSimulates;
    var ok := true;
    var pending := Range(|history|);
    var count := 0;
    while ok && count < |history|
      invariant pending <= Range(|history|) && |pending| == |history| - count
      invariant ok ==> EachLinearizable(m, history, Range(|history|) - pending)
      invariant !ok && EqualSimulates(m) ==> !EachLinearizable(m, history, Range(|history|))
    {
      var i :| i in pending;
      var result, _, _, _ := Checker.CheckSingle(m, history[i], false, _ => false);
      pending := pending - {i};
      count := count + 1;
      ok := ok && result;
    }
    result := if !ok then Illegal else Ok;
  }

  // ----- the search as a worker of the concurrent check -----

  /** The kill flag is never reset. */
  lemma {:induction false} KillStays<S(!new), V(!new)>(g: Parallel.Setting<S, V>, run: seq<State>, j: nat, k: nat)
    requires WellFormedSetting(g) && Parallel.IsRun(g, run) && j <= k < |run| && run[j].kill
    ensures run[k].kill
  {
    if j < k {
      KillStays(g, run, j, k - 1);
      assert Next(g, run[k - 1], run[k]);
    }
  }

  /** The t-th look of a search finds the flag as it is in some state of the run. */
  ghost predicate LooksAtFlag(run: seq<State>, kill: nat -> bool, at: nat -> nat, t: nat)
  {
    at(t) < |run| && kill(t) == run[at(t)].kill
  }

  /** What a worker does until it returns: a search that looks at the kill flag at earlier states of a
      run can only return what the state machine allows a worker to return. */
  method Worker<S(!new), V(0, !new)>(g: Parallel.Setting<S, V>, i: nat, kill: nat -> bool, ghost run: seq<State>,
          ghost at: nat -> nat)
    returns (ok: bool, longest: Search.Partials)
    requires WellFormedSetting(g) && Parallel.IsRun(g, run)
    requires i < |g.history| == |run[|run| - 1].workers| && run[|run| - 1].workers[i] == Searching
    requires forall t: nat :: LooksAtFlag(run, kill, at, t)
    ensures var s := run[|run| - 1];
            WorkerReturns(g, s, s.(workers := s.workers[i := Returned(ok, longest)]), i, ok, longest)
  {
    hide Linearizable, WellFormed, EqualSimulates, Search.Optimal, Search.RecordsAreLegal, Next;
    assert WellFormed(g.history[i]);
    var found, records, looks, _ := Checker.CheckSingle(g.m, g.history[i], g.computeInfo, kill);
    ok, longest := found, records;
    if ok {
      Search.CompleteIsOptimal(g.m, g.history[i], longest);
    }
    ghost var s := run[|run| - 1];
    if looks > 0 && kill(looks - 1) {
      assert LooksAtFlag(run, kill, at, looks - 1);
      KillStays(g, run, at(looks - 1), |run| - 1);
    }
    assert SearchResult(g, i, ok, longest, s.kill);
    assert WorkerReturns(g, s, s.(workers := s.workers[i := Returned(ok, longest)]), i, ok, longest);
  }

  // ----- operations -----

  lemma GroupInHistory(ops: seq<Op>, key: string)
    requires Timed(ops)
    ensures Timed(OfKey(ops, key))
    ensures NoTiesPerKey(ops) ==> NoTies(OfKey(ops, key))
  {
    forall i | 0 <= i < |OfKey(ops, key)|
      ensures OfKey(ops, key)[i] in ops && KeyOf(OfKey(ops, key)[i]) == key
    {
      Locality.OfKeyMember(ops, key, OfKey(ops, key)[i]);
    }
  }

  /** The entry lists made from the groups of a partition. */
  ghost predicate EntriesOfGroups(groups: seq<seq<Op>>, l: seq<seq<Entry<Value>>>)
  {
    |l| == |groups| && forall i | 0 <= i < |groups| :: EntriesOf(groups[i], l[i])
  }

  lemma PartitionFacts<S, V(!new)>(m: Model<S, V>, ops: seq<Operation<V>>, h: seq<Entry<V>>)
    requires Timed(ops) && EntriesOf(ops, h)
    ensures WellFormed(h)
    ensures Linearizable(m, h) ==> OpsLinearizable(m, ops)
    ensures NoTies(ops) && OpsLinearizable(m, ops) ==> Linearizable(m, h)
  {
    hide Complete, Linearizable, OpsLinearizable, Timed, NoTies, EntriesOf, Ids;
    EntriesWellFormed(ops, h);
    if Linearizable(m, h) {
      EntriesLinearizableSound(m, ops, h);
    }
    if NoTies(ops) {
      EntriesLinearizable(m, ops, h);
    }
  }

  lemma GroupFacts(ops: seq<Op>, key: string, group: seq<Op>, h: seq<Entry<Value>>)
    requires Timed(ops) && group == OfKey(ops, key) && EntriesOf(group, h)
    ensures WellFormed(h)
    ensures Linearizable(KV_MODEL, h) ==> OpsLinearizable(KV_MODEL, group)
    ensures NoTiesPerKey(ops) && OpsLinearizable(KV_MODEL, group) ==> Linearizable(KV_MODEL, h)
  {
    hide Complete, Linearizable, OpsLinearizable, OfKey, Timed, NoTies, NoTiesPerKey, EntriesOf, Ids;
    GroupInHistory(ops, key);
    PartitionFacts(KV_MODEL, group, h);
  }

  lemma GroupsWellFormed(ops: seq<Op>, keys: seq<string>, groups: seq<seq<Op>>, l: seq<seq<Entry<Value>>>)
    requires Timed(ops) && IsPartition(ops, keys, groups) && EntriesOfGroups(groups, l)
    ensures AllWellFormed(l) && (ops != [] ==> l != [])
  {
    hide WellFormed, OfKey, Timed, EntriesOf, Keys, Linearizable, OpsLinearizable;
    if ops != [] {
      SomeKey(ops);
    }
    forall i | 0 <= i < |l|
      ensures WellFormed(l[i])
    {
      GroupFacts(ops, keys[i], groups[i], l[i]);
    }
  }

  /** The groups' verdicts together are the verdict for the whole store. */
  lemma GroupsDecideStore(ops: seq<Op>, keys: seq<string>, groups: seq<seq<Op>>, l: seq<seq<Entry<Value>>>)
    requires Timed(ops) && IsPartition(ops, keys, groups) && EntriesOfGroups(groups, l) && AllWellFormed(l)
    ensures EachLinearizable(KV_MODEL, l, Range(|l|)) ==> OpsLinearizable(STORE_MODEL, ops)
    ensures NoTiesPerKey(ops) && OpsLinearizable(STORE_MODEL, ops) ==> EachLinearizable(KV_MODEL, l, Range(|l|))
  {
    hide Complete, Ids, OfKey, Timed, EntriesOf, Keys, Linearizable, OpsLinearizable, NoTiesPerKey;
    Locality.PartitionIsLocal(ops, keys, groups);
    forall i | 0 <= i < |l|
      ensures Linearizable(KV_MODEL, l[i]) ==> OpsLinearizable(KV_MODEL, groups[i])
      ensures NoTiesPerKey(ops) && OpsLinearizable(KV_MODEL, groups[i]) ==> Linearizable(KV_MODEL, l[i])
    {
      GroupFacts(ops, keys[i], groups[i], l[i]);
    }
    if EachLinearizable(KV_MODEL, l, Range(|l|)) {
      forall i | 0 <= i < |groups|
        ensures OpsLinearizable(KV_MODEL, groups[i])
      {
        assert i in Range(|l|);
      }
    }
  }

  lemma EachIsAll<S(!new), V(!new)>(g: Parallel.Setting<S, V>)
    requires WellFormedSetting(g)
    ensures AllWellFormed(g.history)
    ensures EachLinearizable(g.m, g.history, Range(|g.history|)) <==> AllLinearizable(g)
  {
    hide Linearizable, WellFormed;
  }

  /** Every interleaving of searches, collector and timeout gives a right verdict for the whole store:
      Ok only for linearizable histories; and when no return coincides with a call on the same key,
      Illegal only for others, so that without a timeout the verdict is exact. */
  lemma EveryRunDecidesStore(ops: seq<Op>, keys: seq<string>, groups: seq<seq<Op>>,
          g: Parallel.Setting<string, Value>, run: seq<State>)
    requires Timed(ops) && IsPartition(ops, keys, groups) && g.m == KV_MODEL && EntriesOfGroups(groups, g.history)
    requires WellFormedSetting(g) && Parallel.IsRun(g, run) && run[|run| - 1].stage.Done?
    ensures var r := run[|run| - 1].stage.result;
            && (r == Ok ==> OpsLinearizable(STORE_MODEL, ops))
            && (NoTiesPerKey(ops) && r == Illegal ==> !OpsLinearizable(STORE_MODEL, ops))
            && (NoTiesPerKey(ops) && !g.timeout ==> r == if OpsLinearizable(STORE_MODEL, ops) then Ok else Illegal)
  {
    hide Linearizable, OpsLinearizable, WellFormed, EqualSimulates, Timed, NoTiesPerKey, IsPartition,
        EntriesOfGroups, Parallel.IsRun;
    KvEqualSimulates();
    EachIsAll(g);
    GroupsDecideStore(ops, keys, groups, g.history);
    VerdictIsRight(g, run);
  }

  lemma SomeKey(ops: seq<Op>)
    requires ops != []
    ensures KeyOf(ops[0]) in Keys(ops)
  {
  }

  /** Checks the parts of a history, whatever the model: Ok only if all of them are linearizable,
      Illegal only if one is not or has a return that coincides with a call, provided that the model's
      `equal` respects its steps. */
  method CheckPartitions<S(!new), V(0, !new)>(m: Model<S, V>, partitions: seq<seq<Operation<V>>>)
    returns (result: CheckResult)
    requires partitions != [] && forall i | 0 <= i < |partitions| :: Timed(partitions[i])
    ensures result == Ok || result == Illegal
    ensures result == Ok ==> forall i | 0 <= i < |partitions| :: OpsLinearizable(m, partitions[i])
    ensures EqualSimulates(m) && result == Illegal ==>
              exists i :: 0 <= i < |partitions| && !(NoTies(partitions[i]) && OpsLinearizable(m, partitions[i]))
  {
    hide EntriesOf, Linearizable, OpsLinearizable, Timed, NoTies, EqualSimulates, Complete, Ids;
    var l: seq<seq<Entry<V>>> := [];
    for i := 0 to |partitions|
      invariant |l| == i
      invariant forall j | 0 <= j < i :: EntriesOf(partitions[j], l[j])
    {
      var entries := MakeEntries(partitions[i]);
      l := l + [entries];
    }
    forall i | 0 <= i < |l|
      ensures WellFormed(l[i])
      ensures Linearizable(m, l[i]) ==> OpsLinearizable(m, partitions[i])
      ensures NoTies(partitions[i]) && OpsLinearizable(m, partitions[i]) ==> Linearizable(m, l[i])
    {
      PartitionFacts(m, partitions[i], l[i]);
    }
    result := CheckParallel(m, l);
    assert forall i | 0 <= i < |l| :: i in Range(|l|);
  }

  /** Checks a key-value history. The answer is right for the whole store: true only for linearizable
      histories, and for all of them when no return coincides with a call on the same key. */
  method CheckOperations(history: seq<Op>) returns (r: bool)
    requires history != [] && AllWellTyped(history) && Timed(history)
    ensures r ==> OpsLinearizable(STORE_MODEL, history)
    ensures NoTiesPerKey(history) ==> (r <==> OpsLinearizable(STORE_MODEL, history))
  {
    hide OpsLinearizable, Timed, NoTies, NoTiesPerKey, OfKey, Keys, EqualSimulates;
    var partitions := Partition(history);
    ghost var keys :| IsPartition(history, keys, partitions);
    SomeKey(history);
    forall i | 0 <= i < |partitions|
      ensures Timed(partitions[i]) && (NoTiesPerKey(history) ==> NoTies(partitions[i]))
    {
      GroupInHistory(history, keys[i]);
    }
    Locality.PartitionIsLocal(history, keys, partitions);
    KvEqualSimulates();
    var res := CheckPartitions(KV_MODEL, partitions);
    r := res == Ok;
  }

  /** Checks a history of operations against any model that does not split histories. */
  method CheckUnsplitOperations<S(!new), V(0, !new)>(m: Model<S, V>, history: seq<Operation<V>>) returns (r: bool)
    requires Timed(history)
    ensures r ==> OpsLinearizable(m, history)
    ensures EqualSimulates(m) && NoTies(history) ==> (r <==> OpsLinearizable(m, history))
  {
    hide OpsLinearizable, Timed, NoTies, EqualSimulates;
    assert [history][0] == history;
    var res := CheckPartitions(m, [history]);
    r := res == Ok;
  }

  // ----- events -----

  /** Checks a history of events, which is not partitioned, against any model. */
  method CheckEvents<S(!new), V(0, !new)>(m: Model<S, V>, history: seq<Events.Event<V>>) returns (r: bool)
    requires Complete(Events.EntriesFor(history))
    ensures r ==> Linearizable(m, Events.EntriesFor(history))
    ensures EqualSimulates(m) ==> (r <==> Linearizable(m, Events.EntriesFor(history)))
  {
    hide WellFormed, Linearizable, EqualSimulates, Complete, Events.EventIds, Events.Numbering;
    var e, names := Events.Renumber(history);
    Events.RenumberedHistory(m, history, e, names);
    var entries := Events.ConvertEntries(e);
    var res := CheckParallel(m, [entries]);
    assert 0 in Range(1);
    r := res == Ok;
  }
}
