/** The replay of recorded partial linearizations that feeds the visualization of one partition. */
module Visualization {
  import opened Linearizability
  import opened Search
  import opened Options
  import Sorting

  /** One step of a replayed linearization: the operation, and the state it leads to. */
  datatype Step<+S> = Step(index: int, state: S)

  /** `panicked` is set where the original panics; then the other parts mean nothing. */
  datatype PartitionData<+S> = PartitionData(panicked: bool, linearizations: seq<seq<Step<S>>>, largest: map<int, int>)

  predicate LongerFirst(a: seq<int>, b: seq<int>)
  {
    |a| >= |b|
  }

  // ----- collecting the recorded sequences -----

  /** The distinct recorded sequences, in the arbitrary order of map iteration. */
  method CollectPartials(longest: Partials) returns (partials: seq<seq<int>>)
    ensures forall s :: s in partials <==> Some(s) in longest
    ensures forall i, j | 0 <= i < j < |partials| :: partials[i] != partials[j]
  {
    var unique: set<seq<int>> := {};
    for i := 0 to |longest|
      invariant forall s :: s in unique <==> Some(s) in longest[..i]
    {
      if longest[i].Some? {
        unique := unique + {longest[i].value};
      }
    }
    assert longest[..|longest|] == longest;
    partials := [];
    ghost var all := unique;
    while unique != {}
      invariant unique <= all
      invariant forall s :: s in partials <==> s in all && s !in unique
      invariant forall i, j | 0 <= i < j < |partials| :: partials[i] != partials[j]
      decreases |unique|
    {
      var k :| k in unique;
      partials := partials + [k];
      unique := unique - {k};
    }
  }

  // ----- values by id -----

  /** The values passed to the model for each operation. */
  ghost predicate ValuesUpTo<V>(h: seq<Entry<V>>, kind: Kind, k: nat, values: map<int, V>)
    requires k <= |h|
  {
    && (forall id :: id in values <==> Find(h, kind, id, 0) < k)
    && forall id | id in values :: Find(h, kind, id, 0) < |h| && values[id] == h[Find(h, kind, id, 0)].value
  }

  lemma FirstAt<V>(h: seq<Entry<V>>, kind: Kind, id: int, k: nat)
    requires Complete(h) && k < |h|
    ensures Find(h, kind, id, 0) == k <==> h[k].kind == kind && h[k].id == id
  {
    PositionOf(h, k);
  }

  lemma ValuesNext<V>(h: seq<Entry<V>>, kind: Kind, k: nat, values: map<int, V>)
    requires Complete(h) && k < |h| && ValuesUpTo(h, kind, k, values)
    ensures ValuesUpTo(h, kind, k + 1, if h[k].kind == kind then values[h[k].id := h[k].value] else values)
  {
    hide Complete, Find;
    forall id
      ensures Find(h, kind, id, 0) == k <==> h[k].kind == kind && h[k].id == id
    {
      FirstAt(h, kind, id, k);
    }
  }

  method ReadValues<V>(h: seq<Entry<V>>) returns (callValue: map<int, V>, returnValue: map<int, V>)
    requires Complete(h)
    ensures ValuesUpTo(h, Call, |h|, callValue) && ValuesUpTo(h, Return, |h|, returnValue)
  {
    callValue, returnValue := map[], map[];
    for i := 0 to |h|
      invariant ValuesUpTo(h, Call, i, callValue) && ValuesUpTo(h, Return, i, returnValue)
    {
      var elem := h[i];
      ValuesNext(h, Call, i, callValue);
      ValuesNext(h, Return, i, returnValue);
      match elem.kind {
        case Call => callValue := callValue[elem.id := elem.value];
        case Return => returnValue := returnValue[elem.id := elem.value];
      }
    }
  }

  // ----- replay -----

  /** The states after each operation of `c`. */
  ghost predicate Replays<S, V>(m: Model<S, V>, h: seq<Entry<V>>, c: seq<int>, steps: seq<Step<S>>)
    requires Complete(h)
  {
    && |steps| == |c|
    && forall j | 0 <= j < |c| :: steps[j].index == c[j] && Run(m, h, m.init, c[..j + 1]) == Some(steps[j].state)
  }

  lemma ReplayStep<S, V>(m: Model<S, V>, h: seq<Entry<V>>, c: seq<int>, j: nat, state: S)
    requires Complete(h) && j < |c| && c[j] in Ids(h) && Run(m, h, m.init, c[..j]) == Some(state)
    ensures Run(m, h, m.init, c[..j + 1]) == if StepOf(m, h, state, c[j]).0 then Some(StepOf(m, h, state, c[j]).1)
            else None
    ensures !StepOf(m, h, state, c[j]).0 ==> Run(m, h, m.init, c).None?
  {
    hide Complete, Ids, StepOf;
    assert c[..j + 1] == c[..j] + [c[j]];
    RunAppend(m, h, m.init, c[..j], [c[j]]);
    RunOne(m, h, state, c[j]);
    if !StepOf(m, h, state, c[j]).0 {
      assert c == c[..j + 1] + c[j + 1..];
      RunAppend(m, h, m.init, c[..j + 1], c[j + 1..]);
    }
  }

  lemma RunNone<S, V>(m: Model<S, V>, h: seq<Entry<V>>, c: seq<int>)
    requires Complete(h)
    ensures Run(m, h, m.init, c[..0]) == Some(m.init)
  {
  }

  lemma ValuesOf<S, V>(m: Model<S, V>, h: seq<Entry<V>>, callValue: map<int, V>, returnValue: map<int, V>, s: S,
          id: int)
    requires Complete(h) && ValuesUpTo(h, Call, |h|, callValue) && ValuesUpTo(h, Return, |h|, returnValue)
             && id in Ids(h)
    ensures id in callValue && id in returnValue && m.step(s, callValue[id], returnValue[id]) == StepOf(m, h, s, id)
  {
    hide Complete;
    Positions(h, id);
  }

  method Replay<S, V>(m: Model<S, V>, ghost h: seq<Entry<V>>, callValue: map<int, V>, returnValue: map<int, V>,
          partial: seq<int>)
    returns (ok: bool, linearization: seq<Step<S>>)
    requires Complete(h) && ValuesUpTo(h, Call, |h|, callValue) && ValuesUpTo(h, Return, |h|, returnValue)
    requires Elems(partial) <= Ids(h)
    ensures ok <==> Run(m, h, m.init, partial).Some?
    ensures ok ==> Replays(m, h, partial, linearization) && |linearization| == |partial|
  {
    hide Complete, ValuesUpTo, Run;
    RunNone(m, h, partial);
    linearization := [];
    var state := m.init;
    for j := 0 to |partial|
      invariant |linearization| == j && Run(m, h, m.init, partial[..j]) == Some(state)
      invariant forall k | 0 <= k < j ::
                  && linearization[k].index == partial[k]
                  && Run(m, h, m.init, partial[..k + 1]) == Some(linearization[k].state)
    {
      var histId := partial[j];
      assert histId in Elems(partial);
      ValuesOf(m, h, callValue, returnValue, state, histId);
      ReplayStep(m, h, partial, j, state);
      var (stepOk, newState) := m.step(state, callValue[histId], returnValue[histId]);
      if !stepOk {
        return false, [];  // panic
      }
      state := newState;
      linearization := linearization + [Step(histId, state)];
    }
    assert partial[..|partial|] == partial;
    ok := true;
  }

  /** `largest` maps each id to the first sequence containing it that is as long as any other. */
  ghost predicate LargestOf(sorted: seq<seq<int>>, count: nat, largest: map<int, int>)
    requires count <= |sorted|
  {
    forall id ::
      && (id in largest <==> exists i | 0 <= i < count :: id in sorted[i])
      && (id in largest ==>
            && 0 <= largest[id] < count && id in sorted[largest[id]]
            && (forall i | 0 <= i < count && id in sorted[i] :: |sorted[i]| <= |sorted[largest[id]]|)
            && forall i | 0 <= i < largest[id] && id in sorted[i] :: |sorted[i]| < |sorted[largest[id]]|)
  }

  /** What the table says of one id, given the lengths it was filled with. */
  ghost predicate Noted(sorted: seq<seq<int>>, count: nat, largest: map<int, int>, sizes: map<int, int>)
    requires count <= |sorted|
  {
    && largest.Keys == sizes.Keys
    && LargestOf(sorted, count, largest)
    && forall id | id in largest :: 0 <= largest[id] < count && sizes[id] == |sorted[largest[id]]|
  }

  function SizeOf(sizes: map<int, int>, id: int): int
  {
    if id in sizes then sizes[id] else 0
  }

  /** Enters one sequence into the table. */
  method NoteLargest(largest: map<int, int>, sizes: map<int, int>, partial: seq<int>, i: int)
    returns (largest': map<int, int>, sizes': map<int, int>)
    requires largest.Keys == sizes.Keys
    ensures Entered(largest, sizes, partial, i, largest', sizes')
  {
    largest', sizes' := largest, sizes;
    for j := 0 to |partial|
      invariant largest'.Keys == sizes'.Keys == largest.Keys + (set id | id in partial[..j]
                && SizeOf(sizes, id) < |partial|)
      invariant forall id | id in largest' ::
                  if id in partial[..j] && SizeOf(sizes, id) < |partial| then largest'[id] == i
                      && sizes'[id] == |partial|
                  else id in largest && largest'[id] == largest[id] && sizes'[id] == sizes[id]
    {
      var histId := partial[j];
      assert partial[..j + 1] == partial[..j] + [histId];
      if SizeOf(sizes', histId) < |partial| {
        sizes' := sizes'[histId := |partial|];
        largest' := largest'[histId := i];
      }
    }
    assert partial[..|partial|] == partial;
  }

  /** The tables before and after one sequence is entered. */
  ghost predicate Entered(largest: map<int, int>, sizes: map<int, int>, partial: seq<int>, i: int,
          largest': map<int, int>, sizes': map<int, int>)
    requires largest.Keys == sizes.Keys
  {
    && largest'.Keys == sizes'.Keys == largest.Keys + (set id | id in partial && SizeOf(sizes, id) < |partial|)
    && forall id | id in largest' ::
         if id in partial && SizeOf(sizes, id) < |partial| then largest'[id] == i && sizes'[id] == |partial|
         else id in largest && largest'[id] == largest[id] && sizes'[id] == sizes[id]
  }

  lemma NotedNext(sorted: seq<seq<int>>, i: nat, largest: map<int, int>, sizes: map<int, int>,
          largest': map<int, int>, sizes': map<int, int>)
    requires i < |sorted| && Noted(sorted, i, largest, sizes) && Entered(largest, sizes, sorted[i], i, largest', sizes')
    ensures Noted(sorted, i + 1, largest', sizes')
  {
    forall id
      ensures id in largest' <==> id in largest || id in sorted[i]
      ensures id in largest' ==>
                && 0 <= largest'[id] < i + 1 && id in sorted[largest'[id]] && sizes'[id] == |sorted[largest'[id]]|
                && (forall k | 0 <= k < i + 1 && id in sorted[k] :: |sorted[k]| <= sizes'[id])
                && forall k | 0 <= k < largest'[id] && id in sorted[k] :: |sorted[k]| < sizes'[id]
    {
      if id in largest {
        assert SizeOf(sizes, id) == |sorted[largest[id]]|;
      }
    }
  }

  /** Replays the recorded sequences of one partition, longest first. */
  method ComputePartition<S, V>(m: Model<S, V>, h: seq<Entry<V>>, partials: seq<seq<int>>)
    returns (data: PartitionData<S>, ghost sorted: seq<seq<int>>)
    requires WellFormed(h)
    requires forall i | 0 <= i < |partials| :: Elems(partials[i]) <= Ids(h)
    ensures multiset(sorted) == multiset(partials)
    ensures forall i, j | 0 <= i < j < |sorted| :: |sorted[i]| >= |sorted[j]|
    ensures !data.panicked ==>
              forall i, j | 0 <= i < j < |data.linearizations| :: |data.linearizations[i]| >= |data.linearizations[j]|
    ensures data.panicked <==> exists i | 0 <= i < |partials| :: Run(m, h, m.init, partials[i]).None?
    ensures !data.panicked ==>
              && |data.linearizations| == |sorted|
              && (forall i | 0 <= i < |sorted| :: Replays(m, h, sorted[i], data.linearizations[i]))
              && LargestOf(sorted, |sorted|, data.largest)
  {
    hide Sorting.SortedBy, Run, Replays, LargestOf, Entered, Elems, Ids, Complete;
    var callValue, returnValue := ReadValues(h);
    var ordered := Sorting.Sort(partials, LongerFirst);
    sorted := ordered;
    SameMembers(partials, sorted);
    LongestFirst(sorted);
    var largest, sizes: map<int, int>, linearizations := map[], map[], [];
    NotedNone(sorted);
    for i := 0 to |ordered|
      invariant |linearizations| == i
      invariant forall k | 0 <= k < i ::
                  && Run(m, h, m.init, sorted[k]).Some? && Replays(m, h, sorted[k], linearizations[k])
                  && |linearizations[k]| == |sorted[k]|
      invariant Noted(sorted, i, largest, sizes)
    {
      assert ordered[i] in sorted;
      ghost var k :| 0 <= k < |partials| && partials[k] == ordered[i];
      var ok, linearization := Replay(m, h, callValue, returnValue, ordered[i]);
      if !ok {
        return PartitionData(true, [], map[]), sorted;
      }
      var largest', sizes' := NoteLargest(largest, sizes, ordered[i], i);
      NotedNext(sorted, i, largest, sizes, largest', sizes');
      largest, sizes := largest', sizes';
      linearizations := linearizations + [linearization];
    }
    NotedLargest(sorted, largest, sizes);
    forall i | 0 <= i < |partials|
      ensures Run(m, h, m.init, partials[i]).Some?
    {
      assert partials[i] in partials;
    }
    data := PartitionData(false, linearizations, largest);
  }

  lemma LongestFirst(sorted: seq<seq<int>>)
    requires Sorting.SortedBy(sorted, LongerFirst)
    ensures forall i, j | 0 <= i < j < |sorted| :: |sorted[i]| >= |sorted[j]|
  {
    forall i, j | 0 <= i < j < |sorted|
      ensures |sorted[i]| >= |sorted[j]|
    {
      assert LongerFirst(sorted[i], sorted[j]);
    }
  }

  lemma SameMembers(a: seq<seq<int>>, b: seq<seq<int>>)
    requires multiset(a) == multiset(b)
    ensures forall x :: x in a <==> x in b
  {
    forall x
      ensures x in a <==> x in b
    {
      assert x in a <==> x in multiset(a);
      assert x in b <==> x in multiset(b);
    }
  }

  lemma NotedNone(sorted: seq<seq<int>>)
    ensures Noted(sorted, 0, map[], map[])
  {
  }

  lemma NotedLargest(sorted: seq<seq<int>>, largest: map<int, int>, sizes: map<int, int>)
    requires Noted(sorted, |sorted|, largest, sizes)
    ensures LargestOf(sorted, |sorted|, largest)
  {
  }

  ghost predicate Mentions<S>(linearization: seq<Step<S>>, id: int)
  {
    exists k :: 0 <= k < |linearization| && linearization[k].index == id
  }

  /** What the checker records can always be replayed: the panic is unreachable. */
  method VisualizeRecorded<S, V>(m: Model<S, V>, h: seq<Entry<V>>, longest: Partials) returns (data: PartitionData<S>)
    requires WellFormed(h) && RecordsAreLegal(m, h, longest)
    ensures !data.panicked
    ensures forall i, j | 0 <= i < j < |data.linearizations| :: |data.linearizations[i]| >= |data.linearizations[j]|
    ensures forall id :: id in data.largest <==> exists s :: Some(s) in longest && id in s
    ensures forall id | id in data.largest ::
              0 <= data.largest[id] < |data.linearizations| && Mentions(data.linearizations[data.largest[id]], id)
    ensures forall id, s | id in data.largest && Some(s) in longest && id in s ::
              |s| <= |data.linearizations[data.largest[id]]|
  {
    var partials := CollectPartials(longest);
    forall i | 0 <= i < |partials|
      ensures IsPartial(m, h, partials[i]) && Elems(partials[i]) <= Ids(h)
    {
      assert Some(partials[i]) in longest;
      LegalElems(m, h, {}, m.init, partials[i]);
    }
    ghost var sorted;
    data, sorted := ComputePartition(m, h, partials);
    SameMembers(partials, sorted);
    forall id | id in data.largest
      ensures Mentions(data.linearizations[data.largest[id]], id)
    {
      var c := sorted[data.largest[id]];
      var k :| 0 <= k < |c| && c[k] == id;
      assert data.linearizations[data.largest[id]][k].index == id;
    }
  }
}
