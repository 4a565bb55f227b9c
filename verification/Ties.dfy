/** What the unstable sort means for histories in which a return and a call have the same time. */
module Ties {
  import opened Linearizability
  import opened Operations
  import opened Kv
  import opened Options
  import Sorting

  /** Sorting by time with returns before calls: one of the results the sort may give. */
  predicate ReturnsFirst<V>(a: Entry<V>, b: Entry<V>)
  {
    a.time < b.time || (a.time == b.time && (a.kind == Return || b.kind == Call))
  }

  function SortFunction<T>(s: seq<T>, leq: (T, T) -> bool): seq<T>
  {
    if s == [] then [] else Sorting.Insert(s[|s| - 1], SortFunction(s[..|s| - 1], leq), leq)
  }

  lemma {:induction false} SortFunctionSorts<T(!new)>(s: seq<T>, leq: (T, T) -> bool)
    requires Sorting.TotalPreorder(leq)
    ensures Sorting.SortedBy(SortFunction(s, leq), leq) && multiset(SortFunction(s, leq)) == multiset(s)
  {
    if s != [] {
      var n := |s| - 1;
      hide Sorting.TotalPreorder, Sorting.SortedBy, Sorting.Insert;
      var front := SortFunction(s[..n], leq);
      SortFunctionSorts(s[..n], leq);
      Sorting.InsertSorts(s[n], front, leq);
      Sorting.InsertKeeps(s[n], front, leq);
      assert s == s[..n] + [s[n]];
    }
  }

  lemma ReturnsFirstOrder<V(!new)>()
    ensures Sorting.TotalPreorder<Entry<V>>(ReturnsFirst)
  {
  }

  /** If a return coincides with a call, some sorted arrangement puts the return first, although the
      operation did not return before the other was called. */
  lemma TieInvertsOrder<V(!new)>(ops: seq<Operation<V>>, a: nat, b: nat) returns (h: seq<Entry<V>>)
    requires Timed(ops) && a < |ops| && b < |ops| && ops[a].ret == ops[b].call
    ensures EntriesOf(ops, h) && Precedes(h, a, b)
  {
    h := SortFunction(RawEntries(ops, |ops|), ReturnsFirst);
    ReturnsFirstOrder<V>();
    SortFunctionSorts(RawEntries(ops, |ops|), ReturnsFirst);
    forall i, j | 0 <= i < j < |h|
      ensures Earlier(h[i], h[j])
    {
      assert ReturnsFirst(h[i], h[j]);
    }
    EntryPresent(ops, h, a);
    EntryPresent(ops, h, b);
    assert !ReturnsFirst(h[CallPos(h, b)], h[RetPos(h, a)]);
  }

  /** The order of the entries is the real-time order, whatever the sort does with equal times, exactly
      when no return coincides with a call. */
  lemma OrderIsRealTimeIffNoTies<V(!new)>(ops: seq<Operation<V>>)
    requires Timed(ops)
    ensures NoTies(ops) <==>
            forall h, a: nat, b: nat | EntriesOf(ops, h) && a < |ops| && b < |ops| ::
              Precedes(h, a, b) <==> ops[a].ret < ops[b].call
  {
    if NoTies(ops) {
      forall h, a: nat, b: nat | EntriesOf(ops, h) && a < |ops| && b < |ops|
        ensures Precedes(h, a, b) <==> ops[a].ret < ops[b].call
      {
        PrecedenceIsRealTime(ops, h, a, b);
      }
    } else {
      var a, b :| 0 <= a < |ops| && 0 <= b < |ops| && ops[a].ret == ops[b].call;
      var h := TieInvertsOrder(ops, a, b);
    }
  }

  // ----- an answer that depends on the sort -----

  const TIED: seq<Op> := [
    Operation(0, KvInput(1, "k", "v"), 1, KvOutput(""), 2),
    Operation(1, KvInput(0, "k", ""), 2, KvOutput(""), 3)]

  function TiedEntries(returnFirst: bool): seq<Entry<Value>>
  {
    var c0, r0, c1, r1 := CallEntry(TIED, 0), ReturnEntry(TIED, 0), CallEntry(TIED, 1), ReturnEntry(TIED, 1);
    if returnFirst then [c0, r0, c1, r1] else [c0, c1, r0, r1]
  }

  lemma TiedIsSorted(returnFirst: bool)
    ensures EntriesOf(TIED, TiedEntries(returnFirst))
  {
    var c0, r0, c1, r1 := CallEntry(TIED, 0), ReturnEntry(TIED, 0), CallEntry(TIED, 1), ReturnEntry(TIED, 1);
    assert c0.time == 1 && r0.time == 2 && c1.time == 2 && r1.time == 3;
    hide CallEntry, ReturnEntry, RawEntries;
    RawOfTwo(TIED);
    FourEntries(c0, r0, c1, r1);
    FourEntries(c0, c1, r0, r1);
    SwapMiddle(c0, r0, c1, r1);
  }

  lemma FourEntries(a: Entry<Value>, b: Entry<Value>, c: Entry<Value>, d: Entry<Value>)
    requires a.time <= b.time <= c.time <= d.time
    ensures Sorting.SortedBy([a, b, c, d], Earlier)
  {
  }

  lemma SwapMiddle<T>(a: T, b: T, c: T, d: T)
    ensures multiset([a, b, c, d]) == multiset([a, c, b, d])
  {
    assert [a, b, c, d] == [a] + ([b] + [c]) + [d];
    assert [a, c, b, d] == [a] + ([c] + [b]) + [d];
    assert multiset([b] + [c]) == multiset([b]) + multiset([c]) == multiset([c] + [b]);
  }

  lemma RawOfTwo(ops: seq<Op>)
    requires |ops| == 2
    ensures RawEntries(ops, 2) == [CallEntry(ops, 0), ReturnEntry(ops, 0), CallEntry(ops, 1), ReturnEntry(ops, 1)]
  {
    hide CallEntry, ReturnEntry;
    assert RawEntries(ops, 1) == [] + [CallEntry(ops, 0)] + [ReturnEntry(ops, 0)];
  }

  lemma TiedPositions(returnFirst: bool)
    ensures var h := TiedEntries(returnFirst);
            && CallPos(h, 0) == 0 && RetPos(h, 0) == (if returnFirst then 1 else 2)
            && CallPos(h, 1) == (if returnFirst then 2 else 1) && RetPos(h, 1) == 3
            && Ids(h) == {0, 1}
  {
    var h := TiedEntries(returnFirst);
    assert h[0].id == 0 && h[3].id == 1 && h[1].id == (if returnFirst then 0 else 1)
           && h[2].id == (if returnFirst then 1 else 0);
    assert h[0].kind == Call && h[3].kind == Return;
    assert h[1].kind == (if returnFirst then Return else Call) && h[2].kind == if returnFirst then Call else Return;
  }

  /** Replaying the put and then the get fails, the get and then the put succeeds. */
  lemma TiedRuns(returnFirst: bool)
    requires Complete(TiedEntries(returnFirst))
    ensures Run(KV_MODEL, TiedEntries(returnFirst), "", [0, 1]).None?
    ensures Run(KV_MODEL, TiedEntries(returnFirst), "", [1, 0]).Some?
  {
    var h := TiedEntries(returnFirst);
    TiedPositions(returnFirst);
    hide Complete, Ids, CallPos, RetPos;
    assert StepOf(KV_MODEL, h, "", 0) == (true, "v");
    assert StepOf(KV_MODEL, h, "", 1) == (true, "");
    assert !StepOf(KV_MODEL, h, "v", 1).0;
    RunTwo(h, "", 0, 1);
    RunTwo(h, "", 1, 0);
  }

  lemma RunTwo(h: seq<Entry<Value>>, s: string, x: int, y: int)
    requires Complete(h) && x in Ids(h) && y in Ids(h)
    ensures Run(KV_MODEL, h, s, [x, y]).Some? <==>
            StepOf(KV_MODEL, h, s, x).0 && StepOf(KV_MODEL, h, StepOf(KV_MODEL, h, s, x).1, y).0
  {
    hide Complete, StepOf, Ids;
    assert [x, y][1..] == [y];
    RunOne(KV_MODEL, h, StepOf(KV_MODEL, h, s, x).1, y);
  }

  lemma TwoIds(c: seq<int>)
    requires NoDuplicates(c) && Elems(c) == {0, 1}
    ensures c == [0, 1] || c == [1, 0]
  {
    ElemsCount(c);
    assert |c| == 2;
    assert c[0] in Elems(c) && c[1] in Elems(c);
    assert c == [c[0], c[1]];
  }

  lemma GetMayComeFirst()
    requires Complete(TiedEntries(false))
    ensures Linearizable(KV_MODEL, TiedEntries(false))
  {
    TiedPositions(false);
    TiedRuns(false);
    hide Complete, Run;
    assert Elems([1, 0]) == {0, 1};
    assert IsLinearization(KV_MODEL, TiedEntries(false), [1, 0]);
  }

  lemma PutMustComeFirst()
    requires Complete(TiedEntries(true))
    ensures !Linearizable(KV_MODEL, TiedEntries(true))
  {
    var h := TiedEntries(true);
    TiedPositions(true);
    TiedRuns(true);
    hide Complete, Run;
    forall c
      ensures !IsLinearization(KV_MODEL, h, c)
    {
      if NoDuplicates(c) && Elems(c) == Ids(h) {
        TwoIds(c);
      }
    }
  }

  lemma StoreAcceptsGetFirst()
    ensures OpsLinearizable(STORE_MODEL, TIED)
  {
    var order := [TIED[1], TIED[0]];
    assert multiset(order) == multiset(TIED) by {
      assert TIED == [TIED[0], TIED[1]];
    }
    assert order[1..] == [TIED[0]] && order[1..][1..] == [];
    assert StoreStep(map[], TIED[1].input, TIED[1].output) == (true, map[]);
    assert RunOps(STORE_MODEL, map[], order[1..]).Some?;
    assert RunOps(STORE_MODEL, map[], order).Some?;
    assert RespectsTime(order);
  }

  /** A put that returns at the time a get is called: the get may read the old value, but the check
      says so for only one of the two orders the sort may choose. */
  lemma TieChangesAnswer()
    ensures OpsLinearizable(STORE_MODEL, TIED)
    ensures EntriesOf(TIED, TiedEntries(false)) && WellFormed(TiedEntries(false))
            && Linearizable(KV_MODEL, TiedEntries(false))
    ensures EntriesOf(TIED, TiedEntries(true)) && WellFormed(TiedEntries(true))
            && !Linearizable(KV_MODEL, TiedEntries(true))
  {
    hide Complete, Ids, Linearizable, OpsLinearizable, TiedEntries, EntriesOf;
    StoreAcceptsGetFirst();
    assert Timed(TIED);
    TiedIsSorted(false);
    TiedIsSorted(true);
    EntriesWellFormed(TIED, TiedEntries(false));
    EntriesWellFormed(TIED, TiedEntries(true));
    GetMayComeFirst();
    PutMustComeFirst();
  }
}
