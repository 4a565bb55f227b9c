/** Histories given as operations with call and return times, and their translation into entries. */
module Operations {
  import opened Linearizability
  import opened Options
  import opened Sets
  import Sorting

  datatype Operation<V> = Operation(clientId: int, input: V, call: int, output: V, ret: int)

  // ----- linearizability of timed operations -----

  ghost function RunOps<S, V>(m: Model<S, V>, s: S, order: seq<Operation<V>>): Option<S>
  {
    if order == [] then Some(s)
    else
      var r := m.step(s, order[0].input, order[0].output);
      if r.0 then RunOps(m, r.1, order[1..]) else None
  }

  /** No operation comes after one that was called only when it had already returned. */
  ghost predicate RespectsTime<V>(order: seq<Operation<V>>)
  {
    forall i, j | 0 <= i < j < |order| :: !(order[j].ret < order[i].call)
  }

  /** Some arrangement of the operations respects real time and is accepted by the model. */
  ghost predicate OpsLinearizable<S, V(!new)>(m: Model<S, V>, ops: seq<Operation<V>>)
  {
    exists order: seq<Operation<V>> ::
      multiset(order) == multiset(ops) && RespectsTime(order) && RunOps(m, m.init, order).Some?
  }

  /** Every operation takes time. */
  ghost predicate Timed<V>(ops: seq<Operation<V>>)
  {
    forall i | 0 <= i < |ops| :: ops[i].call < ops[i].ret
  }

  /** No operation is called at the very time another one returns. */
  ghost predicate NoTies<V>(ops: seq<Operation<V>>)
  {
    forall i, j | 0 <= i < |ops| && 0 <= j < |ops| :: ops[i].ret != ops[j].call
  }

  // ----- entries -----

  function CallEntry<V>(ops: seq<Operation<V>>, id: nat): Entry<V>
    requires id < |ops|
  {
    Entry(Call, ops[id].input, id, ops[id].call, ops[id].clientId)
  }

  function ReturnEntry<V>(ops: seq<Operation<V>>, id: nat): Entry<V>
    requires id < |ops|
  {
    Entry(Return, ops[id].output, id, ops[id].ret, ops[id].clientId)
  }

  /** The two entries of each of the first `n` operations, in the order of the operations. */
  function RawEntries<V>(ops: seq<Operation<V>>, n: nat): (r: seq<Entry<V>>)
    requires n <= |ops|
    ensures |r| == 2 * n
  {
    if n == 0 then [] else RawEntries(ops, n - 1) + [CallEntry(ops, n - 1)] + [ReturnEntry(ops, n - 1)]
  }

  lemma {:induction false} RawAt<V>(ops: seq<Operation<V>>, n: nat, k: nat)
    requires n <= |ops| && k < 2 * n
    ensures RawEntries(ops, n)[k] == if k % 2 == 0 then CallEntry(ops, k / 2) else ReturnEntry(ops, k / 2)
  {
    if k < 2 * n - 2 {
      RawAt(ops, n - 1, k);
    }
  }

  predicate Earlier<V>(a: Entry<V>, b: Entry<V>)
  {
    a.time <= b.time
  }

  /** Any result the sort may give: sort.Sort is not stable, so nothing more is known of ties. */
  ghost predicate EntriesOf<V>(ops: seq<Operation<V>>, h: seq<Entry<V>>)
  {
    multiset(h) == multiset(RawEntries(ops, |ops|)) && Sorting.SortedBy(h, Earlier)
  }

  lemma EarlierIsOrder<V(!new)>()
    ensures Sorting.TotalPreorder<Entry<V>>(Earlier)
  {
  }

  method MakeEntries<V(!new)>(history: seq<Operation<V>>) returns (entries: seq<Entry<V>>)
    ensures EntriesOf(history, entries)
  {
    hide Sorting.TotalPreorder;
    entries := [];
    var id := 0;
    while id < |history|
      invariant 0 <= id <= |history| && entries == RawEntries(history, id)
    {
      var elem := history[id];
      entries := entries + [Entry(Call, elem.input, id, elem.call, elem.clientId)];
      entries := entries + [Entry(Return, elem.output, id, elem.ret, elem.clientId)];
      id := id + 1;
    }
    EarlierIsOrder<V>();
    entries := Sorting.Sort(entries, Earlier);
  }

  // ----- the entries of a timed history form a well-formed history -----

  lemma {:induction false} TwiceInMultiset<T>(s: seq<T>, p: nat, q: nat)
    requires p < q < |s| && s[p] == s[q]
    ensures multiset(s)[s[p]] >= 2
  {
    var front := s[..q];
    assert s == front + [s[q]] + s[q + 1..];
    assert s[p] == front[p] && front[p] in multiset(front);
  }

  lemma {:induction false} OnceInMultiset<T>(s: seq<T>, x: T)
    requires forall i, j | 0 <= i < j < |s| :: s[i] != s[j]
    ensures multiset(s)[x] <= 1
  {
    if s != [] {
      var k := |s| - 1;
      OnceInMultiset(s[..k], x);
      assert s == s[..k] + [s[k]];
      if s[k] == x {
        assert x !in s[..k];
        assert x !in multiset(s[..k]);
      }
    }
  }

  /** Each entry is the call or the return of one operation, and occurs once. */
  lemma EntryFacts<V>(ops: seq<Operation<V>>, h: seq<Entry<V>>, p: nat)
    requires EntriesOf(ops, h) && p < |h|
    ensures |h| == 2 * |ops| && 0 <= h[p].id < |ops|
    ensures h[p] == if h[p].kind == Call then CallEntry(ops, h[p].id) else ReturnEntry(ops, h[p].id)
    ensures forall q | 0 <= q < |h| && q != p :: h[q] != h[p]
  {
    var raw := RawEntries(ops, |ops|);
    assert |multiset(h)| == |multiset(raw)|;
    assert h[p] in multiset(raw);
    var k :| 0 <= k < |raw| && raw[k] == h[p];
    RawAt(ops, |ops|, k);
    forall q | 0 <= q < |h| && q != p
      ensures h[q] != h[p]
    {
      if h[q] == h[p] {
        TwiceInMultiset(h, if p < q then p else q, if p < q then q else p);
        RawDistinct(ops);
        OnceInMultiset(raw, h[p]);
      }
    }
  }

  lemma RawDistinct<V>(ops: seq<Operation<V>>)
    ensures var raw := RawEntries(ops, |ops|); forall i, j | 0 <= i < j < |raw| :: raw[i] != raw[j]
  {
    var raw := RawEntries(ops, |ops|);
    forall i, j | 0 <= i < j < |raw|
      ensures raw[i] != raw[j]
    {
      RawAt(ops, |ops|, i);
      RawAt(ops, |ops|, j);
    }
  }

  lemma EntryPresent<V>(ops: seq<Operation<V>>, h: seq<Entry<V>>, id: nat)
    requires EntriesOf(ops, h) && id < |ops|
    ensures CallPos(h, id) < |h| && h[CallPos(h, id)] == CallEntry(ops, id)
    ensures RetPos(h, id) < |h| && h[RetPos(h, id)] == ReturnEntry(ops, id)
  {
    var raw := RawEntries(ops, |ops|);
    RawAt(ops, |ops|, 2 * id);
    RawAt(ops, |ops|, 2 * id + 1);
    assert raw[2 * id] in multiset(h) && raw[2 * id + 1] in multiset(h);
    var c :| 0 <= c < |h| && h[c] == raw[2 * id];
    var r :| 0 <= r < |h| && h[r] == raw[2 * id + 1];
    EntryFacts(ops, h, CallPos(h, id));
    EntryFacts(ops, h, RetPos(h, id));
  }

  lemma EntriesWellFormed<V>(ops: seq<Operation<V>>, h: seq<Entry<V>>)
    requires EntriesOf(ops, h) && Timed(ops)
    ensures WellFormed(h) && |h| == 2 * |ops|
  {
    hide RawEntries, CallEntry, ReturnEntry;
    assert |h| == |multiset(h)| == |multiset(RawEntries(ops, |ops|))| == 2 * |ops|;
    EntriesPaired(ops, h);
    forall p | 0 <= p < |h|
      ensures CallPos(h, h[p].id) < |h| && RetPos(h, h[p].id) < |h| && 0 <= h[p].id < |ops|
    {
      EntryFacts(ops, h, p);
      EntryPresent(ops, h, h[p].id);
    }
    forall i | 0 <= i < |ops|
      ensures i in Ids(h)
    {
      EntryPresent(ops, h, i);
      assert h[CallPos(h, i)].id == i;
    }
  }

  /** Of two entries of one operation, the first is its call. */
  lemma EntriesPaired<V>(ops: seq<Operation<V>>, h: seq<Entry<V>>)
    requires EntriesOf(ops, h) && Timed(ops)
    ensures forall p, q | 0 <= p < q < |h| && h[p].id == h[q].id :: h[p].kind == Call && h[q].kind == Return
  {
    hide RawEntries;
    forall p, q | 0 <= p < q < |h| && h[p].id == h[q].id
      ensures h[p].kind == Call && h[q].kind == Return
    {
      EntryFacts(ops, h, p);
      EntryFacts(ops, h, q);
      assert Earlier(h[p], h[q]);
    }
  }

  /** However ties are broken, an operation that returned before another was called precedes it; the
      converse holds too when no return coincides with a call. */
  lemma PrecedenceIsRealTime<V>(ops: seq<Operation<V>>, h: seq<Entry<V>>, a: nat, b: nat)
    requires EntriesOf(ops, h) && Timed(ops) && a < |ops| && b < |ops|
    ensures ops[a].ret < ops[b].call ==> Precedes(h, a, b)
    ensures Precedes(h, a, b) ==> ops[a].ret <= ops[b].call
    ensures NoTies(ops) ==> (Precedes(h, a, b) <==> ops[a].ret < ops[b].call)
  {
    EntryPresent(ops, h, a);
    EntryPresent(ops, h, b);
    var r, c := RetPos(h, a), CallPos(h, b);
    if r < c {
      assert Earlier(h[r], h[c]);
    } else {
      assert r != c;
      assert Earlier(h[c], h[r]);
    }
  }

  // ----- linearizations by id and by operation -----

  ghost predicate InRange(c: seq<int>, n: nat)
  {
    forall i | 0 <= i < |c| :: 0 <= c[i] < n
  }

  /** A sequence that mentions each of 0, ..., n - 1 once. */
  ghost predicate IsPermutation(c: seq<int>, n: nat)
  {
    InRange(c, n) && NoDuplicates(c) && |c| == n
  }

  /** The operations in the order `c` lists them. */
  ghost function Arrange<V>(ops: seq<Operation<V>>, c: seq<int>): (r: seq<Operation<V>>)
    requires InRange(c, |ops|)
    ensures |r| == |c| && forall i | 0 <= i < |c| :: r[i] == ops[c[i]]
  {
    seq(|c|, i requires 0 <= i < |c| => ops[c[i]])
  }

  lemma PermutationElems(c: seq<int>, n: nat)
    requires InRange(c, n) && NoDuplicates(c)
    ensures Elems(c) <= Range(n) && |c| <= n
    ensures |c| == n <==> Elems(c) == Range(n)
  {
    ElemsCount(c);
    SubsetCount(Elems(c), Range(n));
  }

  /** `c` without its element at `k`. */
  function Without<T>(c: seq<T>, k: nat): (r: seq<T>)
    requires k < |c|
    ensures |r| == |c| - 1
    ensures forall i | 0 <= i < |r| :: r[i] == if i < k then c[i] else c[i + 1]
  {
    c[..k] + c[k + 1..]
  }

  lemma WithoutMultiset<T>(c: seq<T>, k: nat)
    requires k < |c|
    ensures multiset(c) == multiset(Without(c, k)) + multiset{c[k]}
  {
    assert c == c[..k] + [c[k]] + c[k + 1..];
  }

  lemma MultisetCancel<T>(a: multiset<T>, b: multiset<T>, x: T)
    requires a + multiset{x} == b + multiset{x}
    ensures a == b
  {
    assert a == (a + multiset{x}) - multiset{x};
    assert b == (b + multiset{x}) - multiset{x};
  }

  lemma WithoutPermutation(c: seq<int>, k: nat, n: nat)
    requires IsPermutation(c, n) && k < |c| && c[k] == n - 1
    ensures IsPermutation(Without(c, k), n - 1)
  {
    var d := Without(c, k);
    forall i | 0 <= i < |d|
      ensures 0 <= d[i] < n - 1
    {
      assert d[i] == if i < k then c[i] else c[i + 1];
    }
  }

  lemma ArrangeWithout<V>(ops: seq<Operation<V>>, front: seq<Operation<V>>, x: Operation<V>, c: seq<int>, k: nat,
          d: seq<int>)
    requires ops == front + [x] && IsPermutation(c, |ops|) && k < |c| && c[k] == |front| && d == Without(c, k)
    ensures IsPermutation(d, |front|) && Arrange(ops, c)[k] == x && Without(Arrange(ops, c), k) == Arrange(front, d)
  {
    WithoutPermutation(c, k, |ops|);
    hide NoDuplicates;
    forall i | 0 <= i < |d|
      ensures Without(Arrange(ops, c), k)[i] == Arrange(front, d)[i]
    {
      assert 0 <= d[i] < |front|;
    }
  }

  lemma {:induction false} ArrangedMultiset<V>(ops: seq<Operation<V>>, c: seq<int>)
    requires IsPermutation(c, |ops|)
    ensures multiset(Arrange(ops, c)) == multiset(ops)
  {
    if ops == [] {
    } else {
      var front, x := ops[..|ops| - 1], ops[|ops| - 1];
      assert ops == front + [x];
      var k := LastPosition(c, |ops|);
      var d := Without(c, k);
      ArrangeWithout(ops, front, x, c, k, d);
      ArrangedMultiset(front, d);
      WithoutMultiset(Arrange(ops, c), k);
    }
  }

  lemma LastPosition(c: seq<int>, n: nat) returns (k: nat)
    requires IsPermutation(c, n) && n > 0
    ensures k < |c| && c[k] == n - 1
  {
    PermutationElems(c, n);
    assert n - 1 in Elems(c);
    k :| 0 <= k < |c| && c[k] == n - 1;
  }

  /** A rearrangement of the operations is given by a permutation of their ids. */
  lemma {:induction false} ArrangementExists<V>(ops: seq<Operation<V>>, order: seq<Operation<V>>) returns (c: seq<int>)
    requires multiset(order) == multiset(ops)
    ensures IsPermutation(c, |ops|) && Arrange(ops, c) == order
  {
    assert |multiset(order)| == |order| && |multiset(ops)| == |ops|;
    if ops == [] {
      c := [];
    } else {
      var front, x := ops[..|ops| - 1], ops[|ops| - 1];
      assert ops == front + [x];
      assert multiset(ops) == multiset(front) + multiset{x};
      assert x in multiset(order);
      var k :| 0 <= k < |order| && order[k] == x;
      WithoutMultiset(order, k);
      MultisetCancel(multiset(Without(order, k)), multiset(front), x);
      var d := ArrangementExists(front, Without(order, k));
      InsertPermutation(d, k, |front|);
      c := d[..k] + [|front|] + d[k..];
      ArrangeInserted(ops, front, x, order, k, d, c);
    }
  }

  lemma ArrangeInserted<V>(ops: seq<Operation<V>>, front: seq<Operation<V>>, x: Operation<V>,
          order: seq<Operation<V>>, k: nat, d: seq<int>, c: seq<int>)
    requires ops == front + [x] && k < |order| == |ops| && order[k] == x
    requires IsPermutation(d, |front|) && Arrange(front, d) == Without(order, k)
    requires c == d[..k] + [|front|] + d[k..] && IsPermutation(c, |ops|)
    ensures Arrange(ops, c) == order
  {
    hide NoDuplicates;
    var rest := Without(order, k);
    forall i | 0 <= i < |c|
      ensures ops[c[i]] == order[i]
    {
      if i < k {
        assert c[i] == d[i] && Arrange(front, d)[i] == rest[i];
      } else if i > k {
        assert c[i] == d[i - 1] && Arrange(front, d)[i - 1] == rest[i - 1];
      }
    }
  }

  lemma InsertPermutation(d: seq<int>, k: nat, n: nat)
    requires IsPermutation(d, n) && k <= n
    ensures IsPermutation(d[..k] + [n] + d[k..], n + 1)
  {
    var c := d[..k] + [n] + d[k..];
    forall i | 0 <= i < |c|
      ensures c[i] == if i < k then d[i] else if i == k then n else d[i - 1]
    {
    }
  }

  lemma {:induction false} RunArranged<S, V>(m: Model<S, V>, ops: seq<Operation<V>>, h: seq<Entry<V>>, s: S,
          c: seq<int>)
    requires EntriesOf(ops, h) && Complete(h) && InRange(c, |ops|)
    ensures Run(m, h, s, c) == RunOps(m, s, Arrange(ops, c))
  {
    if c != [] {
      EntryPresent(ops, h, c[0]);
      assert h[CallPos(h, c[0])].id == c[0];
      assert Arrange(ops, c)[1..] == Arrange(ops, c[1..]);
      RunArranged(m, ops, h, StepOf(m, h, s, c[0]).1, c[1..]);
    }
  }

  /** A linearization of the entries arranges the operations legally, however ties were broken. */
  lemma EntriesLinearizableSound<S, V(!new)>(m: Model<S, V>, ops: seq<Operation<V>>, h: seq<Entry<V>>)
    requires EntriesOf(ops, h) && Timed(ops) && WellFormed(h) && Linearizable(m, h)
    ensures OpsLinearizable(m, ops)
  {
    EntriesWellFormed(ops, h);
    IdsCount(h);
    var c: seq<int> :| IsLinearization(m, h, c);
    ElemsCount(c);
    forall i | 0 <= i < |c|
      ensures 0 <= c[i] < |ops|
    {
      assert c[i] in Elems(c);
    }
    var order := Arrange(ops, c);
    ArrangedMultiset(ops, c);
    RunArranged(m, ops, h, m.init, c);
    forall i, j | 0 <= i < j < |order|
      ensures !(order[j].ret < order[i].call)
    {
      PrecedenceIsRealTime(ops, h, c[j], c[i]);
    }
  }

  /** Without ties, the entries are linearizable exactly when the operations are. */
  lemma EntriesLinearizable<S, V(!new)>(m: Model<S, V>, ops: seq<Operation<V>>, h: seq<Entry<V>>)
    requires EntriesOf(ops, h) && Timed(ops) && NoTies(ops) && WellFormed(h)
    ensures Linearizable(m, h) <==> OpsLinearizable(m, ops)
  {
    if Linearizable(m, h) {
      EntriesLinearizableSound(m, ops, h);
    }
    if OpsLinearizable(m, ops) {
      var order :| multiset(order) == multiset(ops) && RespectsTime(order) && RunOps(m, m.init, order).Some?;
      var c := ArrangementExists(ops, order);
      ArrangementLinearizes(m, ops, h, order, c);
    }
  }

  lemma ArrangementLinearizes<S, V>(m: Model<S, V>, ops: seq<Operation<V>>, h: seq<Entry<V>>,
          order: seq<Operation<V>>, c: seq<int>)
    requires EntriesOf(ops, h) && Timed(ops) && NoTies(ops) && WellFormed(h)
    requires IsPermutation(c, |ops|) && Arrange(ops, c) == order
    requires RespectsTime(order) && RunOps(m, m.init, order).Some?
    ensures IsLinearization(m, h, c)
  {
    hide Complete, EntriesOf, RunOps, Run, Precedes;
    EntriesWellFormed(ops, h);
    RunArranged(m, ops, h, m.init, c);
    PermutationElems(c, |ops|);
    assert Elems(c) == Ids(h);
    forall i, j | 0 <= i < j < |c|
      ensures !Precedes(h, c[j], c[i])
    {
      PrecedenceIsRealTime(ops, h, c[j], c[i]);
    }
  }
}
