/** Histories, sequential models, and what it means for a history to be linearizable. */
module Linearizability {
  import opened Options
  import opened Sets

  datatype Kind = Call | Return

  /** One end of an operation: its invocation or its response. */
  datatype Entry<+V> = Entry(kind: Kind, value: V, id: int, time: int, clientId: int)

  /** A sequential specification: initial state, transition, and the state equality the cache uses. */
  datatype Model<!S, !V> = Model(init: S, step: (S, V, V) -> (bool, S), equal: (S, S) -> bool)

  /** Equal states accept the same steps and stay equal: what pruning by `equal` relies on. */
  ghost predicate EqualSimulates<S(!new), V(!new)>(m: Model<S, V>)
  {
    forall s, t, input, output :: m.equal(s, t) && m.step(s, input, output).0 ==>
      m.step(t, input, output).0 && m.equal(m.step(s, input, output).1, m.step(t, input, output).1)
  }

  // ----- histories -----

  /** The first position at or after `from` holding the `kind` entry of `id`, or |h|. */
  function Find<V>(h: seq<Entry<V>>, kind: Kind, id: int, from: nat): (p: nat)
    requires from <= |h|
    ensures from <= p <= |h|
    ensures p < |h| ==> h[p].kind == kind && h[p].id == id
    ensures forall q | from <= q < p :: h[q].kind != kind || h[q].id != id
    decreases |h| - from
  {
    if from == |h| || (h[from].kind == kind && h[from].id == id) then from else Find(h, kind, id, from + 1)
  }

  function CallPos<V>(h: seq<Entry<V>>, id: int): nat
  {
    Find(h, Call, id, 0)
  }

  function RetPos<V>(h: seq<Entry<V>>, id: int): nat
  {
    Find(h, Return, id, 0)
  }

  function Ids<V>(h: seq<Entry<V>>): set<int>
  {
    set p | 0 <= p < |h| :: h[p].id
  }

  /** The numbers 0, 1, ..., n - 1. */
  function Range(n: nat): (r: set<int>)
    ensures forall i :: i in r <==> 0 <= i < n
    ensures |r| == n
  {
    if n == 0 then {} else Range(n - 1) + {n - 1}
  }

  /** Every operation has exactly one call, and exactly one return that comes later. */
  ghost predicate Complete<V>(h: seq<Entry<V>>)
  {
    && (forall p, q | 0 <= p < q < |h| && h[p].id == h[q].id :: h[p].kind == Call && h[q].kind == Return)
    && (forall p | 0 <= p < |h| :: CallPos(h, h[p].id) < |h| && RetPos(h, h[p].id) < |h|)
  }

  /** A complete history whose ids are 0, 1, ..., |h|/2 - 1. */
  ghost predicate WellFormed<V>(h: seq<Entry<V>>)
  {
    Complete(h) && |h| % 2 == 0 && forall i :: i in Ids(h) <==> 0 <= i < |h| / 2
  }

  lemma IdsCount<V>(h: seq<Entry<V>>)
    requires WellFormed(h)
    ensures |Ids(h)| == |h| / 2
  {
    hide Complete;
    assert Ids(h) == Range(|h| / 2);
  }

  /** Real-time order: `a` returned before `b` was called. */
  predicate Precedes<V>(h: seq<Entry<V>>, a: int, b: int)
  {
    RetPos(h, a) < CallPos(h, b)
  }

  lemma Positions<V>(h: seq<Entry<V>>, id: int)
    requires Complete(h) && id in Ids(h)
    ensures CallPos(h, id) < RetPos(h, id) < |h|
    ensures forall p | 0 <= p < |h| && h[p].id == id :: p == CallPos(h, id) || p == RetPos(h, id)
  {
    var p :| 0 <= p < |h| && h[p].id == id;
    assert CallPos(h, h[p].id) < |h|;
  }

  lemma PositionOf<V>(h: seq<Entry<V>>, p: nat)
    requires Complete(h) && p < |h|
    ensures h[p].id in Ids(h)
    ensures p == if h[p].kind == Call then CallPos(h, h[p].id) else RetPos(h, h[p].id)
  {
    Positions(h, h[p].id);
  }

  // ----- legal sequences of operations -----

  /** The state after running the operations of `c` from `s`, if the model accepts every one. */
  ghost function Run<S, V>(m: Model<S, V>, h: seq<Entry<V>>, s: S, c: seq<int>): Option<S>
    requires Complete(h)
  {
    if c == [] then Some(s)
    else if c[0] !in Ids(h) then None
    else
      var r := StepOf(m, h, s, c[0]);
      if r.0 then Run(m, h, r.1, c[1..]) else None
  }

  ghost function StepOf<S, V>(m: Model<S, V>, h: seq<Entry<V>>, s: S, id: int): (bool, S)
    requires Complete(h) && id in Ids(h)
  {
    Positions(h, id);
    m.step(s, h[CallPos(h, id)].value, h[RetPos(h, id)].value)
  }

  function Elems(c: seq<int>): set<int>
  {
    set x | x in c
  }

  ghost predicate NoDuplicates(c: seq<int>)
  {
    forall i, j | 0 <= i < j < |c| :: c[i] != c[j]
  }

  /** `id` may come next: it is new and everything that precedes it in real time has been taken. */
  ghost predicate Minimal<V>(h: seq<Entry<V>>, done: set<int>, id: int)
  {
    id in Ids(h) && id !in done && forall x | x in Ids(h) && Precedes(h, x, id) :: x in done
  }

  /** `c` can be linearized after the operations of `done` have led to state `s`: each operation may
      come next when its turn comes, and the model accepts them one after the other. */
  ghost predicate LegalFrom<S, V>(m: Model<S, V>, h: seq<Entry<V>>, done: set<int>, s: S, c: seq<int>)
    requires Complete(h)
  {
    && (forall i | 0 <= i < |c| :: Minimal(h, done + Elems(c[..i]), c[i]))
    && Run(m, h, s, c).Some?
  }

  /** A legal, precedence-closed partial linearization. */
  ghost predicate IsPartial<S, V>(m: Model<S, V>, h: seq<Entry<V>>, c: seq<int>)
    requires Complete(h)
  {
    LegalFrom(m, h, {}, m.init, c)
  }

  /** A permutation of all operations that respects real-time order and is accepted by the model. */
  ghost predicate IsLinearization<S, V>(m: Model<S, V>, h: seq<Entry<V>>, c: seq<int>)
    requires Complete(h)
  {
    && NoDuplicates(c)
    && Elems(c) == Ids(h)
    && (forall i, j | 0 <= i < j < |c| :: !Precedes(h, c[j], c[i]))
    && Run(m, h, m.init, c).Some?
  }

  ghost predicate Linearizable<S, V>(m: Model<S, V>, h: seq<Entry<V>>)
    requires Complete(h)
  {
    exists c :: IsLinearization(m, h, c)
  }

  // ----- laws -----

  lemma {:induction false} ElemsCount(c: seq<int>)
    requires NoDuplicates(c)
    ensures |Elems(c)| == |c|
  {
    if c == [] {
    } else {
      var front, last := c[..|c| - 1], c[|c| - 1];
      ElemsCount(front);
      assert Elems(c) == Elems(front) + {last};
      assert last !in front;
    }
  }

  lemma LegalElems<S, V>(m: Model<S, V>, h: seq<Entry<V>>, done: set<int>, s: S, c: seq<int>)
    requires Complete(h) && LegalFrom(m, h, done, s, c)
    ensures NoDuplicates(c) && Elems(c) <= Ids(h) && |Elems(c)| == |c|
    ensures Elems(c) !! done
  {
    forall i, j | 0 <= i < j < |c|
      ensures c[i] != c[j]
    {
      assert c[i] == c[..j][i];
      assert Minimal(h, done + Elems(c[..j]), c[j]);
    }
    ElemsCount(c);
  }

  /** The linearizations are the partial linearizations that use every operation. */
  lemma LinearizationIsFullPartial<S, V>(m: Model<S, V>, h: seq<Entry<V>>, c: seq<int>)
    requires Complete(h)
    ensures IsLinearization(m, h, c) <==> IsPartial(m, h, c) && |c| == |Ids(h)|
  {
    if IsLinearization(m, h, c) {
      ElemsCount(c);
      forall i | 0 <= i < |c|
        ensures Minimal(h, {} + Elems(c[..i]), c[i])
      {
        LinearizationIsMinimalAt(m, h, c, i);
      }
    }
    if IsPartial(m, h, c) && |c| == |Ids(h)| {
      LegalElems(m, h, {}, m.init, c);
      SubsetCount(Elems(c), Ids(h));
      forall i, j | 0 <= i < j < |c|
        ensures !Precedes(h, c[j], c[i])
      {
        assert Minimal(h, {} + Elems(c[..i]), c[i]);
        assert c[j] in Elems(c) && c[j] !in c[..i];
      }
    }
  }

  lemma LinearizationIsMinimalAt<S, V>(m: Model<S, V>, h: seq<Entry<V>>, c: seq<int>, i: nat)
    requires Complete(h) && IsLinearization(m, h, c) && i < |c|
    ensures Minimal(h, {} + Elems(c[..i]), c[i])
  {
    assert c[i] in Elems(c);
    assert c[i] !in c[..i];
    forall x | x in Ids(h) && Precedes(h, x, c[i])
      ensures x in c[..i]
    {
      assert x in Elems(c);
      var j :| 0 <= j < |c| && c[j] == x;
      Positions(h, x);
      assert j < i;
      assert c[..i][j] == x;
    }
  }

  lemma {:induction false} RunAppend<S, V>(m: Model<S, V>, h: seq<Entry<V>>, s: S, a: seq<int>, b: seq<int>)
    requires Complete(h)
    ensures Run(m, h, s, a + b) ==
            if Run(m, h, s, a).Some? then Run(m, h, Run(m, h, s, a).value, b) else None
  {
    if a == [] {
      assert a + b == b;
    } else {
      assert (a + b)[1..] == a[1..] + b;
      if a[0] in Ids(h) && StepOf(m, h, s, a[0]).0 {
        RunAppend(m, h, StepOf(m, h, s, a[0]).1, a[1..], b);
      }
    }
  }

  lemma MinimalIsNew<V>(h: seq<Entry<V>>, done: set<int>, id: int)
    requires Minimal(h, done, id)
    ensures id in Ids(h) && id !in done
  {
  }

  lemma LegalHead<S, V>(m: Model<S, V>, h: seq<Entry<V>>, done: set<int>, s: S, c: seq<int>)
    requires Complete(h)
    requires LegalFrom(m, h, done, s, c) && c != []
    ensures Minimal(h, done, c[0]) && StepOf(m, h, s, c[0]).0
    ensures LegalFrom(m, h, done + {c[0]}, StepOf(m, h, s, c[0]).1, c[1..])
  {
    hide Minimal;
    assert done + Elems(c[..0]) == done;
    assert Minimal(h, done + Elems(c[..0]), c[0]);
    MinimalIsNew(h, done, c[0]);
    forall i | 0 <= i < |c[1..]|
      ensures Minimal(h, done + {c[0]} + Elems(c[1..][..i]), c[1..][i])
    {
      assert Minimal(h, done + Elems(c[..i + 1]), c[i + 1]);
      TailElems(done, c, i);
    }
  }

  lemma TailElems(done: set<int>, c: seq<int>, i: nat)
    requires i + 1 < |c|
    ensures done + Elems(c[..i + 1]) == done + {c[0]} + Elems(c[1..][..i])
    ensures c[1..][i] == c[i + 1]
  {
    assert c[..i + 1] == [c[0]] + c[1..][..i];
  }

  lemma RunOne<S, V>(m: Model<S, V>, h: seq<Entry<V>>, s: S, x: int)
    requires Complete(h) && x in Ids(h)
    ensures Run(m, h, s, [x]) == if StepOf(m, h, s, x).0 then Some(StepOf(m, h, s, x).1) else None
  {
    hide Complete, StepOf;
    assert [x][1..] == [];
  }

  lemma LegalSnoc<S, V>(m: Model<S, V>, h: seq<Entry<V>>, c: seq<int>, id: int)
    requires Complete(h)
    requires IsPartial(m, h, c) && Minimal(h, Elems(c), id)
    requires StepOf(m, h, Run(m, h, m.init, c).value, id).0
    ensures IsPartial(m, h, c + [id])
    ensures Run(m, h, m.init, c + [id]).value == StepOf(m, h, Run(m, h, m.init, c).value, id).1
  {
    hide Minimal, Run;
    RunAppend(m, h, m.init, c, [id]);
    assert id in Ids(h) by {
      MinimalIsNew(h, Elems(c), id);
    }
    RunOne(m, h, Run(m, h, m.init, c).value, id);
    var d := c + [id];
    forall i | 0 <= i < |d|
      ensures Minimal(h, {} + Elems(d[..i]), d[i])
    {
      assert d[..i] == c[..i];
      assert {} + Elems(c) == Elems(c);
      assert c[..|c|] == c;
    }
  }

  lemma LegalPrefix<S, V>(m: Model<S, V>, h: seq<Entry<V>>, c: seq<int>, k: nat)
    requires Complete(h)
    requires IsPartial(m, h, c) && k <= |c|
    ensures IsPartial(m, h, c[..k])
  {
    hide Minimal, Run;
    RunAppend(m, h, m.init, c[..k], c[k..]);
    assert c == c[..k] + c[k..];
    assert Run(m, h, m.init, c[..k]).Some?;
    forall i | 0 <= i < k
      ensures Minimal(h, {} + Elems(c[..k][..i]), c[..k][i])
    {
      assert c[..k][..i] == c[..i];
    }
  }

  lemma {:induction false} RunSimulates<S(!new), V(!new)>(m: Model<S, V>, h: seq<Entry<V>>, s: S, t: S, c: seq<int>)
    requires Complete(h) && EqualSimulates(m) && m.equal(s, t)
    requires Run(m, h, s, c).Some?
    ensures Run(m, h, t, c).Some?
  {
    if c != [] {
      Positions(h, c[0]);
      RunSimulates(m, h, StepOf(m, h, s, c[0]).1, StepOf(m, h, t, c[0]).1, c[1..]);
    }
  }

  /** Whatever can follow a state can follow a state equal to it. */
  lemma LegalSimulates<S(!new), V(!new)>(m: Model<S, V>, h: seq<Entry<V>>, done: set<int>, s: S, t: S, c: seq<int>)
    requires Complete(h) && EqualSimulates(m) && m.equal(s, t)
    requires LegalFrom(m, h, done, s, c)
    ensures LegalFrom(m, h, done, t, c)
  {
    RunSimulates(m, h, s, t, c);
  }
}
