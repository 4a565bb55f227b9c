/** What the backtracking search knows at every moment: the invariant of its loop, stated over
    values, and one lemma for each way the loop moves. */
module Search {
  import opened Linearizability
  import opened Options
  import opened Sets

  /** For each operation, the longest partial linearization containing it found so far. */
  type Partials = seq<Option<seq<int>>>

  /** A cache key: the operations already linearized, and the state they led to. */
  datatype Config<+S> = Config(done: set<int>, state: S)

  // ----- recorded partial linearizations -----

  /** Every recorded sequence is legal and contains the operation it is recorded for. */
  ghost predicate RecordsAreLegal<S, V>(m: Model<S, V>, h: seq<Entry<V>>, longest: Partials)
    requires Complete(h)
  {
    forall i | 0 <= i < |longest| && longest[i].Some? ::
      IsPartial(m, h, longest[i].value) && i in longest[i].value
  }

  predicate Reaches(longest: Partials, i: int, len: int)
  {
    0 <= i < |longest| && longest[i].Some? && len <= |longest[i].value|
  }

  ghost predicate Grows(longest: Partials, longest': Partials)
  {
    |longest| == |longest'| && forall i, len | Reaches(longest, i, len) :: Reaches(longest', i, len)
  }

  /** The record for operation `i` after the search gives up below the sequence `path`. */
  function RecordAt(longest: Partials, path: seq<int>, i: nat): Option<seq<int>>
    requires i < |longest|
  {
    if i in path && (longest[i].None? || |path| > |longest[i].value|) then Some(path) else longest[i]
  }

  function Record(longest: Partials, path: seq<int>): Partials
  {
    seq(|longest|, i requires 0 <= i < |longest| => RecordAt(longest, path, i))
  }

  lemma RecordGrows<S, V>(m: Model<S, V>, h: seq<Entry<V>>, longest: Partials, path: seq<int>)
    requires Complete(h) && IsPartial(m, h, path) && RecordsAreLegal(m, h, longest)
    ensures RecordsAreLegal(m, h, Record(longest, path))
    ensures Grows(longest, Record(longest, path))
    ensures forall i | i in path && 0 <= i < |longest| :: Reaches(Record(longest, path), i, |path|)
  {
    hide IsPartial;
  }

  // ----- what the search has ruled out -----

  /** Nothing that can follow `done` and `s` completes the history, and what can follow is recorded. */
  ghost predicate Explored<S, V>(m: Model<S, V>, h: seq<Entry<V>>, done: set<int>, s: S, longest: Partials,
          partial: bool)
    requires Complete(h)
  {
    forall c | LegalFrom(m, h, done, s, c) ::
      && |done| + |c| < |Ids(h)|
      && (partial ==> forall i | i in done || i in c :: Reaches(longest, i, |done| + |c|))
  }

  /** Taking `x` next is rejected by the model or leads to an explored configuration. */
  ghost predicate Refuted<S, V>(m: Model<S, V>, h: seq<Entry<V>>, done: set<int>, s: S, x: int, longest: Partials,
          partial: bool)
    requires Complete(h) && x in Ids(h)
  {
    StepOf(m, h, s, x).0 ==> Explored(m, h, done + {x}, StepOf(m, h, s, x).1, longest, partial)
  }

  /** Every operation that could come next and is called before position `limit` is refuted. */
  ghost predicate Tried<S, V>(m: Model<S, V>, h: seq<Entry<V>>, done: set<int>, s: S, limit: int, longest: Partials,
          partial: bool)
    requires Complete(h)
  {
    forall x | Minimal(h, done, x) && CallPos(h, x) < limit :: Refuted(m, h, done, s, x, longest, partial)
  }

  ghost function StateAt<S, V>(m: Model<S, V>, h: seq<Entry<V>>, path: seq<int>): S
    requires Complete(h)
  {
    var r := Run(m, h, m.init, path);
    if r.Some? then r.value else m.init
  }

  ghost predicate TriedAt<S, V>(m: Model<S, V>, h: seq<Entry<V>>, path: seq<int>, limit: int, longest: Partials,
          partial: bool)
    requires Complete(h)
  {
    Tried(m, h, Elems(path), StateAt(m, h, path), limit, longest, partial)
  }

  ghost predicate OnPath<S, V>(m: Model<S, V>, h: seq<Entry<V>>, path: seq<int>, cf: Config<S>)
    requires Complete(h)
  {
    exists k | 1 <= k <= |path| :: cf == Config(Elems(path[..k]), StateAt(m, h, path[..k]))
  }

  /** At each depth of the path, everything called before the branch taken is refuted. */
  ghost predicate PathTried<S, V>(m: Model<S, V>, h: seq<Entry<V>>, path: seq<int>, longest: Partials, partial: bool)
    requires Complete(h)
  {
    forall k | 0 <= k < |path| :: TriedAt(m, h, path[..k], CallPos(h, path[k]), longest, partial)
  }

  /** Each cached configuration is on the path or explored. */
  ghost predicate SeenExplored<S, V>(m: Model<S, V>, h: seq<Entry<V>>, path: seq<int>, seen: seq<Config<S>>,
          longest: Partials, partial: bool)
    requires Complete(h)
  {
    forall cf | cf in seen :: OnPath(m, h, path, cf) || Explored(m, h, cf.done, cf.state, longest, partial)
  }

  /** The invariant of the search, which has reached position `limit` at the end of `path`. */
  ghost predicate Progress<S, V>(m: Model<S, V>, h: seq<Entry<V>>, path: seq<int>, limit: int, seen: seq<Config<S>>,
          longest: Partials, partial: bool)
    requires Complete(h)
  {
    && PathTried(m, h, path, longest, partial)
    && TriedAt(m, h, path, limit, longest, partial)
    && SeenExplored(m, h, path, seen, longest, partial)
  }

  lemma ExploredGrows<S, V>(m: Model<S, V>, h: seq<Entry<V>>, done: set<int>, s: S, l: Partials, l': Partials,
          partial: bool)
    requires Complete(h) && Grows(l, l') && Explored(m, h, done, s, l, partial)
    ensures Explored(m, h, done, s, l', partial)
  {
  }

  lemma TriedGrows<S, V>(m: Model<S, V>, h: seq<Entry<V>>, done: set<int>, s: S, limit: int, l: Partials,
          l': Partials, partial: bool)
    requires Complete(h) && Grows(l, l') && Tried(m, h, done, s, limit, l, partial)
    ensures Tried(m, h, done, s, limit, l', partial)
  {
    forall x | Minimal(h, done, x) && CallPos(h, x) < limit
      ensures Refuted(m, h, done, s, x, l', partial)
    {
      if StepOf(m, h, s, x).0 {
        ExploredGrows(m, h, done + {x}, StepOf(m, h, s, x).1, l, l', partial);
      }
    }
  }

  // ----- positions in the list of remaining entries -----

  predicate Live<V>(h: seq<Entry<V>>, done: set<int>, p: int)
  {
    0 <= p < |h| && h[p].id !in done
  }

  /** The walk from the head of the list to position `p` has met calls only. */
  ghost predicate CallsBefore<V>(h: seq<Entry<V>>, done: set<int>, p: int)
  {
    forall q | Live(h, done, q) && q < p :: h[q].kind == Call
  }

  /** `q` is the first remaining position after `p`, or the end. */
  ghost predicate NextLive<V>(h: seq<Entry<V>>, done: set<int>, p: int, q: int)
  {
    p < q <= |h| && (q < |h| ==> Live(h, done, q)) && forall r | p < r < q :: !Live(h, done, r)
  }

  /** A call met while only calls have been passed may come next. */
  lemma EntryIsMinimal<V>(h: seq<Entry<V>>, done: set<int>, p: nat)
    requires Complete(h) && Live(h, done, p) && h[p].kind == Call && CallsBefore(h, done, p)
    ensures Minimal(h, done, h[p].id) && CallPos(h, h[p].id) == p
  {
    PositionOf(h, p);
    forall x | x in Ids(h) && Precedes(h, x, h[p].id)
      ensures x in done
    {
      Positions(h, x);
      var r := RetPos(h, x);
      assert h[r].id == x && h[r].kind == Return;
    }
  }

  /** Nothing can come next that is called after a remaining return. */
  lemma MinimalBeforeReturn<V>(h: seq<Entry<V>>, done: set<int>, p: nat, x: int)
    requires Complete(h) && Live(h, done, p) && h[p].kind == Return && Minimal(h, done, x)
    ensures CallPos(h, x) < p
  {
    PositionOf(h, p);
    Positions(h, x);
    assert h[CallPos(h, x)].kind == Call;
  }

  // ----- the moves of the search -----

  /** Entering a node of the search tree: nothing is called before the first remaining entry. */
  lemma StartTried<S, V>(m: Model<S, V>, h: seq<Entry<V>>, path: seq<int>, first: int, longest: Partials, partial: bool)
    requires Complete(h) && NextLive(h, Elems(path), -1, first)
    ensures TriedAt(m, h, path, first, longest, partial)
  {
    forall x | Minimal(h, Elems(path), x) && CallPos(h, x) < first
      ensures false
    {
      Positions(h, x);
      assert Live(h, Elems(path), CallPos(h, x));
    }
  }

  /** Passing a refuted call. */
  lemma AdvanceTried<S, V>(m: Model<S, V>, h: seq<Entry<V>>, path: seq<int>, p: nat, q: int, longest: Partials,
          partial: bool)
    requires Complete(h) && Live(h, Elems(path), p) && h[p].kind == Call
    requires TriedAt(m, h, path, p, longest, partial)
    requires h[p].id in Ids(h) && Refuted(m, h, Elems(path), StateAt(m, h, path), h[p].id, longest, partial)
    requires NextLive(h, Elems(path), p, q)
    ensures TriedAt(m, h, path, q, longest, partial)
  {
    hide Refuted;
    forall x | Minimal(h, Elems(path), x) && CallPos(h, x) < q
      ensures Refuted(m, h, Elems(path), StateAt(m, h, path), x, longest, partial)
    {
      Positions(h, x);
      assert Live(h, Elems(path), CallPos(h, x));
      if CallPos(h, x) == p {
        assert x == h[p].id;
      }
    }
  }

  /** A cached configuration equal to the next one is explored: it lies too deep to be on the path. */
  lemma HitIsRefuted<S(!new), V(!new)>(m: Model<S, V>, h: seq<Entry<V>>, path: seq<int>, limit: int,
          seen: seq<Config<S>>, longest: Partials, partial: bool, x: int, hit: Config<S>)
    requires Complete(h) && EqualSimulates(m) && IsPartial(m, h, path)
    requires Progress(m, h, path, limit, seen, longest, partial)
    requires x in Ids(h) && x !in path && StepOf(m, h, StateAt(m, h, path), x).0
    requires hit in seen && hit.done == Elems(path) + {x} && m.equal(StepOf(m, h, StateAt(m, h, path), x).1, hit.state)
    ensures Refuted(m, h, Elems(path), StateAt(m, h, path), x, longest, partial)
  {
    LegalElems(m, h, {}, m.init, path);
    forall k | 1 <= k <= |path|
      ensures hit != Config(Elems(path[..k]), StateAt(m, h, path[..k]))
    {
      assert x in hit.done && x !in Elems(path[..k]);
    }
    assert !OnPath(m, h, path, hit);
    var done, s := Elems(path) + {x}, StepOf(m, h, StateAt(m, h, path), x).1;
    forall c | LegalFrom(m, h, done, s, c)
      ensures LegalFrom(m, h, hit.done, hit.state, c)
    {
      LegalSimulates(m, h, done, s, hit.state, c);
    }
  }

  lemma {:induction false} SkipKeepsProgress<S, V>(m: Model<S, V>, h: seq<Entry<V>>, path: seq<int>, p: nat, q: int,
          seen: seq<Config<S>>, longest: Partials, partial: bool)
    requires Complete(h) && Progress(m, h, path, p, seen, longest, partial)
    requires Live(h, Elems(path), p) && h[p].kind == Call && NextLive(h, Elems(path), p, q)
    requires h[p].id in Ids(h) && Refuted(m, h, Elems(path), StateAt(m, h, path), h[p].id, longest, partial)
    ensures Progress(m, h, path, q, seen, longest, partial)
  {
    hide PathTried, TriedAt, SeenExplored;
    AdvanceTried(m, h, path, p, q, longest, partial);
  }

  lemma PushKeepsProgress<S, V>(m: Model<S, V>, h: seq<Entry<V>>, front: seq<int>, x: int, path: seq<int>,
          first: int, seen: seq<Config<S>>, longest: Partials, partial: bool)
    requires Complete(h) && path == front + [x]
    requires Progress(m, h, front, CallPos(h, x), seen, longest, partial)
    requires NextLive(h, Elems(path), -1, first)
    ensures Progress(m, h, path, first, seen + [Config(Elems(path), StateAt(m, h, path))], longest, partial)
  {
    hide PathTried, TriedAt, SeenExplored, NextLive, CallPos, Complete;
    StartTried(m, h, path, first, longest, partial);
    PushTried(m, h, front, x, path, longest, partial);
    PushSeen(m, h, front, x, path, seen, longest, partial);
  }

  lemma PushTried<S, V>(m: Model<S, V>, h: seq<Entry<V>>, front: seq<int>, x: int, path: seq<int>,
          longest: Partials, partial: bool)
    requires Complete(h) && path == front + [x] && PathTried(m, h, front, longest, partial)
    requires TriedAt(m, h, front, CallPos(h, x), longest, partial)
    ensures PathTried(m, h, path, longest, partial)
  {
    hide TriedAt, CallPos;
    forall k | 0 <= k < |path|
      ensures TriedAt(m, h, path[..k], CallPos(h, path[k]), longest, partial)
    {
      if k < |front| {
        assert path[..k] == front[..k];
        assert TriedAt(m, h, front[..k], CallPos(h, front[k]), longest, partial);
      } else {
        assert path[..k] == front;
      }
    }
  }

  lemma PushSeen<S, V>(m: Model<S, V>, h: seq<Entry<V>>, front: seq<int>, x: int, path: seq<int>,
          seen: seq<Config<S>>, longest: Partials, partial: bool)
    requires Complete(h) && path == front + [x] && SeenExplored(m, h, front, seen, longest, partial)
    ensures SeenExplored(m, h, path, seen + [Config(Elems(path), StateAt(m, h, path))], longest, partial)
  {
    hide StateAt, Elems, Explored;
    assert path[..|path|] == path;
    assert OnPath(m, h, path, Config(Elems(path), StateAt(m, h, path)));
    forall cf | cf in seen && OnPath(m, h, front, cf)
      ensures OnPath(m, h, path, cf)
    {
      var k :| 1 <= k <= |front| && cf == Config(Elems(front[..k]), StateAt(m, h, front[..k]));
      assert path[..k] == front[..k];
    }
  }

  /** When the walk meets a return, the configuration it started from is explored. */
  lemma ReturnMeansExplored<S, V>(m: Model<S, V>, h: seq<Entry<V>>, path: seq<int>, p: nat, longest: Partials,
          partial: bool)
    requires Complete(h) && IsPartial(m, h, path)
    requires Live(h, Elems(path), p) && h[p].kind == Return
    requires TriedAt(m, h, path, p, longest, partial)
    requires partial ==> forall i | i in path :: Reaches(longest, i, |path|)
    ensures Explored(m, h, Elems(path), StateAt(m, h, path), longest, partial)
  {
    var done, s := Elems(path), StateAt(m, h, path);
    LegalElems(m, h, {}, m.init, path);
    PositionOf(h, p);
    SubsetCount(done, Ids(h));
    forall c | LegalFrom(m, h, done, s, c)
      ensures |done| + |c| < |Ids(h)|
      ensures partial ==> forall i | i in done || i in c :: Reaches(longest, i, |done| + |c|)
    {
      if c != [] {
        LegalHead(m, h, done, s, c);
        MinimalBeforeReturn(h, done, p, c[0]);
        assert Refuted(m, h, done, s, c[0], longest, partial);
        ExploredChild(m, h, done, s, c, longest, partial);
      }
    }
  }

  lemma ExploredChild<S, V>(m: Model<S, V>, h: seq<Entry<V>>, done: set<int>, s: S, c: seq<int>, longest: Partials,
          partial: bool)
    requires Complete(h) && c != [] && c[0] in Ids(h) && c[0] !in done && StepOf(m, h, s, c[0]).0
    requires LegalFrom(m, h, done + {c[0]}, StepOf(m, h, s, c[0]).1, c[1..])
    requires Explored(m, h, done + {c[0]}, StepOf(m, h, s, c[0]).1, longest, partial)
    ensures |done| + |c| < |Ids(h)|
    ensures partial ==> forall i | i in done || i in c :: Reaches(longest, i, |done| + |c|)
  {
    hide LegalFrom, Reaches;
    assert |done + {c[0]}| == |done| + 1;
    assert c == [c[0]] + c[1..];
  }

  lemma PopKeepsProgress<S, V>(m: Model<S, V>, h: seq<Entry<V>>, path: seq<int>, front: seq<int>, x: int, p: nat,
          q: int, seen: seq<Config<S>>, longest: Partials, longest': Partials, partial: bool)
    requires Complete(h) && IsPartial(m, h, path) && path == front + [x]
    requires Progress(m, h, path, p, seen, longest, partial) && Grows(longest, longest')
    requires Live(h, Elems(path), p) && h[p].kind == Return
    requires partial ==> forall i | i in path :: Reaches(longest', i, |path|)
    requires NextLive(h, Elems(front), CallPos(h, x), q)
    ensures Progress(m, h, front, q, seen, longest', partial)
  {
    hide TriedAt, SeenExplored, Explored, Refuted, Grows, NextLive, CallPos, LegalFrom, Complete, Live;
    PopPathTried(m, h, path, front, x, longest, longest', partial);
    PopExplores(m, h, path, p, longest, longest', partial);
    PopRefutes(m, h, path, front, x, longest', partial);
    PopTried(m, h, path, front, x, q, longest', partial);
    PopSeenExplored(m, h, path, front, x, seen, longest, longest', partial);
  }

  lemma PopPathTried<S, V>(m: Model<S, V>, h: seq<Entry<V>>, path: seq<int>, front: seq<int>, x: int,
          longest: Partials, longest': Partials, partial: bool)
    requires Complete(h) && path == front + [x] && Grows(longest, longest') && PathTried(m, h, path, longest, partial)
    ensures PathTried(m, h, front, longest', partial)
    ensures TriedAt(m, h, front, CallPos(h, x), longest', partial)
  {
    hide TriedAt, Grows, CallPos;
    forall j | 0 <= j < |front|
      ensures TriedAt(m, h, front[..j], CallPos(h, front[j]), longest', partial)
    {
      assert front[..j] == path[..j];
      assert TriedAt(m, h, path[..j], CallPos(h, path[j]), longest, partial);
      TriedAtGrows(m, h, front[..j], CallPos(h, front[j]), longest, longest', partial);
    }
    assert path[..|front|] == front;
    assert TriedAt(m, h, path[..|front|], CallPos(h, path[|front|]), longest, partial);
    TriedAtGrows(m, h, front, CallPos(h, x), longest, longest', partial);
  }

  lemma PopSeenExplored<S, V>(m: Model<S, V>, h: seq<Entry<V>>, path: seq<int>, front: seq<int>, x: int,
          seen: seq<Config<S>>, longest: Partials, longest': Partials, partial: bool)
    requires Complete(h) && path == front + [x] && Grows(longest, longest')
             && SeenExplored(m, h, path, seen, longest, partial)
    requires Explored(m, h, Elems(path), StateAt(m, h, path), longest', partial)
    ensures SeenExplored(m, h, front, seen, longest', partial)
  {
    hide OnPath, Explored, Grows, Complete;
    forall cf | cf in seen
      ensures OnPath(m, h, front, cf) || Explored(m, h, cf.done, cf.state, longest', partial)
    {
      PopSeen(m, h, path, front, x, cf, longest, longest', partial);
    }
  }

  lemma TriedAtGrows<S, V>(m: Model<S, V>, h: seq<Entry<V>>, path: seq<int>, limit: int, l: Partials, l': Partials,
          partial: bool)
    requires Complete(h) && Grows(l, l') && TriedAt(m, h, path, limit, l, partial)
    ensures TriedAt(m, h, path, limit, l', partial)
  {
    TriedGrows(m, h, Elems(path), StateAt(m, h, path), limit, l, l', partial);
  }

  lemma PopTried<S, V>(m: Model<S, V>, h: seq<Entry<V>>, path: seq<int>, front: seq<int>, x: int, q: int,
          longest: Partials, partial: bool)
    requires Complete(h) && IsPartial(m, h, path) && path == front + [x]
    requires TriedAt(m, h, front, CallPos(h, x), longest, partial)
    requires NextLive(h, Elems(front), CallPos(h, x), q)
    requires x in Ids(h) && Refuted(m, h, Elems(front), StateAt(m, h, front), x, longest, partial)
    ensures TriedAt(m, h, front, q, longest, partial)
  {
    hide TriedAt, Refuted, LegalFrom, NextLive, Complete, Ids;
    LegalElems(m, h, {}, m.init, path);
    LastIsNew(front, x, path);
    Positions(h, x);
    AdvanceTried(m, h, front, CallPos(h, x), q, longest, partial);
  }

  lemma LastIsNew(front: seq<int>, x: int, path: seq<int>)
    requires path == front + [x] && NoDuplicates(path)
    ensures x !in Elems(front)
  {
    forall i | 0 <= i < |front|
      ensures front[i] != x
    {
      assert path[i] == front[i] && path[|front|] == x;
    }
  }

  lemma PopExplores<S, V>(m: Model<S, V>, h: seq<Entry<V>>, path: seq<int>, p: nat, longest: Partials,
          longest': Partials, partial: bool)
    requires Complete(h) && IsPartial(m, h, path)
    requires TriedAt(m, h, path, p, longest, partial) && Grows(longest, longest')
    requires Live(h, Elems(path), p) && h[p].kind == Return
    requires partial ==> forall i | i in path :: Reaches(longest', i, |path|)
    ensures Explored(m, h, Elems(path), StateAt(m, h, path), longest', partial)
  {
    TriedGrows(m, h, Elems(path), StateAt(m, h, path), p, longest, longest', partial);
    ReturnMeansExplored(m, h, path, p, longest', partial);
  }

  lemma LastStep<S, V>(m: Model<S, V>, h: seq<Entry<V>>, front: seq<int>, x: int, path: seq<int>)
    requires Complete(h) && path == front + [x] && x in Ids(h) && Run(m, h, m.init, path).Some?
    ensures StepOf(m, h, StateAt(m, h, front), x) == (true, StateAt(m, h, path))
  {
    hide Complete, Ids, StepOf;
    RunAppend(m, h, m.init, front, [x]);
    var s := Run(m, h, m.init, front).value;
    RunOne(m, h, s, x);
  }

  lemma PopRefutes<S, V>(m: Model<S, V>, h: seq<Entry<V>>, path: seq<int>, front: seq<int>, x: int,
          longest: Partials, partial: bool)
    requires Complete(h) && IsPartial(m, h, path) && path == front + [x]
    requires Explored(m, h, Elems(path), StateAt(m, h, path), longest, partial)
    ensures x in Ids(h) && Refuted(m, h, Elems(front), StateAt(m, h, front), x, longest, partial)
  {
    hide Explored, Complete, Ids, StateAt, Elems, LegalFrom;
    LegalElems(m, h, {}, m.init, path);
    LegalRuns(m, h, path);
    SnocElems(front, x, path);
    LastStep(m, h, front, x, path);
  }

  lemma LegalRuns<S, V>(m: Model<S, V>, h: seq<Entry<V>>, c: seq<int>)
    requires Complete(h) && IsPartial(m, h, c)
    ensures Run(m, h, m.init, c).Some?
  {
  }

  lemma SnocElems(front: seq<int>, x: int, path: seq<int>)
    requires path == front + [x]
    ensures Elems(path) == Elems(front) + {x} && x in Elems(path)
  {
  }

  lemma PopSeen<S, V>(m: Model<S, V>, h: seq<Entry<V>>, path: seq<int>, front: seq<int>, x: int, cf: Config<S>,
          longest: Partials, longest': Partials, partial: bool)
    requires Complete(h) && path == front + [x] && Grows(longest, longest')
    requires OnPath(m, h, path, cf) || Explored(m, h, cf.done, cf.state, longest, partial)
    requires Explored(m, h, Elems(path), StateAt(m, h, path), longest', partial)
    ensures OnPath(m, h, front, cf) || Explored(m, h, cf.done, cf.state, longest', partial)
  {
    hide Explored, StateAt, Elems, Grows, Complete;
    if OnPath(m, h, path, cf) {
      var k :| 1 <= k <= |path| && cf == Config(Elems(path[..k]), StateAt(m, h, path[..k]));
      if k < |path| {
        assert path[..k] == front[..k];
      } else {
        assert path[..k] == path;
      }
    } else {
      ExploredGrows(m, h, cf.done, cf.state, longest, longest', partial);
    }
  }

  // ----- what an exhausted search has established -----

  /** `longest` answers the question "what is the longest legal prefix containing i" exactly. */
  ghost predicate Optimal<S(!new), V>(m: Model<S, V>, h: seq<Entry<V>>, longest: Partials)
    requires Complete(h)
  {
    && RecordsAreLegal(m, h, longest)
    && forall c, i | IsPartial(m, h, c) && i in c :: Reaches(longest, i, |c|)
  }

  lemma ExhaustedMeansIllegal<S(!new), V>(m: Model<S, V>, h: seq<Entry<V>>, longest: Partials, partial: bool)
    requires Complete(h) && RecordsAreLegal(m, h, longest)
    requires Explored(m, h, {}, m.init, longest, partial)
    ensures !Linearizable(m, h)
    ensures partial ==> Optimal(m, h, longest)
  {
    forall c
      ensures !IsLinearization(m, h, c)
    {
      LinearizationIsFullPartial(m, h, c);
    }
  }

  /** If every record is a linearization, no legal prefix is longer. */
  lemma CompleteIsOptimal<S(!new), V>(m: Model<S, V>, h: seq<Entry<V>>, longest: Partials)
    requires WellFormed(h) && |longest| == |h| / 2 && RecordsAreLegal(m, h, longest)
    requires forall i | 0 <= i < |longest| :: longest[i].Some? && IsLinearization(m, h, longest[i].value)
    ensures Optimal(m, h, longest)
  {
    hide IsLinearization, LegalFrom, Complete;
    forall c, i | IsPartial(m, h, c) && i in c
      ensures Reaches(longest, i, |c|)
    {
      LegalElems(m, h, {}, m.init, c);
      SubsetCount(Elems(c), Ids(h));
      assert i in Elems(c);
      LinearizationIsFullPartial(m, h, longest[i].value);
    }
  }

  // ----- termination -----

  /** The number of nodes of a complete tree of the given branching and height. */
  function TreeSize(branching: nat, height: nat): (n: nat)
    ensures n >= 1
  {
    if height == 0 then 1 else 1 + branching * TreeSize(branching, height - 1)
  }

  /** How many nodes of that tree lie beyond the one reached by the branch numbers of `w`. */
  function Ahead(w: seq<nat>, branching: nat, height: nat): int
    requires |w| <= height
  {
    if w == [] then TreeSize(branching, height)
    else (branching - 1 - w[0]) * TreeSize(branching, height - 1) + Ahead(w[1..], branching, height - 1)
  }

  lemma ScaleNonNegative(a: int, t: int)
    requires a >= 0 && t >= 0
    ensures a * t >= 0
  {
  }

  lemma ScaleLess(a: int, b: int, t: int)
    requires a < b && t >= 0
    ensures a * t + t <= b * t
  {
    ScaleNonNegative(b - a - 1, t);
    assert (b - a - 1) * t == b * t - a * t - t;
  }

  lemma {:induction false} AheadPositive(w: seq<nat>, branching: nat, height: nat)
    requires |w| <= height
    requires forall i | 0 <= i < |w| :: w[i] < branching
    ensures Ahead(w, branching, height) >= 1
  {
    if w != [] {
      AheadPositive(w[1..], branching, height - 1);
      ScaleNonNegative(branching - 1 - w[0], TreeSize(branching, height - 1));
    }
  }

  lemma AheadOne(b: nat, branching: nat, height: nat)
    requires height > 0
    ensures Ahead([b], branching, height) ==
            (branching - 1 - b) * TreeSize(branching, height - 1) + TreeSize(branching, height - 1)
  {
    assert [b][1..] == [];
  }

  /** Going one level down. */
  lemma {:induction false} DownDecreases(w: seq<nat>, b: nat, branching: nat, height: nat)
    requires |w| < height && b < branching
    ensures Ahead(w + [b], branching, height) < Ahead(w, branching, height)
  {
    if w == [] {
      assert w + [b] == [b];
      AheadOne(b, branching, height);
      ScaleLess(branching - 1 - b, branching, TreeSize(branching, height - 1));
    } else {
      assert (w + [b])[1..] == w[1..] + [b];
      DownDecreases(w[1..], b, branching, height - 1);
    }
  }

  /** Going on to a later branch of the same level. */
  lemma {:induction false} AcrossDecreases(w: seq<nat>, a: nat, b: nat, branching: nat, height: nat)
    requires |w| < height && a < b < branching
    ensures Ahead(w + [b], branching, height) < Ahead(w + [a], branching, height)
  {
    if w == [] {
      assert w + [a] == [a] && w + [b] == [b];
      AheadOne(a, branching, height);
      AheadOne(b, branching, height);
      ScaleLess(branching - 1 - b, branching - 1 - a, TreeSize(branching, height - 1));
    } else {
      assert (w + [b])[1..] == w[1..] + [b] && (w + [a])[1..] == w[1..] + [a];
      AcrossDecreases(w[1..], a, b, branching, height - 1);
    }
  }

  /** Giving up a level and going on to a later branch of the one above. */
  lemma {:induction false} UpDecreases(w: seq<nat>, a: nat, x: nat, b: nat, branching: nat, height: nat)
    requires |w| + 1 < height && a < b < branching && x < branching
    ensures Ahead(w + [b], branching, height) < Ahead(w + [a, x], branching, height)
  {
    if w == [] {
      assert w + [a, x] == [a, x] && w + [b] == [b] && [a, x][1..] == [x];
      AheadOne(b, branching, height);
      AheadPositive([x], branching, height - 1);
      ScaleLess(branching - 1 - b, branching - 1 - a, TreeSize(branching, height - 1));
    } else {
      assert (w + [b])[1..] == w[1..] + [b] && (w + [a, x])[1..] == w[1..] + [a, x];
      UpDecreases(w[1..], a, x, b, branching, height - 1);
    }
  }

  /** The call positions along the path: the branch taken at each level of the search tree. */
  function Branches<V>(h: seq<Entry<V>>, path: seq<int>): seq<nat>
  {
    seq(|path|, i requires 0 <= i < |path| => CallPos(h, path[i]))
  }

  /** The search moves forward through the tree of call positions; this is what is left of it. */
  function Remaining<V>(h: seq<Entry<V>>, path: seq<int>, p: nat, n: nat): int
    requires |path| <= n
  {
    Ahead(Branches(h, path) + [p], |h| + 1, n + 1)
  }

  lemma RemainingPositive<V>(h: seq<Entry<V>>, path: seq<int>, p: nat, n: nat)
    requires |path| <= n && p <= |h|
    requires forall i | 0 <= i < |path| :: CallPos(h, path[i]) < |h|
    ensures Remaining(h, path, p, n) >= 1
  {
    hide CallPos;
    AheadPositive(Branches(h, path) + [p], |h| + 1, n + 1);
  }

  lemma AdvanceDecreases<V>(h: seq<Entry<V>>, path: seq<int>, p: nat, q: nat, n: nat)
    requires |path| <= n && p < q <= |h|
    ensures Remaining(h, path, q, n) < Remaining(h, path, p, n)
  {
    hide CallPos;
    AcrossDecreases(Branches(h, path), p, q, |h| + 1, n + 1);
  }

  lemma PushDecreases<V>(h: seq<Entry<V>>, front: seq<int>, x: int, path: seq<int>, first: nat, n: nat)
    requires path == front + [x] && |path| <= n && first <= |h|
    ensures Remaining(h, path, first, n) < Remaining(h, front, CallPos(h, x), n)
  {
    hide CallPos;
    assert Branches(h, path) == Branches(h, front) + [CallPos(h, x)];
    DownDecreases(Branches(h, path), first, |h| + 1, n + 1);
  }

  lemma PopDecreases<V>(h: seq<Entry<V>>, path: seq<int>, front: seq<int>, x: int, p: nat, q: nat, n: nat)
    requires path == front + [x] && |path| <= n && p <= |h| && CallPos(h, x) < q <= |h|
    ensures Remaining(h, front, q, n) < Remaining(h, path, p, n)
  {
    hide CallPos;
    assert Branches(h, path) == Branches(h, front) + [CallPos(h, x)];
    UpDecreases(Branches(h, front), CallPos(h, x), p, q, |h| + 1, n + 1);
    assert Branches(h, path) + [p] == Branches(h, front) + [CallPos(h, x), p];
  }

  // ----- what the cache saves -----

  /** Every configuration was reached by a legal sequence, and no two are equal to the model. */
  ghost predicate EnteredOnce<S, V>(m: Model<S, V>, h: seq<Entry<V>>, entered: seq<Config<S>>)
    requires Complete(h)
  {
    && (forall k | 0 <= k < |entered| :: ReachedLegally(m, h, entered[k]))
    && forall j, k | 0 <= j < k < |entered| && entered[j].done == entered[k].done ::
         !m.equal(entered[k].state, entered[j].state)
  }

  ghost predicate ReachedLegally<S, V>(m: Model<S, V>, h: seq<Entry<V>>, c: Config<S>)
    requires Complete(h)
  {
    exists path :: IsPartial(m, h, path) && c == Config(Elems(path), StateAt(m, h, path))
  }

  ghost predicate IsNew<S, V>(m: Model<S, V>, entered: seq<Config<S>>, c: Config<S>)
  {
    forall e | e in entered && e.done == c.done :: !m.equal(c.state, e.state)
  }

  lemma OnceMore<S, V>(m: Model<S, V>, h: seq<Entry<V>>, entered: seq<Config<S>>, path: seq<int>, c: Config<S>)
    requires Complete(h) && EnteredOnce(m, h, entered) && IsNew(m, entered, c)
    requires IsPartial(m, h, path) && c == Config(Elems(path), StateAt(m, h, path))
    ensures EnteredOnce(m, h, entered + [c])
  {
    hide Complete, IsPartial, StateAt, Elems;
    assert ReachedLegally(m, h, c);
  }

  /** A bound on the turns the loop has taken: between two pushes or pops it only walks forward. */
  function Turns(entered: nat, depth: nat, p: nat, length: nat): int
  {
    (2 * entered - depth) * (length + 1) + p
  }

  lemma AdvanceTurns(entered: nat, depth: nat, p: nat, q: nat, length: nat)
    requires p < q
    ensures Turns(entered, depth, p, length) < Turns(entered, depth, q, length)
  {
  }

  lemma PushTurns(entered: nat, depth: nat, p: nat, q: nat, length: nat)
    requires p < length
    ensures Turns(entered, depth, p, length) < Turns(entered + 1, depth + 1, q, length)
  {
    assert (2 * (entered + 1) - (depth + 1)) * (length + 1) == (2 * entered - depth) * (length + 1) + (length + 1);
  }

  lemma PopTurns(entered: nat, depth: nat, p: nat, q: nat, length: nat)
    requires depth > 0 && p < length
    ensures Turns(entered, depth, p, length) < Turns(entered, depth - 1, q, length)
  {
    assert (2 * entered - (depth - 1)) * (length + 1) == (2 * entered - depth) * (length + 1) + (length + 1);
  }

  lemma TurnsBound(entered: nat, depth: nat, p: nat, length: nat)
    requires p <= length
    ensures Turns(entered, depth, p, length) <= 2 * entered * (length + 1) + length
  {
    assert (2 * entered - depth) * (length + 1) == 2 * entered * (length + 1) - depth * (length + 1);
    assert depth * (length + 1) >= 0;
  }
}
