/** The linearizability checker for one history: a backtracking search over the linked list of
    entries, with an explicit stack, an in-place bitset and a cache of configurations. */
module Checker {
  import opened Linearizability
  import opened LinkedEntries
  import opened Search
  import opened Cache
  import opened Options
  import opened Sets
  import Bitset

  /** One frame of the stack: the call taken, and the state it was taken in. */
  datatype CallsEntry<S, V> = CallsEntry(entry: Node<V>, state: S)

  // ----- the list positions taken out by the calls on the stack -----

  /** List positions in order of removal; position 0 is the head, entry p of the history is p + 1. */
  function RemovedBy<V>(h: seq<Entry<V>>, path: seq<int>): seq<int>
  {
    if path == [] then []
    else
      var k := |path| - 1;
      RemovedBy(h, path[..k]) + [CallPos(h, path[k]) + 1] + [RetPos(h, path[k]) + 1]
  }

  lemma RemovedSnoc<V>(h: seq<Entry<V>>, path: seq<int>, x: int)
    ensures RemovedBy(h, path + [x]) == RemovedBy(h, path) + [CallPos(h, x) + 1] + [RetPos(h, x) + 1]
  {
    assert (path + [x])[..|path|] == path;
  }

  lemma {:induction false} RemovedAreTaken<V>(h: seq<Entry<V>>, path: seq<int>, p: int)
    requires Complete(h) && Elems(path) <= Ids(h)
    ensures 0 <= p < |h| ==> (p + 1 in RemovedBy(h, path) <==> h[p].id in path)
    ensures 0 !in RemovedBy(h, path)
  {
    if path != [] {
      var k := |path| - 1;
      assert path == path[..k] + [path[k]];
      assert path[k] in Elems(path);
      assert Elems(path[..k]) <= Elems(path);
      RemovedAreTaken(h, path[..k], p);
      if 0 <= p < |h| {
        PositionOf(h, p);
      }
      Positions(h, path[k]);
    }
  }

  lemma NextPosition<V>(h: seq<Entry<V>>, done: set<int>, dead: set<int>, p: int)
    requires -1 <= p < |h|
    requires forall r | 0 <= r < |h| :: r + 1 in dead <==> !Live(h, done, r)
    ensures NextLive(h, done, p, NextIdx(|h| + 1, dead, p + 1) - 1)
  {
    hide Live;
    var q := NextIdx(|h| + 1, dead, p + 1) - 1;
    forall r | p < r < q
      ensures !Live(h, done, r)
    {
      assert r + 1 in dead;
    }
  }

  /** The next pointer of a linked node leads to the next remaining entry. */
  lemma NextPointer<V>(h: seq<Entry<V>>, path: seq<int>, p: int)
    requires Complete(h) && Elems(path) <= Ids(h)
    requires p == -1 || Live(h, Elems(path), p)
    ensures NextLive(h, Elems(path), p, NextOf(|h| + 1, RemovedBy(h, path), p + 1) - 1)
  {
    hide NextLive, Complete;
    RemovedAreTaken(h, path, p);
    LiveBefore(RemovedBy(h, path), p + 1);
    forall r | 0 <= r < |h|
      ensures r + 1 in Elems(RemovedBy(h, path)) <==> !Live(h, Elems(path), r)
    {
      RemovedAreTaken(h, path, r);
    }
    NextPosition(h, Elems(path), Elems(RemovedBy(h, path)), p);
  }

  /** The nodes of the list: a head, then one node for each entry. */
  ghost predicate NodesOf<V>(all: seq<Node<V>>, h: seq<Entry<V>>)
  {
    |all| == |h| + 1 && Distinct(all) && Carries(all[1..], h, 0)
  }

  lemma NodeAt<V>(all: seq<Node<V>>, h: seq<Entry<V>>, p: nat)
    requires NodesOf(all, h) && Complete(h) && p < |h|
    ensures all[p + 1].id == h[p].id && all[p + 1].value == h[p].value
    ensures RetPos(h, h[p].id) < |h|
    ensures all[p + 1].matching == if h[p].kind == Call then all[RetPos(h, h[p].id) + 1] else null
  {
    PositionOf(h, p);
    Positions(h, h[p].id);
    assert all[1..][p] == all[p + 1];
    assert all[1..][p].matching == MatchOf(all[1..], h, 0, p);
    if h[p].kind == Call {
      var r := Find(h, Return, h[p].id, p + 1);
      assert h[RetPos(h, h[p].id)].kind == Return;
      assert r == RetPos(h, h[p].id);
      assert all[1..][r] == all[r + 1];
    }
  }

  /** The stack holds the nodes of the operations of `path` and the states they were taken in. */
  ghost predicate StackOf<S, V>(m: Model<S, V>, h: seq<Entry<V>>, all: seq<Node<V>>, calls: seq<CallsEntry<S, V>>,
          path: seq<int>)
    requires NodesOf(all, h) && Complete(h)
  {
    && |calls| == |path|
    && (forall k | 0 <= k < |calls| ::
          && path[k] in Ids(h) && CallPos(h, path[k]) < |h|
          && calls[k].entry == all[CallPos(h, path[k]) + 1]
          && calls[k].entry.id == path[k]
          && calls[k].state == StateAt(m, h, path[..k]))
  }

  lemma StackPush<S, V>(m: Model<S, V>, h: seq<Entry<V>>, all: seq<Node<V>>, calls: seq<CallsEntry<S, V>>,
          calls': seq<CallsEntry<S, V>>, front: seq<int>, path: seq<int>, p: nat)
    requires NodesOf(all, h) && Complete(h) && StackOf(m, h, all, calls, front)
    requires p < |h| && h[p].kind == Call && path == front + [h[p].id]
    requires calls' == calls + [CallsEntry(all[p + 1], StateAt(m, h, front))]
    ensures StackOf(m, h, all, calls', path)
  {
    hide StateAt, CallPos, RetPos, Complete, Distinct, Carries;
    NodeAt(all, h, p);
    PositionOf(h, p);
    forall k | 0 <= k < |calls'|
      ensures calls'[k].state == StateAt(m, h, path[..k])
    {
      if k < |front| {
        assert path[..k] == front[..k];
      } else {
        assert path[..k] == front;
      }
    }
  }

  lemma StackPop<S, V>(m: Model<S, V>, h: seq<Entry<V>>, all: seq<Node<V>>, calls: seq<CallsEntry<S, V>>,
          path: seq<int>, front: seq<int>, x: int)
    requires NodesOf(all, h) && Complete(h) && StackOf(m, h, all, calls, path) && path == front + [x]
    ensures |calls| == |path| && StackOf(m, h, all, calls[..|calls| - 1], front)
    ensures calls[|calls| - 1].entry.id == x && calls[|calls| - 1].state == StateAt(m, h, front)
    ensures x in Ids(h) && CallPos(h, x) < |h| && calls[|calls| - 1].entry == all[CallPos(h, x) + 1]
  {
    hide StateAt, CallPos, Complete, Distinct, Carries;
    forall k | 0 <= k <= |front|
      ensures path[..k] == front[..k]
    {
    }
    assert front[..|front|] == front;
  }

  // ----- recording partial linearizations -----

  /** The ids of the calls on the stack. */
  method StackIds<S, V>(calls: seq<CallsEntry<S, V>>) returns (ids: seq<int>)
    ensures |ids| == |calls| && forall k | 0 <= k < |calls| :: ids[k] == calls[k].entry.id
  {
    ids := [];
    for i := 0 to |calls|
      invariant |ids| == i && forall k | 0 <= k < i :: ids[k] == calls[k].entry.id
    {
      ids := ids + [calls[i].entry.id];
    }
  }

  method RecordPartials<S, V>(longest: Partials, calls: seq<CallsEntry<S, V>>, ghost path: seq<int>)
    returns (longest': Partials)
    requires |path| == |calls|
    requires forall k | 0 <= k < |calls| :: calls[k].entry.id == path[k] && 0 <= path[k] < |longest|
    ensures longest' == Record(longest, path)
    ensures forall i | 0 <= i < |longest| ::
              longest'[i]
              == if i in path && (longest[i].None? || |longest[i].value| < |path|) then Some(path) else longest[i]
  {
    longest' := longest;
    var callsLen := |calls|;
    var ids: Option<seq<int>> := None;  // created lazily
    for k := 0 to |calls|
      invariant |longest'| == |longest|
      invariant ids.Some? ==> ids.value == path
      invariant forall i | 0 <= i < |longest| ::
                  longest'[i] == if i in path[..k] then RecordAt(longest, path, i) else longest[i]
    {
      var id := calls[k].entry.id;
      assert path[..k + 1] == path[..k] + [id];
      if longest'[id].None? || callsLen > |longest'[id].value| {
        if ids.None? {
          var s := StackIds(calls);
          assert s == path;
          ids := Some(s);
        }
        longest' := longest'[id := ids];
      }
    }
    assert path[..|calls|] == path;
  }

  // ----- the search -----

  /** Everything the search holds in the heap and on its stack agrees with `path`. */
  ghost predicate Consistent<S, V>(m: Model<S, V>, h: seq<Entry<V>>, all: seq<Node<V>>, linearized: array<bv64>,
          calls: seq<CallsEntry<S, V>>, path: seq<int>, state: S)
    reads all, linearized
    requires NodesOf(all, h) && Complete(h)
  {
    && Linked(all, RemovedBy(h, path))
    && Bitset.Members(linearized[..]) == Elems(path)
    && StackOf(m, h, all, calls, path)
    && IsPartial(m, h, path)
    && state == StateAt(m, h, path)
  }

  ghost function ConfigOf<S>(e: CacheEntry<S>): Config<S>
    reads e.linearized
  {
    Config(Bitset.Members(e.linearized[..]), e.state)
  }

  ghost predicate IsCachedIn<S>(cache: Table<S>, c: Config<S>)
    reads Arrays(cache)
  {
    exists e :: e in Entries(cache) && e.linearized in Arrays(cache) && ConfigOf(e) == c
  }

  /** The cached configurations are the ones in `seen`, and the search never writes to their bitsets. */
  ghost predicate CacheHolds<S>(cache: Table<S>, linearized: array<bv64>, seen: seq<Config<S>>)
    reads Arrays(cache)
  {
    && Bucketed(cache, linearized.Length)
    && linearized !in Arrays(cache)
    && (forall e | e in Entries(cache) :: e.linearized in Arrays(cache) && ConfigOf(e) in seen)
    && forall c | c in seen :: IsCachedIn(cache, c)
  }

  /** The walk has reached the remaining entry `p`, or the end of an empty list. */
  ghost predicate Reached<V>(h: seq<Entry<V>>, done: set<int>, p: nat)
  {
    && p <= |h|
    && CallsBefore(h, done, p)
    && if p < |h| then Live(h, done, p) else forall q :: !Live(h, done, q)
  }

  lemma ReachedFirst<V>(h: seq<Entry<V>>, done: set<int>, first: int)
    requires NextLive(h, done, -1, first)
    ensures Reached(h, done, first)
  {
  }

  lemma ReachedNext<V>(h: seq<Entry<V>>, done: set<int>, p: nat, q: int)
    requires Complete(h) && Live(h, done, p) && h[p].kind == Call && CallsBefore(h, done, p)
    requires NextLive(h, done, p, q)
    ensures Reached(h, done, q) && q < |h|
  {
    PositionOf(h, p);
    Positions(h, h[p].id);
    assert Live(h, done, RetPos(h, h[p].id));
  }

  /** The remaining position after `p`, or |h|. */
  function NextPos<V>(h: seq<Entry<V>>, path: seq<int>, p: int): int
    requires -1 <= p < |h|
  {
    NextOf(|h| + 1, RemovedBy(h, path), p + 1) - 1
  }

  lemma FollowNext<V>(all: seq<Node<V>>, h: seq<Entry<V>>, path: seq<int>, p: int)
    requires Complete(h) && |all| == |h| + 1 && Linked(all, RemovedBy(h, path)) && Elems(path) <= Ids(h)
    requires p == -1 || Live(h, Elems(path), p)
    ensures all[p + 1].next == At(all, NextPos(h, path, p) + 1)
    ensures NextLive(h, Elems(path), p, NextPos(h, path, p))
  {
    hide NextLive, Linked, Complete, NextOf, PrevOf, At, RemovedBy, Elems, Ids;
    NextPointer(h, path, p);
    LinkedPointers(all, RemovedBy(h, path), p + 1);
  }

  lemma PathElems<S, V>(m: Model<S, V>, h: seq<Entry<V>>, path: seq<int>)
    requires Complete(h) && IsPartial(m, h, path)
    ensures Elems(path) <= Ids(h) && |path| <= |Ids(h)|
    ensures |path| == |Ids(h)| <==> Elems(path) == Ids(h)
  {
    LegalElems(m, h, {}, m.init, path);
    SubsetCount(Elems(path), Ids(h));
  }

  lemma PushPositions<V>(h: seq<Entry<V>>, all: seq<Node<V>>, front: seq<int>, path: seq<int>, p: nat,
          removed: seq<int>)
    requires NodesOf(all, h) && Complete(h) && Elems(front) <= Ids(h)
    requires Live(h, Elems(front), p) && h[p].kind == Call && path == front + [h[p].id]
             && removed == RemovedBy(h, front)
    ensures h[p].id in Ids(h) && CallPos(h, h[p].id) == p < RetPos(h, h[p].id) < |h|
    ensures all[p + 1].id == h[p].id && all[p + 1].matching == all[RetPos(h, h[p].id) + 1]
    ensures p + 1 !in removed && RetPos(h, h[p].id) + 1 !in removed && 0 !in removed
    ensures RemovedBy(h, path) == removed + [p + 1] + [RetPos(h, h[p].id) + 1]
  {
    hide RemovedBy, Complete, Distinct, Carries;
    var x := h[p].id;
    NodeAt(all, h, p);
    PositionOf(h, p);
    Positions(h, x);
    RemovedAreTaken(h, front, p);
    RemovedAreTaken(h, front, RetPos(h, x));
    RemovedSnoc(h, front, x);
  }

  lemma PushLegal<S, V>(m: Model<S, V>, h: seq<Entry<V>>, front: seq<int>, path: seq<int>, p: nat)
    requires Complete(h) && IsPartial(m, h, front)
    requires Live(h, Elems(front), p) && h[p].kind == Call && CallsBefore(h, Elems(front), p)
             && path == front + [h[p].id]
    requires h[p].id in Ids(h) && StepOf(m, h, StateAt(m, h, front), h[p].id).0
    ensures IsPartial(m, h, path) && StateAt(m, h, path) == StepOf(m, h, StateAt(m, h, front), h[p].id).1
    ensures Elems(path) == Elems(front) + {h[p].id}
  {
    hide Complete, StepOf, Ids, CallsBefore;
    EntryIsMinimal(h, Elems(front), p);
    LegalSnoc(m, h, front, h[p].id);
  }

  /** Takes the call `entry` next: pushes it and lifts it out of the list. */
  method PushCall<S, V>(ghost m: Model<S, V>, ghost h: seq<Entry<V>>, ghost all: seq<Node<V>>,
          linearized: array<bv64>, calls: seq<CallsEntry<S, V>>, ghost front: seq<int>, ghost path: seq<int>,
          state: S, ghost newState: S, entry: Node<V>, ghost p: nat)
    returns (calls': seq<CallsEntry<S, V>>)
    requires NodesOf(all, h) && Complete(h) && Consistent(m, h, all, linearized, calls, front, state)
    requires Live(h, Elems(front), p) && h[p].kind == Call && CallsBefore(h, Elems(front), p) && entry == all[p + 1]
    requires path == front + [h[p].id]
    requires h[p].id in Ids(h) && StepOf(m, h, state, h[p].id) == (true, newState)
    requires 0 <= h[p].id < Bitset.WORD_BITS * linearized.Length
    modifies all, linearized
    ensures Consistent(m, h, all, linearized, calls', path, newState)
  {
    hide Complete, LegalFrom, Linked, StackOf, Bitset.Members, RemovedBy, StateAt, StepOf, Elems, Ids, CallsBefore,
        CallPos, RetPos, Carries;
    ghost var removed := RemovedBy(h, front);
    PathElems(m, h, front);
    PushPositions(h, all, front, path, p, removed);
    PushLegal(m, h, front, path, p);
    calls' := calls + [CallsEntry(entry, state)];
    StackPush(m, h, all, calls, calls', front, path, p);
    var _ := Bitset.Set(linearized, entry.id);
    Lift(entry, all, removed, p + 1, RetPos(h, h[p].id) + 1);
  }

  lemma PopPositions<V>(h: seq<Entry<V>>, all: seq<Node<V>>, path: seq<int>, front: seq<int>, x: int, removed: seq<int>)
    requires NodesOf(all, h) && Complete(h) && path == front + [x] && removed == RemovedBy(h, front)
    requires Elems(path) <= Ids(h) && NoDuplicates(path) && x in Ids(h)
    ensures CallPos(h, x) < RetPos(h, x) < |h| && all[CallPos(h, x) + 1].id == x
            && all[CallPos(h, x) + 1].matching == all[RetPos(h, x) + 1]
    ensures CallPos(h, x) + 1 !in removed && RetPos(h, x) + 1 !in removed && 0 !in removed
    ensures RemovedBy(h, path) == removed + [CallPos(h, x) + 1] + [RetPos(h, x) + 1]
    ensures Elems(front) == Elems(path) - {x}
  {
    hide RemovedBy, Complete, Distinct, Carries, Elems, Ids;
    Positions(h, x);
    NodeAt(all, h, CallPos(h, x));
    LastIsNew(front, x, path);
    SnocElems(front, x, path);
    ElemsIn(front);
    RemovedAreTaken(h, front, CallPos(h, x));
    RemovedAreTaken(h, front, RetPos(h, x));
    RemovedSnoc(h, front, x);
  }

  lemma FrontIsPartial<S, V>(m: Model<S, V>, h: seq<Entry<V>>, path: seq<int>, front: seq<int>, x: int)
    requires Complete(h) && IsPartial(m, h, path) && path == front + [x]
    ensures IsPartial(m, h, front) && NoDuplicates(path) && Elems(path) <= Ids(h)
  {
    hide LegalFrom;
    LegalElems(m, h, {}, m.init, path);
    LegalPrefix(m, h, path, |front|);
    assert path[..|front|] == front;
  }

  /** Gives up the call on top of the stack: clears its bit and puts it back into the list. */
  method PopCall<S, V>(ghost m: Model<S, V>, ghost h: seq<Entry<V>>, ghost all: seq<Node<V>>,
          linearized: array<bv64>, calls: seq<CallsEntry<S, V>>, ghost path: seq<int>, ghost front: seq<int>,
          ghost x: int, ghost state: S)
    returns (calls': seq<CallsEntry<S, V>>, entry: Node<V>, state': S)
    requires NodesOf(all, h) && Complete(h) && Consistent(m, h, all, linearized, calls, path, state)
             && path == front + [x]
    requires 0 <= x < Bitset.WORD_BITS * linearized.Length
    modifies all, linearized
    ensures Consistent(m, h, all, linearized, calls', front, state')
    ensures CallPos(h, x) < |h| && entry == all[CallPos(h, x) + 1]
  {
    hide Complete, LegalFrom, Linked, StackOf, Bitset.Members, RemovedBy, StateAt, Elems, Ids, CallPos, RetPos, Carries;
    ghost var removed := RemovedBy(h, front);
    FrontIsPartial(m, h, path, front, x);
    StackPop(m, h, all, calls, path, front, x);
    PopPositions(h, all, path, front, x, removed);
    var callsTop := calls[|calls| - 1];
    entry := callsTop.entry;
    state' := callsTop.state;
    var _ := Bitset.Clear(linearized, entry.id);
    calls' := calls[..|calls| - 1];
    Unlift(entry, all, removed, CallPos(h, x) + 1, RetPos(h, x) + 1);
  }

  // ----- the cache -----

  lemma CacheInsert<S>(cache: Table<S>, linearized: array<bv64>, seen: seq<Config<S>>, hash: nat, entry: CacheEntry<S>)
    requires CacheHolds(cache, linearized, seen)
    requires entry.linearized != linearized && entry.linearized.Length == linearized.Length
    requires hash == Key(Bitset.HashOf(entry.linearized[..]))
    ensures CacheHolds(Insert(cache, hash, entry), linearized, seen + [ConfigOf(entry)])
  {
    hide Bitset.Members, Bitset.HashOf, Key, Insert, Bucketed, ConfigOf;
    InsertEntries(cache, hash, entry);
    InsertBucketed(cache, hash, entry);
    forall c | c in seen + [ConfigOf(entry)]
      ensures IsCachedIn(Insert(cache, hash, entry), c)
    {
      InsertCaches(cache, linearized, seen, hash, entry, c);
    }
  }

  lemma InsertCaches<S>(cache: Table<S>, linearized: array<bv64>, seen: seq<Config<S>>, hash: nat, entry: CacheEntry<S>,
          c: Config<S>)
    requires CacheHolds(cache, linearized, seen) && c in seen + [ConfigOf(entry)]
    ensures IsCachedIn(Insert(cache, hash, entry), c)
  {
    hide Bitset.Members, Insert, Bucketed, ConfigOf;
    InsertEntries(cache, hash, entry);
    var more := Insert(cache, hash, entry);
    if c in seen {
      var e :| e in Entries(cache) && e.linearized in Arrays(cache) && ConfigOf(e) == c;
      assert e in Entries(more);
    } else {
      assert entry in Entries(more);
    }
  }

  /** Appends an entry to the bucket of its hash. */
  method AddToCache<S>(cache: Table<S>, entry: CacheEntry<S>, ghost linearized: array<bv64>, ghost seen: seq<Config<S>>)
    returns (cache': Table<S>)
    requires CacheHolds(cache, linearized, seen)
    requires entry.linearized != linearized && entry.linearized.Length == linearized.Length
    ensures CacheHolds(cache', linearized, seen + [ConfigOf(entry)])
    ensures Arrays(cache') == Arrays(cache) + {entry.linearized}
  {
    hide ConfigOf, Bitset.Members, Bitset.HashOf, Key, Insert, Bucketed, CacheHolds;
    assert forall a: array<bv64> | a in Arrays(cache) :: allocated(a);
    var hash := Bitset.Hash(entry.linearized);
    assert CacheHolds(cache, linearized, seen);
    CacheInsert(cache, linearized, seen, Key(hash), entry);
    InsertArrays(cache, Key(hash), entry);
    cache' := Insert(cache, Key(hash), entry);
  }

  lemma InsertArrays<S>(cache: Table<S>, hash: nat, entry: CacheEntry<S>)
    ensures Arrays(Insert(cache, hash, entry)) == Arrays(cache) + {entry.linearized}
  {
    hide Insert, Entries;
    InsertEntries(cache, hash, entry);
  }

  lemma CacheIsBucketed<S>(cache: Table<S>, linearized: array<bv64>, seen: seq<Config<S>>)
    requires CacheHolds(cache, linearized, seen)
    ensures Bucketed(cache, linearized.Length)
  {
  }

  /** A configuration that is not found is not equal to any that was entered. */
  lemma CacheMiss<S, V>(m: Model<S, V>, cache: Table<S>, linearized: array<bv64>, seen: seq<Config<S>>,
          entry: CacheEntry<S>)
    requires CacheHolds(cache, linearized, seen)
    requires !exists e | e in Entries(cache) :: SameConfig(m, entry, e)
    ensures IsNew(m, seen, ConfigOf(entry))
  {
    hide Bitset.Members, Bucketed;
    forall c | c in seen && c.done == ConfigOf(entry).done
      ensures !m.equal(entry.state, c.state)
    {
      var e :| e in Entries(cache) && e.linearized in Arrays(cache) && ConfigOf(e) == c;
      assert !SameConfig(m, entry, e);
    }
  }

  /** A call whose configuration is in the cache is refuted. */
  lemma CacheHit<S(!new), V(!new)>(m: Model<S, V>, h: seq<Entry<V>>, path: seq<int>, p: nat, cache: Table<S>,
          linearized: array<bv64>, seen: seq<Config<S>>, entry: CacheEntry<S>, longest: Partials, partial: bool)
    requires Complete(h) && EqualSimulates(m) && IsPartial(m, h, path) && CacheHolds(cache, linearized, seen)
    requires Progress(m, h, path, p, seen, longest, partial)
    requires p < |h| && h[p].id in Ids(h) && h[p].id !in path && StepOf(m, h, StateAt(m, h, path), h[p].id).0
    requires Bitset.Members(entry.linearized[..]) == Elems(path) + {h[p].id}
    requires entry.state == StepOf(m, h, StateAt(m, h, path), h[p].id).1
    requires exists e | e in Entries(cache) :: SameConfig(m, entry, e)
    ensures Refuted(m, h, Elems(path), StateAt(m, h, path), h[p].id, longest, partial)
  {
    hide Progress, LegalFrom, Refuted, StepOf, StateAt, Bitset.Members, Elems;
    var e :| e in Entries(cache) && SameConfig(m, entry, e);
    HitIsRefuted(m, h, path, p, seen, longest, partial, h[p].id, Config(Bitset.Members(e.linearized[..]), e.state));
  }

  /** The state of the search at the top of its loop. */
  ghost predicate LoopState<S(!new), V(!new)>(m: Model<S, V>, h: seq<Entry<V>>, path: seq<int>, p: nat,
          seen: seq<Config<S>>, longest: Partials, partial: bool)
    requires Complete(h)
  {
    && Reached(h, Elems(path), p)
    && |longest| == |h| / 2
    && RecordsAreLegal(m, h, longest)
    && (!partial ==> forall i | 0 <= i < |longest| :: longest[i].None?)
    && (EqualSimulates(m) ==> Progress(m, h, path, p, seen, longest, partial))
  }

  lemma SkipCall<S(!new), V(!new)>(m: Model<S, V>, h: seq<Entry<V>>, path: seq<int>, p: nat, q: int,
          seen: seq<Config<S>>, longest: Partials, partial: bool)
    requires Complete(h) && LoopState(m, h, path, p, seen, longest, partial)
    requires Live(h, Elems(path), p) && h[p].kind == Call && NextLive(h, Elems(path), p, q)
    requires h[p].id in Ids(h)
    requires EqualSimulates(m) ==> Refuted(m, h, Elems(path), StateAt(m, h, path), h[p].id, longest, partial)
    ensures LoopState(m, h, path, q, seen, longest, partial)
    ensures p < q <= |h|
  {
    hide Progress, Refuted, RecordsAreLegal, EqualSimulates;
    ReachedNext(h, Elems(path), p, q);
    if EqualSimulates(m) {
      SkipKeepsProgress(m, h, path, p, q, seen, longest, partial);
    }
  }

  lemma EnterCall<S(!new), V(!new)>(m: Model<S, V>, h: seq<Entry<V>>, front: seq<int>, x: int, path: seq<int>,
          first: int, seen: seq<Config<S>>, longest: Partials, partial: bool)
    requires Complete(h) && path == front + [x] && NextLive(h, Elems(path), -1, first)
    requires LoopState(m, h, front, CallPos(h, x), seen, longest, partial)
    ensures LoopState(m, h, path, first, seen + [Config(Elems(path), StateAt(m, h, path))], longest, partial)
  {
    hide Progress, RecordsAreLegal, EqualSimulates, Complete, CallPos, StateAt, Elems;
    ReachedFirst(h, Elems(path), first);
    if EqualSimulates(m) {
      PushKeepsProgress(m, h, front, x, path, first, seen, longest, partial);
    }
  }

  /** What is recorded when the walk below `path` meets a return. */
  function Recorded(longest: Partials, path: seq<int>, partial: bool): Partials
  {
    if partial then Record(longest, path) else longest
  }

  lemma LeaveCall<S(!new), V(!new)>(m: Model<S, V>, h: seq<Entry<V>>, path: seq<int>, front: seq<int>, x: int,
          p: nat, q: int, seen: seq<Config<S>>, longest: Partials, partial: bool)
    requires Complete(h) && IsPartial(m, h, path) && path == front + [x] && p < |h| && h[p].kind == Return
    requires CallPos(h, x) < |h| && NextLive(h, Elems(front), CallPos(h, x), q)
    requires forall i | i in path :: 0 <= i < |longest|
    requires LoopState(m, h, path, p, seen, longest, partial)
    ensures LoopState(m, h, front, q, seen, Recorded(longest, path, partial), partial)
  {
    hide Progress, RecordsAreLegal, EqualSimulates, LegalFrom, Grows, Record, Reached, Reaches, Complete, CallPos,
        Elems, Live;
    var longest' := Recorded(longest, path, partial);
    LeaveRecords(m, h, path, longest, partial);
    LeaveReached(m, h, path, front, x, q);
    if EqualSimulates(m) {
      ReachedLive(h, Elems(path), p);
      PopKeepsProgress(m, h, path, front, x, p, q, seen, longest, longest', partial);
    }
  }

  lemma LeaveRecords<S, V>(m: Model<S, V>, h: seq<Entry<V>>, path: seq<int>, longest: Partials, partial: bool)
    requires Complete(h) && RecordsAreLegal(m, h, longest) && IsPartial(m, h, path)
    requires forall i | i in path :: 0 <= i < |longest|
    ensures var longest' := Recorded(longest, path, partial);
            && |longest'| == |longest| && RecordsAreLegal(m, h, longest') && Grows(longest, longest')
            && (partial ==> forall i | i in path :: Reaches(longest', i, |path|))
  {
    hide LegalFrom;
    RecordGrows(m, h, longest, path);
  }

  lemma ReachedLive<V>(h: seq<Entry<V>>, done: set<int>, p: nat)
    requires Reached(h, done, p) && p < |h|
    ensures Live(h, done, p) && CallsBefore(h, done, p)
  {
  }

  lemma LeaveReached<S, V>(m: Model<S, V>, h: seq<Entry<V>>, path: seq<int>, front: seq<int>, x: int, q: int)
    requires Complete(h) && IsPartial(m, h, path) && path == front + [x]
    requires CallPos(h, x) < |h| && NextLive(h, Elems(front), CallPos(h, x), q)
    ensures Reached(h, Elems(front), q)
  {
    hide Elems, LegalFrom;
    PopLive(m, h, path, front, x);
    Positions(h, x);
    ReachedNext(h, Elems(front), CallPos(h, x), q);
  }

  lemma MinimalIsReached<V>(h: seq<Entry<V>>, done: set<int>, x: int)
    requires Complete(h) && Minimal(h, done, x)
    ensures CallPos(h, x) < |h| && Live(h, done, CallPos(h, x)) && CallsBefore(h, done, CallPos(h, x))
  {
    Positions(h, x);
    forall q | Live(h, done, q) && q < CallPos(h, x)
      ensures h[q].kind == Call
    {
      PositionOf(h, q);
    }
  }

  // ----- the loop -----

  /** Builds the list for a history, with a head in front of the first entry. */
  method BuildList<V(0)>(history: seq<Entry<V>>)
    returns (entry: Node?<V>, headEntry: Node<V>, n: nat, ghost all: seq<Node<V>>)
    ensures n == |history| / 2
    ensures NodesOf(all, history) && Linked(all, []) && headEntry == all[0] && entry == At(all, 1)
    ensures forall k | 0 <= k < |all| :: fresh(all[k])
  {
    ghost var nodes: seq<Node<V>>;
    entry, nodes := MakeLinkedEntries(history);
    var len := Length(entry, nodes);
    n := len / 2;
    var nil: V := *;
    var head := new Node(nil, null, -1);
    headEntry := Prepend(head, entry, nodes);
    all := [head] + nodes;
    assert all[1..] == nodes;
    AtMore(head, nodes, 1);
    ChainIsLinked(all);
  }

  lemma EmptyStack<S, V>(m: Model<S, V>, h: seq<Entry<V>>, all: seq<Node<V>>)
    requires NodesOf(all, h) && Complete(h)
    ensures RemovedBy(h, []) == [] && StackOf(m, h, all, [], []) && IsPartial(m, h, []) && StateAt(m, h, []) == m.init
    ensures Elems([]) == {}
  {
  }

  lemma EmptyConsistent<S, V>(m: Model<S, V>, h: seq<Entry<V>>, all: seq<Node<V>>, linearized: array<bv64>)
    requires WellFormed(h) && NodesOf(all, h) && Linked(all, []) && Bitset.Members(linearized[..]) == {}
    ensures Consistent(m, h, all, linearized, [], [], m.init)
  {
    hide NodesOf, Linked, Bitset.Members;
    EmptyStack(m, h, all);
  }

  lemma EmptyCache<S>(linearized: array<bv64>)
    ensures CacheHolds<S>(map[], linearized, []) && Arrays<S>(map[]) == {}
  {
  }

  lemma FirstState<S(!new), V(!new)>(m: Model<S, V>, h: seq<Entry<V>>, longest: Partials, partial: bool)
    requires WellFormed(h) && |longest| == |h| / 2 && forall i | 0 <= i < |longest| :: longest[i].None?
    ensures LoopState(m, h, [], 0, [], longest, partial)
  {
    assert Elems([]) == {};
    assert NextLive(h, Elems([]), -1, 0);
    StartTried(m, h, [], 0, longest, partial);
  }

  /** While the list is not empty, the walk stands at one of its entries. */
  lemma AtEntry<V>(h: seq<Entry<V>>, all: seq<Node<V>>, path: seq<int>, p: nat)
    requires WellFormed(h) && NodesOf(all, h) && Linked(all, RemovedBy(h, path)) && Elems(path) <= Ids(h)
    requires Reached(h, Elems(path), p) && all[0].next != null
    ensures p < |h| && Live(h, Elems(path), p) && CallsBefore(h, Elems(path), p)
    ensures h[p].id in Ids(h) && 0 <= h[p].id < |h| / 2 && h[p].id !in path
    ensures all[p + 1].id == h[p].id && all[p + 1].value == h[p].value
    ensures h[p].kind == Call ==> CallPos(h, h[p].id) == p && RetPos(h, h[p].id) < |h|
    ensures all[p + 1].matching == if h[p].kind == Call then all[RetPos(h, h[p].id) + 1] else null
    ensures h[p].kind == Call ==> all[RetPos(h, h[p].id) + 1].value == h[RetPos(h, h[p].id)].value
  {
    FollowNext(all, h, path, -1);
    PositionOf(h, p);
    NodeAt(all, h, p);
    NodeAt(all, h, RetPos(h, h[p].id));
  }

  lemma NothingLive<V>(h: seq<Entry<V>>, path: seq<int>)
    requires NextLive(h, Elems(path), -1, |h|)
    ensures Ids(h) <= Elems(path)
  {
    forall p | 0 <= p < |h|
      ensures h[p].id in Elems(path)
    {
      assert !Live(h, Elems(path), p);
    }
  }

  /** When the list is empty, the path is a linearization. */
  lemma EmptyListMeansLinearized<S, V>(m: Model<S, V>, h: seq<Entry<V>>, all: seq<Node<V>>, path: seq<int>)
    requires WellFormed(h) && NodesOf(all, h) && Linked(all, RemovedBy(h, path)) && IsPartial(m, h, path)
    requires all[0].next == null
    ensures IsLinearization(m, h, path)
    ensures forall i | 0 <= i < |h| / 2 :: i in path
  {
    hide Linked, LegalFrom, IsLinearization, Complete, Distinct, Carries, Elems;
    PathElems(m, h, path);
    FollowNext(all, h, path, -1);
    NothingLive(h, path);
    ElemsIn(path);
    LinearizationIsFullPartial(m, h, path);
  }

  lemma GiveUp<S(!new), V(!new)>(m: Model<S, V>, h: seq<Entry<V>>, p: nat, seen: seq<Config<S>>, longest: Partials,
          partial: bool)
    requires WellFormed(h) && EqualSimulates(m) && LoopState(m, h, [], p, seen, longest, partial)
    requires p < |h| && h[p].kind == Return
    ensures !Linearizable(m, h)
    ensures partial ==> Optimal(m, h, longest)
  {
    assert Elems([]) == {};
    ReturnMeansExplored(m, h, [], p, longest, partial);
    ExhaustedMeansIllegal(m, h, longest, partial);
  }

  lemma AtCall<S(!new), V(!new)>(m: Model<S, V>, h: seq<Entry<V>>, all: seq<Node<V>>, calls: seq<CallsEntry<S, V>>,
          path: seq<int>, p: nat, seen: seq<Config<S>>, longest: Partials, partial: bool)
    requires WellFormed(h) && NodesOf(all, h) && Linked(all, RemovedBy(h, path)) && IsPartial(m, h, path)
    requires StackOf(m, h, all, calls, path)
    requires LoopState(m, h, path, p, seen, longest, partial) && all[0].next != null
    ensures p < |h| && Live(h, Elems(path), p) && CallsBefore(h, Elems(path), p)
    ensures h[p].id in Ids(h) && 0 <= h[p].id < |h| / 2 && h[p].id !in path
    ensures all[p + 1].id == h[p].id && all[p + 1].value == h[p].value
    ensures all[p + 1].matching != null <==> h[p].kind == Call
    ensures h[p].kind == Call ==> CallPos(h, h[p].id) == p && all[p + 1].matching == all[RetPos(h, h[p].id) + 1]
    ensures h[p].kind == Call ==> forall s :: m.step(s, all[p + 1].value, all[p + 1].matching.value) == StepOf(m, h, s,
            h[p].id)
    ensures Elems(path) <= Ids(h) && |path| < |h| / 2 && |longest| == |h| / 2
    ensures forall i | 0 <= i < |path| :: CallPos(h, path[i]) < |h|
  {
    hide LegalFrom, Linked, Carries, Distinct, RecordsAreLegal, EqualSimulates, Progress, Reached, Complete;
    IdsCount(h);
    PathElems(m, h, path);
    AtEntry(h, all, path, p);
    assert h[p].id !in Elems(path);
  }

  lemma ConsistentParts<S, V>(m: Model<S, V>, h: seq<Entry<V>>, all: seq<Node<V>>, linearized: array<bv64>,
          calls: seq<CallsEntry<S, V>>, path: seq<int>, state: S)
    requires NodesOf(all, h) && Complete(h) && Consistent(m, h, all, linearized, calls, path, state)
    ensures Linked(all, RemovedBy(h, path)) && Bitset.Members(linearized[..]) == Elems(path)
    ensures StackOf(m, h, all, calls, path) && IsPartial(m, h, path) && state == StateAt(m, h, path)
    ensures |calls| == |path|
  {
  }

  /** After a push the walk starts again at the head of the list. */
  lemma Entered<S(!new), V(!new)>(m: Model<S, V>, h: seq<Entry<V>>, all: seq<Node<V>>, path: seq<int>,
          path': seq<int>, p: nat, n: nat, seen: seq<Config<S>>, seen': seq<Config<S>>, longest: Partials,
          partial: bool)
    returns (first: nat)
    requires Complete(h) && |all| == |h| + 1 && p < |h| && h[p].kind == Call && CallPos(h, h[p].id) == p
    requires path' == path + [h[p].id] && seen' == seen + [Config(Elems(path'), StateAt(m, h, path'))]
    requires Linked(all, RemovedBy(h, path')) && IsPartial(m, h, path')
    requires LoopState(m, h, path, p, seen, longest, partial)
    requires |path| < n && forall i | 0 <= i < |path| :: CallPos(h, path[i]) < |h|
    ensures first <= |h| && all[0].next == At(all, first + 1)
    ensures LoopState(m, h, path', first, seen', longest, partial)
    ensures 0 <= Remaining(h, path', first, n) < Remaining(h, path, p, n)
  {
    hide LegalFrom, Linked, LoopState, Remaining, RemovedBy, At, NextLive, NextPos, CallPos, Elems, Complete, Ids,
        StateAt;
    PathElems(m, h, path');
    FollowNext(all, h, path', -1);
    NextLiveBound(h, Elems(path'), -1, NextPos(h, path', -1));
    first := NextPos(h, path', -1);
    EnterCall(m, h, path, h[p].id, path', first, seen, longest, partial);
    PushDecreases(h, path, h[p].id, path', first, n);
    RemainingPositive(h, path', first, n);
  }

  /** After a pop the walk goes on behind the call given up. */
  lemma Resumed<S(!new), V(!new)>(m: Model<S, V>, h: seq<Entry<V>>, all: seq<Node<V>>, path: seq<int>,
          front: seq<int>, x: int, p: nat, n: nat, seen: seq<Config<S>>, longest: Partials, partial: bool)
    returns (q: nat)
    requires Complete(h) && |all| == |h| + 1 && p < |h| && h[p].kind == Return
    requires path == front + [x] && forall i | 0 <= i < |path| :: CallPos(h, path[i]) < |h|
    requires forall i | i in path :: 0 <= i < |longest|
    requires Linked(all, RemovedBy(h, front)) && IsPartial(m, h, front) && IsPartial(m, h, path)
    requires LoopState(m, h, path, p, seen, longest, partial) && |path| <= n
    ensures q <= |h| && CallPos(h, x) < |h| && all[CallPos(h, x) + 1].next == At(all, q + 1)
    ensures LoopState(m, h, front, q, seen, Recorded(longest, path, partial), partial)
    ensures 0 <= Remaining(h, front, q, n) < Remaining(h, path, p, n)
  {
    hide LegalFrom, Linked, LoopState, Remaining, RemovedBy, At, NextLive, NextPos, CallPos, Elems, Complete, Ids,
        StateAt, Recorded, Live;
    var c := CallPos(h, x);
    assert path[|front|] == x;
    PathElems(m, h, front);
    PopLive(m, h, path, front, x);
    FollowNext(all, h, front, c);
    NextLiveBound(h, Elems(front), c, NextPos(h, front, c));
    q := NextPos(h, front, c);
    LeaveCall(m, h, path, front, x, p, q, seen, longest, partial);
    PopDecreases(h, path, front, x, p, q, n);
    assert forall i | 0 <= i < |front| :: front[i] == path[i];
    RemainingPositive(h, front, q, n);
  }

  lemma PopLive<S, V>(m: Model<S, V>, h: seq<Entry<V>>, path: seq<int>, front: seq<int>, x: int)
    requires Complete(h) && IsPartial(m, h, path) && path == front + [x]
    ensures x in Ids(h) && CallPos(h, x) < |h|
    ensures Live(h, Elems(front), CallPos(h, x)) && CallsBefore(h, Elems(front), CallPos(h, x))
  {
    hide Live, CallsBefore, Complete;
    assert path[..|front|] == front && path[|front|] == x;
    assert Minimal(h, {} + Elems(path[..|front|]), path[|front|]);
    assert {} + Elems(front) == Elems(front);
    MinimalIsReached(h, Elems(front), x);
  }

  lemma StackIdsInRange<S, V>(m: Model<S, V>, h: seq<Entry<V>>, all: seq<Node<V>>, calls: seq<CallsEntry<S, V>>,
          path: seq<int>, longest: Partials)
    requires WellFormed(h) && NodesOf(all, h) && StackOf(m, h, all, calls, path) && |longest| == |h| / 2
    ensures |calls| == |path|
    ensures forall k | 0 <= k < |path| ::
              calls[k].entry.id == path[k] && 0 <= path[k] < |longest| && CallPos(h, path[k]) < |h|
  {
    assert forall k | 0 <= k < |path| :: path[k] in Ids(h);
  }

  lemma NextLiveBound<V>(h: seq<Entry<V>>, done: set<int>, p: int, q: int)
    requires NextLive(h, done, p, q)
    ensures p < q <= |h|
  {
  }

  lemma ElemsSnoc(path: seq<int>, x: int)
    ensures Elems(path + [x]) == Elems(path) + {x}
  {
  }

  lemma SeparateArrays<S>(cache: Table<S>, linearized: array<bv64>, seen: seq<Config<S>>)
    requires CacheHolds(cache, linearized, seen)
    ensures forall a: array<bv64> | a in Arrays(cache) :: a != linearized
  {
  }

  /** The variables of the search. */
  datatype Vars<S, V> = Vars(entry: Node?<V>, state: S, calls: seq<CallsEntry<S, V>>, cache: Table<S>,
      longest: Partials)

  /** What the proof tracks beside them: the ids on the stack, the position of `entry` in the history,
      and the configurations in the cache. */
  datatype Trace<S> = Trace(path: seq<int>, p: nat, seen: seq<Config<S>>)

  /** What stays fixed during a search. */
  datatype Setting<!S, !V> = Setting(m: Model<S, V>, history: seq<Entry<V>>, computePartial: bool, all: seq<Node<V>>,
      linearized: array<bv64>)

  ghost predicate Valid<S(!new), V(!new)>(g: Setting<S, V>, v: Vars<S, V>, t: Trace<S>)
    reads g.all, g.linearized, Arrays(v.cache)
  {
    && WellFormed(g.history) && NodesOf(g.all, g.history)
    && |g.history| / 2 <= Bitset.WORD_BITS * g.linearized.Length
    && v.entry == At(g.all, t.p + 1)
    && Consistent(g.m, g.history, g.all, g.linearized, v.calls, t.path, v.state)
    && CacheHolds(v.cache, g.linearized, t.seen)
    && LoopState(g.m, g.history, t.path, t.p, t.seen, v.longest, g.computePartial)
  }

  /** How much of the search tree is left. */
  ghost function Left<S, V>(g: Setting<S, V>, t: Trace<S>): int
  {
    if |t.path| <= |g.history| / 2 then Remaining(g.history, t.path, t.p, |g.history| / 2) else 0
  }

  lemma FirstValid<S(!new), V(!new)>(g: Setting<S, V>, v: Vars<S, V>, t: Trace<S>)
    requires WellFormed(g.history) && NodesOf(g.all, g.history) && Linked(g.all, []) && v.entry == At(g.all, 1)
    requires |g.history| / 2 <= Bitset.WORD_BITS * g.linearized.Length && Bitset.Members(g.linearized[..]) == {}
    requires v.state == g.m.init && v.calls == [] && v.cache == map[]
    requires |v.longest| == |g.history| / 2 && forall i | 0 <= i < |v.longest| :: v.longest[i].None?
    requires t == Trace([], 0, [])
    ensures Valid(g, v, t) && Arrays(v.cache) == {}
  {
    hide NodesOf, WellFormed, Consistent, CacheHolds, LoopState, Linked, Bitset.Members;
    EmptyConsistent(g.m, g.history, g.all, g.linearized);
    EmptyCache<S>(g.linearized);
    FirstState(g.m, g.history, v.longest, g.computePartial);
  }

  lemma LoopFacts<S(!new), V(!new)>(g: Setting<S, V>, v: Vars<S, V>, t: Trace<S>)
    requires Valid(g, v, t) && g.all[0].next != null
    ensures v.entry != null && 0 <= Left(g, t) && 0 <= t.p < |g.history|
    ensures |v.longest| == |g.history| / 2 && RecordsAreLegal(g.m, g.history, v.longest)
    ensures !g.computePartial ==> forall i | 0 <= i < |v.longest| :: v.longest[i].None?
  {
    hide Linked, LegalFrom, StackOf, StateAt, Carries, Distinct, Complete, Elems, Ids, EqualSimulates, Remaining,
        RemovedBy, Bitset.Members, Live, CallPos, RetPos, Progress, Reached, CacheHolds, RecordsAreLegal;
    AtCall(g.m, g.history, g.all, v.calls, t.path, t.p, t.seen, v.longest, g.computePartial);
    RemainingPositive(g.history, t.path, t.p, |g.history| / 2);
  }

  lemma StuckFacts<S(!new), V(!new)>(g: Setting<S, V>, v: Vars<S, V>, t: Trace<S>)
    requires WellFormed(g.history)
    requires Valid(g, v, t) && g.all[0].next != null && v.entry != null && v.entry.matching == null && v.calls == []
    ensures EqualSimulates(g.m) ==> !Linearizable(g.m, g.history)
    ensures EqualSimulates(g.m) && g.computePartial ==> Optimal(g.m, g.history, v.longest)
  {
    hide Linked, LegalFrom, StateAt, Carries, Distinct, Complete, Elems, Ids, EqualSimulates, Remaining, RemovedBy,
        Bitset.Members, Live, CallPos, RetPos, Progress, Reached, CacheHolds, RecordsAreLegal, Linearizable,
        Optimal;
    AtCall(g.m, g.history, g.all, v.calls, t.path, t.p, t.seen, v.longest, g.computePartial);
    if EqualSimulates(g.m) {
      GiveUp(g.m, g.history, t.p, t.seen, v.longest, g.computePartial);
    }
  }

  lemma ValidParts<S(!new), V(!new)>(g: Setting<S, V>, v: Vars<S, V>, t: Trace<S>)
    requires Valid(g, v, t)
    ensures WellFormed(g.history) && NodesOf(g.all, g.history)
    ensures Consistent(g.m, g.history, g.all, g.linearized, v.calls, t.path, v.state)
    ensures 0 <= t.p <= |g.history|
  {
  }

  lemma DoneFacts<S, V>(m: Model<S, V>, h: seq<Entry<V>>, all: seq<Node<V>>, linearized: array<bv64>,
          calls: seq<CallsEntry<S, V>>, path: seq<int>, state: S)
    requires WellFormed(h) && NodesOf(all, h) && all[0].next == null
    requires Consistent(m, h, all, linearized, calls, path, state)
    ensures IsLinearization(m, h, path) && Linearizable(m, h)
    ensures |path| == |h| / 2 && |h| % 2 == 0
    ensures forall i | 0 <= i < |h| / 2 :: i in path
    ensures |calls| == |path| && forall k | 0 <= k < |calls| :: calls[k].entry.id == path[k]
  {
    hide Linked, LegalFrom, StateAt, Carries, Distinct, Complete, Elems, Ids, RemovedBy, Bitset.Members,
        IsLinearization;
    EmptyListMeansLinearized(m, h, all, path);
    LinearizationIsFullPartial(m, h, path);
    IdsCount(h);
  }

  lemma AllComplete<S, V>(m: Model<S, V>, h: seq<Entry<V>>, path: seq<int>, longest: Partials)
    requires WellFormed(h) && IsLinearization(m, h, path)
    requires forall i | 0 <= i < |longest| :: longest[i] == Some(path) && i in path
    ensures RecordsAreLegal(m, h, longest)
  {
    hide IsPartial, IsLinearization;
    LinearizationIsFullPartial(m, h, path);
  }

  /** The number of turns the loop may have taken when it is at `t`. */
  ghost function TurnsAt<S, V>(g: Setting<S, V>, t: Trace<S>): int
    requires t.p >= 0
  {
    Turns(|t.seen|, |t.path|, t.p, |g.history|)
  }

  /** One turn of the loop: no configuration is entered again, and the turn is accounted for. */
  ghost predicate Turned<S, V>(g: Setting<S, V>, t: Trace<S>, t': Trace<S>)
    requires Complete(g.history)
  {
    && t.p >= 0 && t'.p >= 0 && TurnsAt(g, t) < TurnsAt(g, t')
    && |t'.path| <= |t.path| + 1 && |t'.seen| <= |t.seen| + 1
    && (EnteredOnce(g.m, g.history, t.seen) ==> EnteredOnce(g.m, g.history, t'.seen))
  }

  lemma PushTurned<S, V>(g: Setting<S, V>, t: Trace<S>, t': Trace<S>, newState: S)
    requires Complete(g.history) && IsPartial(g.m, g.history, t'.path) && newState == StateAt(g.m, g.history, t'.path)
    requires t'.seen == t.seen + [Config(Elems(t'.path), newState)] && |t'.path| == |t.path| + 1
    requires IsNew(g.m, t.seen, Config(Elems(t'.path), newState)) && 0 <= t.p < |g.history| && t'.p >= 0
    ensures Turned(g, t, t')
  {
    hide EnteredOnce, IsPartial, StateAt, Elems, IsNew, Complete, Turns;
    PushTurns(|t.seen|, |t.path|, t.p, t'.p, |g.history|);
    if EnteredOnce(g.m, g.history, t.seen) {
      OnceMore(g.m, g.history, t.seen, t'.path, Config(Elems(t'.path), newState));
    }
  }

  /** Passes the call the walk stands at, which is refuted. */
  method Advance<S(!new), V(!new)>(ghost g: Setting<S, V>, v: Vars<S, V>, ghost t: Trace<S>)
    returns (v': Vars<S, V>, ghost t': Trace<S>)
    requires Valid(g, v, t) && g.all[0].next != null && v.entry != null && v.entry.matching != null
    requires EqualSimulates(g.m) && t.p < |g.history| && g.history[t.p].id in Ids(g.history) ==>
               Refuted(g.m, g.history, Elems(t.path), v.state, g.history[t.p].id, v.longest, g.computePartial)
    ensures Valid(g, v', t')
    ensures Turned(g, t, t')
    ensures 0 <= Left(g, t') < Left(g, t)
  {
    hide EnteredOnce, Turns, LoopState, CacheHolds, Linked, LegalFrom, StackOf, StateAt, Refuted, Carries, Distinct,
        Complete, Elems, Ids, EqualSimulates, Remaining, RemovedBy, Bitset.Members, NextLive, NextPos, Live,
        CallPos;
    ghost var h, path, p, n := g.history, t.path, t.p, |g.history| / 2;
    AtCall(g.m, h, g.all, v.calls, path, p, t.seen, v.longest, g.computePartial);
    FollowNext(g.all, h, path, p);
    ghost var q := NextPos(h, path, p);
    SkipCall(g.m, h, path, p, q, t.seen, v.longest, g.computePartial);
    AdvanceDecreases(h, path, p, q, n);
    RemainingPositive(h, path, q, n);
    AdvanceTurns(|t.seen|, |path|, p, q, |h|);
    v' := v.(entry := v.entry.next);
    t' := t.(p := q);
  }

  /** Takes the call the walk stands at: caches its configuration, pushes it and lifts it out. */
  method Enter<S(!new), V(!new)>(ghost g: Setting<S, V>, headEntry: Node<V>, linearized: array<bv64>, v: Vars<S, V>,
          ghost t: Trace<S>, newLinearized: array<bv64>, newState: S)
    returns (v': Vars<S, V>, ghost t': Trace<S>)
    requires Valid(g, v, t) && headEntry == g.all[0] && linearized == g.linearized
    requires headEntry.next != null && v.entry != null && v.entry.matching != null
    requires g.m.step(v.state, v.entry.value, v.entry.matching.value) == (true, newState)
    requires newLinearized != linearized && newLinearized.Length == linearized.Length
    requires Bitset.Members(newLinearized[..]) == Elems(t.path) + {v.entry.id}
    requires IsNew(g.m, t.seen, Config(Elems(t.path) + {v.entry.id}, newState))
    modifies g.all, linearized
    ensures Valid(g, v', t')
    ensures Turned(g, t, t')
    ensures 0 <= Left(g, t') < Left(g, t)
  {
    hide EnteredOnce, IsNew, Turned, LoopState, CacheHolds, Linked, LegalFrom, StackOf, StateAt, Refuted, Carries,
        Distinct, Complete, Elems, Ids, EqualSimulates, Remaining, RemovedBy, Bitset.Members, NextLive, NextPos,
        Live, CallPos, Consistent;
    ghost var h, all, path, p, n := g.history, g.all, t.path, t.p, |g.history| / 2;
    ghost var path' := path + [v.entry.id];
    ghost var seen' := t.seen + [Config(Elems(path'), newState)];
    ElemsSnoc(path, v.entry.id);
    ConsistentParts(g.m, h, all, linearized, v.calls, path, v.state);
    AtCall(g.m, h, all, v.calls, path, p, t.seen, v.longest, g.computePartial);
    var cache := AddToCache(v.cache, CacheEntry(newLinearized, newState), linearized, t.seen);
    SeparateArrays(cache, linearized, seen');
    assert forall a: array<bv64>, k | a in Arrays(cache) && 0 <= k < |all| :: a as object != all[k];
    var calls := PushCall(g.m, h, all, linearized, v.calls, path, path', v.state, newState, v.entry, p);
    assert CacheHolds(cache, linearized, seen');
    ConsistentParts(g.m, h, all, linearized, calls, path', newState);
    ghost var first := Entered(g.m, h, all, path, path', p, n, t.seen, seen', v.longest, g.computePartial);
    v' := Vars(headEntry.next, newState, calls, cache, v.longest);
    t' := Trace(path', first, seen');
    PushTurned(g, t, t', newState);
  }

  /** The walk stands at a call: take it if the model accepts it and its configuration is new,
      otherwise pass it. */
  method TryCall<S(!new), V(!new)>(m: Model<S, V>, ghost g: Setting<S, V>, headEntry: Node<V>,
          linearized: array<bv64>, v: Vars<S, V>, ghost t: Trace<S>)
    returns (v': Vars<S, V>, ghost t': Trace<S>)
    requires Valid(g, v, t) && m == g.m && headEntry == g.all[0] && linearized == g.linearized
    requires headEntry.next != null && v.entry != null && v.entry.matching != null
    modifies g.all, linearized
    ensures Valid(g, v', t')
    ensures Turned(g, t, t')
    ensures 0 <= Left(g, t') < Left(g, t)
  {
    hide Turned, IsNew, LoopState, CacheHolds, Linked, LegalFrom, StackOf, StateAt, Carries, Distinct, Complete,
        Elems, Ids, EqualSimulates, Left, RemovedBy, Bitset.Members, Live, CallPos, RetPos, Explored, Consistent;
    ConsistentParts(m, g.history, g.all, linearized, v.calls, t.path, v.state);
    AtCall(m, g.history, g.all, v.calls, t.path, t.p, t.seen, v.longest, g.computePartial);
    var matching := v.entry.matching;
    var (accepted, newState) := m.step(v.state, v.entry.value, matching.value);
    if accepted {
      var newLinearized := Bitset.Clone(linearized);
      assert forall a: array<bv64> | a in Arrays(v.cache) :: a != newLinearized;
      assert Valid(g, v, t);
      newLinearized := Bitset.Set(newLinearized, v.entry.id);
      var newCacheEntry := CacheEntry(newLinearized, newState);
      assert Valid(g, v, t);
      var found := IsCached(m, g, linearized, v, t, newCacheEntry);
      if !found {
        v', t' := Enter(g, headEntry, linearized, v, t, newLinearized, newState);
      } else {
        v', t' := Advance(g, v, t);
      }
    } else {
      v', t' := Advance(g, v, t);
    }
  }

  method IsCached<S(!new), V(!new)>(m: Model<S, V>, ghost g: Setting<S, V>, linearized: array<bv64>, v: Vars<S, V>,
          ghost t: Trace<S>, entry: CacheEntry<S>)
    returns (found: bool)
    requires Valid(g, v, t) && m == g.m && linearized == g.linearized && entry.linearized.Length == linearized.Length
    requires t.p < |g.history| && g.history[t.p].id in Ids(g.history) && g.history[t.p].id !in t.path
    requires StepOf(m, g.history, v.state, g.history[t.p].id) == (true, entry.state)
    requires Bitset.Members(entry.linearized[..]) == Elems(t.path) + {g.history[t.p].id}
    ensures found && EqualSimulates(m) ==>
              Refuted(m, g.history, Elems(t.path), v.state, g.history[t.p].id, v.longest, g.computePartial)
    ensures !found ==> IsNew(m, t.seen, ConfigOf(entry))
  {
    hide Linked, LegalFrom, StackOf, StateAt, Carries, Distinct, Complete, Elems, Ids, EqualSimulates, RemovedBy,
        Bitset.Members, Bitset.HashOf, Explored, Progress, Refuted, Reached, RecordsAreLegal, StepOf, CacheHolds,
        IsNew, SameConfig;
    CacheIsBucketed(v.cache, linearized, t.seen);
    assert forall a: array<bv64> | a in Arrays(v.cache) :: allocated(a);
    found := CacheContains(m, v.cache, entry);
    if !found {
      CacheMiss(m, v.cache, linearized, t.seen, entry);
    } else if EqualSimulates(m) {
      CacheHit(m, g.history, t.path, t.p, v.cache, linearized, t.seen, entry, v.longest, g.computePartial);
    }
  }

  /** The walk stands at a return: nothing more can be linearized below the current path. */
  method Backtrack<S(!new), V(!new)>(ghost g: Setting<S, V>, linearized: array<bv64>, computePartial: bool,
          v: Vars<S, V>, ghost t: Trace<S>)
    returns (v': Vars<S, V>, ghost t': Trace<S>)
    requires Valid(g, v, t) && linearized == g.linearized && computePartial == g.computePartial
    requires g.all[0].next != null && v.entry != null && v.entry.matching == null && v.calls != []
    modifies g.all, linearized
    ensures Valid(g, v', t')
    ensures Turned(g, t, t')
    ensures 0 <= Left(g, t') < Left(g, t)
  {
    hide EnteredOnce, Turns, LoopState, CacheHolds, Linked, LegalFrom, StackOf, StateAt, Carries, Distinct,
        Complete, Elems, Ids, EqualSimulates, Remaining, RemovedBy, Bitset.Members, NextLive, NextPos, Live,
        CallPos, RetPos, Consistent, Record;
    ghost var h, all, path, p := g.history, g.all, t.path, t.p;
    ConsistentParts(g.m, h, all, linearized, v.calls, path, v.state);
    AtCall(g.m, h, all, v.calls, path, p, t.seen, v.longest, computePartial);
    StackIdsInRange(g.m, h, all, v.calls, path, v.longest);
    var longest := v.longest;
    if computePartial {
      longest := RecordPartials(longest, v.calls, path);
    }
    ghost var front, x := path[..|path| - 1], path[|path| - 1];
    assert forall a: array<bv64>, j | a in Arrays(v.cache) && 0 <= j < |all| :: a as object != all[j];
    SeparateArrays(v.cache, linearized, t.seen);
    var calls, entry, state := PopCall(g.m, h, all, linearized, v.calls, path, front, x, v.state);
    assert CacheHolds(v.cache, linearized, t.seen);
    ConsistentParts(g.m, h, all, linearized, calls, front, state);
    ghost var q := Resumed(g.m, h, all, path, front, x, p, |h| / 2, t.seen, v.longest, computePartial);
    v' := Vars(entry.next, state, calls, v.cache, longest);
    t' := Trace(front, q, t.seen);
    PopTurns(|t.seen|, |path|, p, q, |h|);
  }

  /** Decides whether a complete history is linearizable. `kill(t)` is what the t-th look at the
      shared kill flag returns: the search looks once in every turn of its loop, and the first look
      that finds the flag set is its last, after which it answers false. Beside the answer this tells
      how often the search has looked, and which configurations it has entered: each at most once, and
      at most one between two looks, so that they bound the turns from both sides. */
  method CheckSingle<S(!new), V(0, !new)>(m: Model<S, V>, history: seq<Entry<V>>, computePartial: bool,
          kill: nat -> bool)
    returns (ok: bool, longest: Partials, ghost looks: nat, ghost entered: seq<Config<S>>)
    requires WellFormed(history)
    ensures |longest| == |history| / 2 && RecordsAreLegal(m, history, longest)
    ensures ok ==> Linearizable(m, history)
    ensures ok ==> forall i | 0 <= i < |longest| ::
                     longest[i].Some? && IsLinearization(m, history, longest[i].value)
    ensures ok ==> forall i, j | 0 <= i < j < |longest| :: longest[i] == longest[j]
    ensures !ok && EqualSimulates(m) ==> !Linearizable(m, history) || (looks > 0 && kill(looks - 1))
    ensures !ok && EqualSimulates(m) && computePartial ==>
              Optimal(m, history, longest) || (looks > 0 && kill(looks - 1))
    ensures !ok && !computePartial ==> forall i | 0 <= i < |longest| :: longest[i].None?
    ensures EnteredOnce(m, history, entered)
    ensures |entered| <= looks <= 2 * |entered| * (|history| + 1) + |history| + 1
    ensures forall t: nat | t + 1 < looks :: !kill(t)
    ensures ok ==> forall t: nat | t < looks :: !kill(t)
    ensures (history != [] ==> looks > 0) && (ok ==> looks >= |history| / 2)
  {
    hide *;
    var entry, headEntry, n, all := BuildList(history);
    var linearized := Bitset.NewBitset(n);
    var v: Vars<S, V> := Vars(entry, m.init, [], map[], seq(n, _ => None));
    ghost var g := Setting(m, history, computePartial, all, linearized);
    ghost var t: Trace<S> := Trace([], 0, []);
    FirstValid(g, v, t);
    NothingEntered(g, t);
    var loads := 0;
    while headEntry.next != null
      invariant forall k | 0 <= k < |all| :: fresh(all[k])
      invariant fresh(linearized)
      invariant Valid(g, v, t)
      invariant t.p >= 0 && loads <= TurnsAt(g, t) && EnteredOnce(m, history, t.seen)
      invariant |t.path| <= loads && |t.seen| <= loads && forall u: nat | u < loads :: !kill(u)
      decreases Left(g, t)
    {
      LoopFacts(g, v, t);
      TurnsAreBounded(g, t);
      if kill(loads) {
        return false, v.longest, loads + 1, t.seen;
      }
      loads := loads + 1;
      ghost var before := t;
      if v.entry.matching != null {
        v, t := TryCall(m, g, headEntry, linearized, v, t);
      } else if |v.calls| == 0 {
        StuckFacts(g, v, t);
        return false, v.longest, loads, t.seen;
      } else {
        v, t := Backtrack(g, linearized, computePartial, v, t);
      }
      TurnedOnce(g, before, t);
    }
    // the longest linearization is the complete one, which is on the stack
    ValidParts(g, v, t);
    TurnsAreBounded(g, t);
    DoneFacts(m, history, all, linearized, v.calls, t.path, v.state);
    var complete := StackIds(v.calls);
    assert complete == t.path;
    longest := seq(n, _ => Some(complete));
    AllComplete(m, history, complete, longest);
    ok, looks, entered := true, loads, t.seen;
  }

  lemma NothingEntered<S, V>(g: Setting<S, V>, t: Trace<S>)
    requires WellFormed(g.history) && t == Trace([], 0, [])
    ensures Complete(g.history) && TurnsAt(g, t) == 0 && EnteredOnce(g.m, g.history, t.seen)
  {
  }

  lemma TurnsAreBounded<S, V>(g: Setting<S, V>, t: Trace<S>)
    requires 0 <= t.p <= |g.history|
    ensures TurnsAt(g, t) <= 2 * |t.seen| * (|g.history| + 1) + |g.history|
  {
    hide Turns;
    TurnsBound(|t.seen|, |t.path|, t.p, |g.history|);
  }

  lemma TurnedOnce<S, V>(g: Setting<S, V>, t: Trace<S>, t': Trace<S>)
    requires Complete(g.history) && Turned(g, t, t') && EnteredOnce(g.m, g.history, t.seen)
    ensures t.p >= 0 && t'.p >= 0 && TurnsAt(g, t) < TurnsAt(g, t') && EnteredOnce(g.m, g.history, t'.seen)
    ensures |t'.path| <= |t.path| + 1 && |t'.seen| <= |t.seen| + 1
  {
  }
}
