/** Histories given as call and return events with arbitrary ids, and their translation into entries. */
module Events {
  import opened Linearizability

  datatype Event<V> = Event(clientId: int, kind: Kind, value: V, id: int)

  function EventIds<V>(events: seq<Event<V>>): set<int>
  {
    set i | 0 <= i < |events| :: events[i].id
  }

  ghost predicate Injective(f: map<int, int>)
  {
    forall x, y | x in f && y in f && f[x] == f[y] :: x == y
  }

  function Image(f: map<int, int>): set<int>
  {
    set x | x in f :: f[x]
  }

  /** The names in use are 0, 1, ..., |f| - 1, each for one id. */
  ghost predicate Numbering(f: map<int, int>)
  {
    Injective(f) && forall y :: y in Image(f) <==> 0 <= y < |f|
  }

  lemma NumberNext(f: map<int, int>, x: int)
    requires Numbering(f) && x !in f
    ensures Numbering(f[x := |f|])
  {
    hide Image;
    ImageNext(f, x, |f|);
    InjectiveNext(f, x, |f|);
    assert f[x := |f|].Keys == f.Keys + {x};
    assert |f[x := |f|]| == |f| + 1;
  }

  lemma InjectiveNext(f: map<int, int>, x: int, v: int)
    requires Injective(f) && x !in f && v !in Image(f)
    ensures Injective(f[x := v])
  {
    forall k | k in f
      ensures f[k] != v
    {
      assert f[k] in Image(f);
    }
  }

  lemma ImageNext(f: map<int, int>, x: int, v: int)
    requires x !in f
    ensures Image(f[x := v]) == Image(f) + {v}
  {
    var g := f[x := v];
    assert g[x] in Image(g);
    forall k | k in f
      ensures f[k] in Image(g)
    {
      assert k in g && g[k] == f[k];
    }
  }

  /** An id that is new at position j is named by the number of ids before it. */
  ghost predicate InOrderOfAppearance<V>(events: seq<Event<V>>, upTo: nat, names: map<int, int>)
    requires upTo <= |events|
  {
    forall j | 0 <= j < upTo && events[j].id !in EventIds(events[..j]) ::
      events[j].id in names && names[events[j].id] == |EventIds(events[..j])|
  }

  /** The events so far, with their new names. */
  ghost predicate RenamedEvents<V>(events: seq<Event<V>>, e: seq<Event<V>>, names: map<int, int>)
    requires |e| <= |events|
  {
    forall j | 0 <= j < |e| :: events[j].id in names && e[j] == events[j].(id := names[events[j].id])
  }

  /** One more event: its id has a name already, or gets the next one. */
  lemma NextEvent<V>(events: seq<Event<V>>, e: seq<Event<V>>, v: Event<V>, m: map<int, int>, m': map<int, int>)
    requires |e| < |events| && m.Keys == EventIds(events[..|e|]) && Numbering(m)
    requires RenamedEvents(events, e, m) && InOrderOfAppearance(events, |e|, m)
    requires m' == if events[|e|].id in m then m else m[events[|e|].id := |m|]
    requires v == events[|e|].(id := m'[events[|e|].id])
    ensures m'.Keys == EventIds(events[..|e| + 1]) && Numbering(m') && InOrderOfAppearance(events, |e| + 1, m')
    ensures RenamedEvents(events, e + [v], m')
  {
    hide EventIds, Numbering, InOrderOfAppearance, RenamedEvents;
    NextKeys(events, |e|, m, m');
    NextAppears(events, |e|, m, m');
    NextRenamed(events, e, v, m, m');
    if events[|e|].id !in m {
      NumberNext(m, events[|e|].id);
    }
  }

  lemma NextKeys<V>(events: seq<Event<V>>, i: nat, m: map<int, int>, m': map<int, int>)
    requires i < |events| && m.Keys == EventIds(events[..i])
    requires m' == if events[i].id in m then m else m[events[i].id := |m|]
    ensures m'.Keys == EventIds(events[..i + 1])
  {
    hide EventIds;
    EventIdsSnoc(events, i);
    assert m'.Keys == m.Keys + {events[i].id};
  }

  lemma NextAppears<V>(events: seq<Event<V>>, i: nat, m: map<int, int>, m': map<int, int>)
    requires i < |events| && m.Keys == EventIds(events[..i]) && InOrderOfAppearance(events, i, m)
    requires m' == if events[i].id in m then m else m[events[i].id := |m|]
    ensures InOrderOfAppearance(events, i + 1, m')
  {
    hide EventIds;
    assert |m| == |m.Keys|;
  }

  lemma NextRenamed<V>(events: seq<Event<V>>, e: seq<Event<V>>, v: Event<V>, m: map<int, int>, m': map<int, int>)
    requires |e| < |events| && RenamedEvents(events, e, m)
    requires m' == if events[|e|].id in m then m else m[events[|e|].id := |m|]
    requires v == events[|e|].(id := m'[events[|e|].id])
    ensures RenamedEvents(events, e + [v], m')
  {
  }

  /** Renames the ids to 0, 1, 2, ... in the order in which they first appear. */
  method Renumber<V>(events: seq<Event<V>>) returns (e: seq<Event<V>>, ghost names: map<int, int>)
    ensures |e| == |events| && names.Keys == EventIds(events) && Numbering(names)
    ensures forall i | 0 <= i < |events| :: e[i] == events[i].(id := names[events[i].id])
    ensures InOrderOfAppearance(events, |events|, names)
  {
    hide EventIds, Numbering, InOrderOfAppearance;
    e := [];
    var m: map<int, int> := map[];
    var id := 0;
    NoEvents(events);
    for i := 0 to |events|
      invariant |e| == i && m.Keys == EventIds(events[..i]) && id == |m| && Numbering(m)
      invariant RenamedEvents(events, e, m) && InOrderOfAppearance(events, i, m)
    {
      hide RenamedEvents;
      var v := events[i];
      if v.id in m {
        NextEvent(events, e, Event(v.clientId, v.kind, v.value, m[v.id]), m, m);
        e := e + [Event(v.clientId, v.kind, v.value, m[v.id])];
      } else {
        NextEvent(events, e, Event(v.clientId, v.kind, v.value, id), m, m[v.id := id]);
        e := e + [Event(v.clientId, v.kind, v.value, id)];
        m := m[v.id := id];
        id := id + 1;
      }
    }
    assert events[..|events|] == events;
    names := m;
  }

  lemma NoEvents<V>(events: seq<Event<V>>)
    ensures EventIds(events[..0]) == {} && Numbering(map[]) && InOrderOfAppearance(events, 0, map[])
  {
  }

  lemma EventIdsSnoc<V>(events: seq<Event<V>>, i: nat)
    requires i < |events|
    ensures EventIds(events[..i + 1]) == EventIds(events[..i]) + {events[i].id}
  {
    forall x
      ensures x in EventIds(events[..i + 1]) <==> x in EventIds(events[..i]) + {events[i].id}
    {
      if x in EventIds(events[..i + 1]) {
        var j :| 0 <= j < i + 1 && events[..i + 1][j].id == x;
        if j < i {
          assert events[..i][j].id == x;
        }
      }
      if x in EventIds(events[..i]) {
        var j :| 0 <= j < i && events[..i][j].id == x;
        assert events[..i + 1][j].id == x;
      }
      assert events[..i + 1][i] == events[i];
    }
  }

  /** One entry for each event, with the index as its time. */
  function EntriesFor<V>(events: seq<Event<V>>): (h: seq<Entry<V>>)
    ensures |h| == |events|
    ensures forall i | 0 <= i < |events| :: h[i] == Entry(events[i].kind, events[i].value, events[i].id, i,
            events[i].clientId)
  {
    seq(|events|, i requires 0 <= i < |events| => Entry(events[i].kind, events[i].value, events[i].id, i,
        events[i].clientId))
  }

  method ConvertEntries<V>(events: seq<Event<V>>) returns (entries: seq<Entry<V>>)
    ensures entries == EntriesFor(events)
  {
    entries := [];
    for i := 0 to |events|
      invariant entries == EntriesFor(events)[..i]
    {
      var elem := events[i];
      var kind := Call;
      if elem.kind == Return {
        kind := Return;
      }
      entries := entries + [Entry(kind, elem.value, elem.id, i, elem.clientId)];
    }
  }

  // ----- renaming ids -----

  /** `h'` is `h` with the ids renamed by the injective map `f`. */
  ghost predicate RenamedBy<V>(h: seq<Entry<V>>, h': seq<Entry<V>>, f: map<int, int>)
  {
    && Injective(f) && Ids(h) <= f.Keys && |h'| == |h|
    && forall p | 0 <= p < |h| :: h[p].id in f && h'[p] == h[p].(id := f[h[p].id])
  }

  lemma {:induction false} RenamedFind<V>(h: seq<Entry<V>>, h': seq<Entry<V>>, f: map<int, int>, kind: Kind, x: int,
          from: nat)
    requires RenamedBy(h, h', f) && x in f && from <= |h|
    ensures Find(h', kind, f[x], from) == Find(h, kind, x, from)
    decreases |h| - from
  {
    if from < |h| {
      RenamedFind(h, h', f, kind, x, from + 1);
    }
  }

  lemma RenamedComplete<V>(h: seq<Entry<V>>, h': seq<Entry<V>>, f: map<int, int>)
    requires RenamedBy(h, h', f) && Complete(h)
    ensures Complete(h')
    ensures Ids(h') == set x | x in Ids(h) :: f[x]
  {
    forall p | 0 <= p < |h|
      ensures CallPos(h', h'[p].id) < |h'| && RetPos(h', h'[p].id) < |h'|
    {
      RenamedFind(h, h', f, Call, h[p].id, 0);
      RenamedFind(h, h', f, Return, h[p].id, 0);
    }
    forall p, q | 0 <= p < q < |h| && h'[p].id == h'[q].id
      ensures h[p].id == h[q].id
    {
      assert h[p].id in Ids(h) && h[q].id in Ids(h);
    }
    RenamedIds(h, h', f);
  }

  lemma RenamedIds<V>(h: seq<Entry<V>>, h': seq<Entry<V>>, f: map<int, int>)
    requires RenamedBy(h, h', f)
    ensures Ids(h') == set x | x in Ids(h) :: f[x]
  {
    forall y
      ensures y in Ids(h') <==> y in set x | x in Ids(h) :: f[x]
    {
      if y in Ids(h') {
        var p :| 0 <= p < |h'| && h'[p].id == y;
        assert h[p].id in Ids(h);
      }
      if x :| x in Ids(h) && f[x] == y {
        var p :| 0 <= p < |h| && h[p].id == x;
        assert h'[p].id == y;
      }
    }
  }

  ghost function Rename(f: map<int, int>, c: seq<int>): (d: seq<int>)
    requires forall i | 0 <= i < |c| :: c[i] in f
    ensures |d| == |c| && forall i | 0 <= i < |c| :: d[i] == f[c[i]]
  {
    seq(|c|, i requires 0 <= i < |c| => f[c[i]])
  }

  lemma RenamedStep<S, V>(m: Model<S, V>, h: seq<Entry<V>>, h': seq<Entry<V>>, f: map<int, int>, s: S, x: int)
    requires RenamedBy(h, h', f) && Complete(h) && Complete(h') && x in Ids(h) && x in f
    ensures f[x] in Ids(h') && StepOf(m, h', s, f[x]) == StepOf(m, h, s, x)
  {
    hide Complete;
    RenamedIds(h, h', f);
    RenamedFind(h, h', f, Call, x, 0);
    RenamedFind(h, h', f, Return, x, 0);
    Positions(h, x);
  }

  lemma {:induction false} RenamedRun<S, V>(m: Model<S, V>, h: seq<Entry<V>>, h': seq<Entry<V>>, f: map<int, int>,
          s: S, c: seq<int>)
    requires RenamedBy(h, h', f) && Complete(h) && Complete(h')
    requires forall i | 0 <= i < |c| :: c[i] in Ids(h) && c[i] in f
    ensures Run(m, h', s, Rename(f, c)) == Run(m, h, s, c)
  {
    hide Complete, RenamedBy, StepOf, Ids;
    if c != [] {
      RenamedStep(m, h, h', f, s, c[0]);
      assert Rename(f, c)[1..] == Rename(f, c[1..]);
      RenamedRun(m, h, h', f, StepOf(m, h, s, c[0]).1, c[1..]);
    }
  }

  lemma RenamedLinearizable<S, V>(m: Model<S, V>, h: seq<Entry<V>>, h': seq<Entry<V>>, f: map<int, int>)
    requires RenamedBy(h, h', f) && Complete(h) && Complete(h') && Linearizable(m, h)
    ensures Linearizable(m, h')
  {
    var c: seq<int> :| IsLinearization(m, h, c);
    forall i | 0 <= i < |c|
      ensures c[i] in Ids(h) && c[i] in f
    {
      assert c[i] in Elems(c);
    }
    var d := Rename(f, c);
    RenamedRun(m, h, h', f, m.init, c);
    RenamedComplete(h, h', f);
    RenamedElems(h, f, c, d);
    forall i, j | 0 <= i < j < |d|
      ensures !Precedes(h', d[j], d[i])
    {
      RenamedFind(h, h', f, Return, c[j], 0);
      RenamedFind(h, h', f, Call, c[i], 0);
      assert !Precedes(h, c[j], c[i]);
    }
    assert IsLinearization(m, h', d);
  }

  lemma RenamedElems<V>(h: seq<Entry<V>>, f: map<int, int>, c: seq<int>, d: seq<int>)
    requires Injective(f) && Elems(c) == Ids(h) && NoDuplicates(c)
    requires |d| == |c| && forall i | 0 <= i < |c| :: c[i] in f && d[i] == f[c[i]]
    ensures Elems(d) == (set x | x in Ids(h) && x in f :: f[x]) && NoDuplicates(d)
  {
    forall y
      ensures y in Elems(d) <==> y in set x | x in Ids(h) && x in f :: f[x]
    {
      if y in Elems(d) {
        var i :| 0 <= i < |d| && d[i] == y;
        assert c[i] in Elems(c);
      }
      if x :| x in Ids(h) && x in f && f[x] == y {
        assert x in Elems(c);
        var i :| 0 <= i < |c| && c[i] == x;
        assert d[i] == y;
      }
    }
  }

  ghost function Inverse(f: map<int, int>): (g: map<int, int>)
    requires Injective(f)
    ensures g.Keys == Image(f) && forall x | x in f :: f[x] in g && g[f[x]] == x
    ensures Injective(g)
  {
    map x | x in f :: f[x] := x
  }

  // ----- what renumbering gives -----

  ghost function CalledBefore<V>(h: seq<Entry<V>>, kind: Kind, k: nat): set<int>
    requires k <= |h|
  {
    set p | 0 <= p < k && h[p].kind == kind :: h[p].id
  }

  lemma {:induction false} CompleteCount<V>(h: seq<Entry<V>>, k: nat)
    requires Complete(h) && k <= |h|
    ensures |CalledBefore(h, Call, k)| + |CalledBefore(h, Return, k)| == k
  {
    hide Complete, CalledBefore;
    if k == 0 {
      assert CalledBefore(h, Call, 0) == {} && CalledBefore(h, Return, 0) == {} by {
        CalledNone(h);
      }
    } else {
      CompleteCount(h, k - 1);
      CalledSnoc(h, k - 1);
    }
  }

  lemma CalledNone<V>(h: seq<Entry<V>>)
    ensures CalledBefore(h, Call, 0) == {} && CalledBefore(h, Return, 0) == {}
  {
  }

  lemma CalledSnoc<V>(h: seq<Entry<V>>, k: nat)
    requires Complete(h) && k < |h|
    ensures h[k].id !in CalledBefore(h, h[k].kind, k)
    ensures CalledBefore(h, h[k].kind, k + 1) == CalledBefore(h, h[k].kind, k) + {h[k].id}
    ensures forall kind | kind != h[k].kind :: CalledBefore(h, kind, k + 1) == CalledBefore(h, kind, k)
  {
  }

  /** A complete history has two entries for each id. */
  lemma TwoEntriesEach<V>(h: seq<Entry<V>>)
    requires Complete(h)
    ensures |h| == 2 * |Ids(h)|
  {
    CompleteCount(h, |h|);
    forall x | x in Ids(h)
      ensures x in CalledBefore(h, Call, |h|) && x in CalledBefore(h, Return, |h|)
    {
      Positions(h, x);
      assert h[CallPos(h, x)].kind == Call && h[RetPos(h, x)].kind == Return;
    }
    assert CalledBefore(h, Call, |h|) == Ids(h) && CalledBefore(h, Return, |h|) == Ids(h);
  }

  /** Renumbering a complete event history makes it well formed and leaves linearizability unchanged. */
  lemma RenumberedHistory<S, V>(m: Model<S, V>, events: seq<Event<V>>, e: seq<Event<V>>, names: map<int, int>)
    requires Complete(EntriesFor(events))
    requires |e| == |events| && names.Keys == EventIds(events) && Numbering(names)
    requires forall i | 0 <= i < |events| :: e[i] == events[i].(id := names[events[i].id])
    ensures WellFormed(EntriesFor(e))
    ensures Linearizable(m, EntriesFor(e)) <==> Linearizable(m, EntriesFor(events))
  {
    var h, h' := EntriesFor(events), EntriesFor(e);
    EntryRenaming(events, e, names);
    RenamedComplete(h, h', names);
    RenamedWellFormed(h, h', names);
    if Linearizable(m, h) {
      RenamedLinearizable(m, h, h', names);
    }
    if Linearizable(m, h') {
      RenamedLinearizable(m, h', h, Inverse(names));
    }
  }

  lemma EntryRenaming<V>(events: seq<Event<V>>, e: seq<Event<V>>, names: map<int, int>)
    requires |e| == |events| && names.Keys == EventIds(events) && Injective(names)
    requires forall i | 0 <= i < |events| :: e[i] == events[i].(id := names[events[i].id])
    ensures Ids(EntriesFor(events)) == names.Keys && RenamedBy(EntriesFor(events), EntriesFor(e), names)
    ensures RenamedBy(EntriesFor(e), EntriesFor(events), Inverse(names))
  {
    var h, h' := EntriesFor(events), EntriesFor(e);
    assert Ids(h) == EventIds(events);
    assert RenamedBy(h, h', names);
    RenamedIdsAll(h, h', names);
  }

  lemma RenamedWellFormed<V>(h: seq<Entry<V>>, h': seq<Entry<V>>, names: map<int, int>)
    requires Complete(h') && Ids(h) == names.Keys && RenamedBy(h, h', names) && Numbering(names)
    ensures WellFormed(h')
  {
    hide Complete, RenamedBy, Ids, Image, Numbering;
    RenamedIdsAll(h, h', names);
    TwoEntriesEach(h');
    ImageIsRange(names);
  }

  lemma ImageIsRange(f: map<int, int>)
    requires Numbering(f)
    ensures Image(f) == Range(|f|)
  {
  }

  lemma RenamedIdsAll<V>(h: seq<Entry<V>>, h': seq<Entry<V>>, f: map<int, int>)
    requires RenamedBy(h, h', f) && Ids(h) == f.Keys
    ensures Ids(h') == Image(f)
  {
    hide RenamedBy, Ids;
    RenamedIds(h, h', f);
  }
}
