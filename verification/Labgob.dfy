/** The walk that complains about lower-case fields: depth first over possibly recursive types, with
    one set of already checked types that lives as long as the program. */
module Labgob {

  type TypeId = nat

  datatype Field = Field(name: string, typ: TypeId)

  datatype Type =
    | Struct(fields: seq<Field>)
    | Sequence(elem: TypeId)  // a slice, an array or a pointer
    | Map(elem: TypeId, key: TypeId)
    | Basic

  type Types = map<TypeId, Type>

  function Successors(t: Type): set<TypeId>
  {
    match t
    case Struct(fields) => set i | 0 <= i < |fields| :: fields[i].typ
    case Sequence(elem) => {elem}
    case Map(elem, key) => {elem, key}
    case Basic => {}
  }

  /** Every type that a type mentions is known. */
  ghost predicate WellTyped(types: Types)
  {
    forall t | t in types :: Successors(types[t]) <= types.Keys
  }

  ghost predicate Closed(types: Types, s: set<TypeId>)
    requires s <= types.Keys
  {
    forall t | t in s :: Successors(types[t]) <= s
  }

  /** Each type on the path mentions the next one. */
  ghost predicate IsPath(types: Types, path: seq<TypeId>)
  {
    && path != [] && (forall i | 0 <= i < |path| :: path[i] in types)
    && forall i | 0 <= i < |path| - 1 :: path[i + 1] in Successors(types[path[i]])
  }

  ghost predicate Reachable(types: Types, t: TypeId, u: TypeId)
  {
    exists path :: IsPath(types, path) && path[0] == t && path[|path| - 1] == u
  }

  ghost function ReachableFrom(types: Types, t: TypeId): set<TypeId>
  {
    set u | u in types && Reachable(types, t, u)
  }

  lemma ReachesItself(types: Types, t: TypeId)
    requires t in types
    ensures Reachable(types, t, t)
  {
    assert IsPath(types, [t]);
    assert [t][|[t]| - 1] == t;
  }

  lemma ReachesFurther(types: Types, t: TypeId, next: TypeId, u: TypeId)
    requires t in types && next in Successors(types[t]) && Reachable(types, next, u)
    ensures Reachable(types, t, u)
  {
    var path :| IsPath(types, path) && path[0] == next && path[|path| - 1] == u;
    assert IsPath(types, [t] + path);
    assert ([t] + path)[|[t] + path| - 1] == u;
  }

  /** A closed set contains whatever its members reach. */
  lemma {:induction false} ClosedHoldsPaths(types: Types, s: set<TypeId>, path: seq<TypeId>)
    requires s <= types.Keys && Closed(types, s) && IsPath(types, path) && path[0] in s
    ensures path[|path| - 1] in s
  {
    if |path| > 1 {
      ClosedHoldsPaths(types, s, path[1..]);
    }
  }

  lemma ClosedHoldsReachable(types: Types, s: set<TypeId>, t: TypeId)
    requires s <= types.Keys && Closed(types, s) && t in s
    ensures ReachableFrom(types, t) <= s
  {
    forall u | u in ReachableFrom(types, t)
      ensures u in s
    {
      var path :| IsPath(types, path) && path[0] == t && path[|path| - 1] == u;
      ClosedHoldsPaths(types, s, path);
    }
  }

  // ----- counting complaints -----

  /** A name starts with an upper-case letter; an empty name does not. */
  predicate Exported(isUpper: char -> bool, name: string)
  {
    name != "" && isUpper(name[0])
  }

  function LowerFields(isUpper: char -> bool, fields: seq<Field>): nat
  {
    if fields == [] then 0
    else LowerFields(isUpper, fields[..|fields| - 1]) + if Exported(isUpper, fields[|fields| - 1].name) then 0 else 1
  }

  function Complaints(isUpper: char -> bool, t: Type): nat
  {
    if t.Struct? then LowerFields(isUpper, t.fields) else 0
  }

  /** The complaints about all types of a set. */
  ghost function TotalComplaints(types: Types, isUpper: char -> bool, s: set<TypeId>): nat
    requires s <= types.Keys
  {
    if s == {} then 0
    else var t :| t in s; Complaints(isUpper, types[t]) + TotalComplaints(types, isUpper, s - {t})
  }

  lemma {:induction false} TotalWithout(types: Types, isUpper: char -> bool, s: set<TypeId>, t: TypeId)
    requires s <= types.Keys && t in s
    ensures TotalComplaints(types, isUpper, s) == Complaints(isUpper, types[t]) + TotalComplaints(types, isUpper,
            s - {t})
  {
    var u :| u in s && TotalComplaints(types, isUpper, s) == Complaints(isUpper, types[u]) + TotalComplaints(types,
        isUpper, s - {u});
    if u != t {
      TotalWithout(types, isUpper, s - {u}, t);
      TotalWithout(types, isUpper, s - {t}, u);
      assert s - {u} - {t} == s - {t} - {u};
    }
  }

  lemma {:induction false} TotalOfUnion(types: Types, isUpper: char -> bool, a: set<TypeId>, b: set<TypeId>)
    requires a <= types.Keys && b <= types.Keys && a !! b
    ensures TotalComplaints(types, isUpper, a + b) == TotalComplaints(types, isUpper, a) + TotalComplaints(types,
            isUpper, b)
  {
    if a == {} {
      assert a + b == b;
    } else {
      var t :| t in a;
      TotalOfUnion(types, isUpper, a - {t}, b);
      TotalWithout(types, isUpper, a, t);
      TotalWithout(types, isUpper, a + b, t);
      assert a + b - {t} == (a - {t}) + b;
    }
  }

  /** What was added first and what was added then, counted together. */
  lemma TotalOfSteps(types: Types, isUpper: char -> bool, was: set<TypeId>, mid: set<TypeId>, now: set<TypeId>)
    requires was <= mid <= now <= types.Keys
    ensures TotalComplaints(types, isUpper, now - was)
         == TotalComplaints(types, isUpper, mid - was) + TotalComplaints(types, isUpper, now - mid)
  {
    TotalOfUnion(types, isUpper, mid - was, now - mid);
    assert now - was == (mid - was) + (now - mid);
  }

  // ----- the same, counted field by field -----

  /** The fields of structs in the set whose names do not start with an upper-case letter. */
  ghost function LowerCaseFields(types: Types, isUpper: char -> bool, s: set<TypeId>): set<(TypeId, nat)>
    requires s <= types.Keys
  {
    set u: TypeId, i: nat | u in s && types[u].Struct? && i < |types[u].fields|
               && (types[u].fields[i].name == "" || !isUpper(types[u].fields[i].name[0])) :: (u, i)
  }

  ghost function LowerUpTo(isUpper: char -> bool, fields: seq<Field>, n: nat): set<nat>
    requires n <= |fields|
  {
    set i: nat | i < n && !Exported(isUpper, fields[i].name)
  }

  lemma {:induction false} LowerFieldsCount(isUpper: char -> bool, fields: seq<Field>)
    ensures LowerFields(isUpper, fields) == |LowerUpTo(isUpper, fields, |fields|)|
  {
    hide Exported;
    if fields == [] {
      assert LowerUpTo(isUpper, fields, 0) == {};
    } else {
      var n := |fields| - 1;
      LowerFieldsCount(isUpper, fields[..n]);
      LowerNext(isUpper, fields, n);
    }
  }

  lemma LowerNext(isUpper: char -> bool, fields: seq<Field>, n: nat)
    requires n < |fields|
    ensures n !in LowerUpTo(isUpper, fields, n) && LowerUpTo(isUpper, fields[..n], n) == LowerUpTo(isUpper, fields, n)
    ensures LowerUpTo(isUpper, fields, n + 1)
         == LowerUpTo(isUpper, fields, n) + if Exported(isUpper, fields[n].name) then {} else {n}
  {
    hide Exported;
    assert forall i | 0 <= i < n :: fields[..n][i] == fields[i];
  }

  ghost function PairedWith(t: TypeId, s: set<nat>): set<(TypeId, nat)>
  {
    set i: nat | i in s :: (t, i)
  }

  lemma {:induction false} PairsCount(t: TypeId, s: set<nat>)
    ensures |PairedWith(t, s)| == |s|
  {
    if x: nat :| x in s {
      PairsCount(t, s - {x});
      assert PairedWith(t, s) == PairedWith(t, s - {x}) + {(t, x)};
    } else {
      assert s == {} && PairedWith(t, s) == {};
    }
  }

  /** The lower-case fields of one type. */
  ghost function OwnFields(isUpper: char -> bool, t: Type): set<nat>
  {
    if t.Struct? then LowerUpTo(isUpper, t.fields, |t.fields|) else {}
  }

  lemma FieldsWithout(types: Types, isUpper: char -> bool, s: set<TypeId>, t: TypeId)
    requires s <= types.Keys && t in s
    ensures LowerCaseFields(types, isUpper, s)
         == LowerCaseFields(types, isUpper, s - {t}) + PairedWith(t, OwnFields(isUpper, types[t]))
    ensures LowerCaseFields(types, isUpper, s - {t}) !! PairedWith(t, OwnFields(isUpper, types[t]))
  {
  }

  /** Each complaint is about one lower-case field. */
  lemma {:induction false} TotalIsLowerCaseFields(types: Types, isUpper: char -> bool, s: set<TypeId>)
    requires s <= types.Keys
    ensures TotalComplaints(types, isUpper, s) == |LowerCaseFields(types, isUpper, s)|
  {
    if t: TypeId :| t in s {
      TotalWithout(types, isUpper, s, t);
      TotalIsLowerCaseFields(types, isUpper, s - {t});
      PairsCount(t, OwnFields(isUpper, types[t]));
      FieldsWithout(types, isUpper, s, t);
      ComplaintsAreFields(isUpper, types[t]);
    } else {
      assert s == {};
      assert LowerCaseFields(types, isUpper, s) == {};
    }
  }

  lemma ComplaintsAreFields(isUpper: char -> bool, t: Type)
    ensures Complaints(isUpper, t) == |OwnFields(isUpper, t)|
  {
    if t.Struct? {
      LowerFieldsCount(isUpper, t.fields);
    }
  }

  // ----- the walk -----

  /** What a walk from `t` adds to the set `was`: only types that `t` reaches, each of them together
      with all types that it mentions, except that the fields of `t` may still be missing. */
  ghost predicate Walked(types: Types, was: set<TypeId>, now: set<TypeId>, t: TypeId)
    requires now <= types.Keys
  {
    && was <= now
    && (forall u | u in now - was :: Reachable(types, t, u))
    && (forall u | u in now - was - {t} :: Successors(types[u]) <= now)
  }

  lemma WalkedFurther(types: Types, was: set<TypeId>, mid: set<TypeId>, now: set<TypeId>, t: TypeId, next: TypeId)
    requires t in types && next in Successors(types[t]) && mid <= now <= types.Keys && t in mid
    requires Walked(types, was, mid, t) && Walked(types, mid, now, next)
    requires next !in mid ==> next in types && Successors(types[next]) <= now
    ensures Walked(types, was, now, t)
  {
    forall u | u in now - was
      ensures Reachable(types, t, u)
    {
      if u !in mid {
        ReachesFurther(types, t, next, u);
      }
    }
  }

  /** All that the types of `s` mention is in `now`: the fields of a struct, the elements of a
      sequence, the elements and the keys of a map. */
  ghost predicate MentionedIn(types: Types, s: set<TypeId>, now: set<TypeId>)
    requires s <= types.Keys
  {
    forall u | u in s ::
      && (types[u].Struct? ==> forall i | 0 <= i < |types[u].fields| :: types[u].fields[i].typ in now)
      && (types[u].Sequence? ==> types[u].elem in now)
      && (types[u].Map? ==> types[u].elem in now && types[u].key in now)
  }

  lemma SuccessorsAreMentioned(types: Types, s: set<TypeId>, now: set<TypeId>)
    requires s <= types.Keys
    ensures MentionedIn(types, s, now) <==> forall u | u in s :: Successors(types[u]) <= now
  {
  }

  /** A walk that finds its type checked already adds nothing. */
  lemma NothingWalked(types: Types, isUpper: char -> bool, was: set<TypeId>, t: TypeId)
    requires was <= types.Keys
    ensures Walked(types, was, was, t) && was - was == {} && TotalComplaints(types, isUpper, {}) == 0
    ensures MentionedIn(types, {}, was) && LowerCaseFields(types, isUpper, {}) == {}
  {
  }

  lemma EntryWalked(types: Types, isUpper: char -> bool, was: set<TypeId>, t: TypeId)
    requires t in types && t !in was && was <= types.Keys
    ensures Walked(types, was, was + {t}, t)
    ensures TotalComplaints(types, isUpper, (was + {t}) - (was + {t})) == 0
  {
    ReachesItself(types, t);
    assert was + {t} - was == {t} && (was + {t}) - (was + {t}) == {};
  }

  /** When everything that `t` mentions has been walked, too. */
  lemma WalkDone(types: Types, isUpper: char -> bool, was: set<TypeId>, now: set<TypeId>, t: TypeId)
    requires t in types && t !in was && t in now && now <= types.Keys
    requires Walked(types, was, now, t) && Successors(types[t]) <= now
    ensures MentionedIn(types, now - was, now)
    ensures TotalComplaints(types, isUpper, now - was)
         == Complaints(isUpper, types[t]) + TotalComplaints(types, isUpper, now - (was + {t}))
    ensures TotalComplaints(types, isUpper, now - was) == |LowerCaseFields(types, isUpper, now - was)|
  {
    hide Reachable;
    TotalWithout(types, isUpper, now - was, t);
    assert now - was - {t} == now - (was + {t});
    TotalIsLowerCaseFields(types, isUpper, now - was);
    SuccessorsAreMentioned(types, now - was, now);
  }

  class Checker {
    const types: Types
    const isUpper: char -> bool
    var checked: set<TypeId>
    var errorCount: nat

    constructor (types: Types, isUpper: char -> bool)
      ensures this.types == types && this.isUpper == isUpper && checked == {} && errorCount == 0
    {
      this.types, this.isUpper, checked, errorCount := types, isUpper, {}, 0;
    }

    /** Whatever was checked before, this adds only reachable types and leaves no added type with an
        unchecked successor; each added type is complained about once. */
    method CheckType(t: TypeId)
      requires WellTyped(types) && t in types && checked <= types.Keys
      modifies this
      ensures old(checked) <= checked <= types.Keys && t in checked
      ensures Walked(types, old(checked), checked, t)
      ensures t !in old(checked) ==> Successors(types[t]) <= checked
      ensures MentionedIn(types, checked - old(checked), checked)
      ensures errorCount == old(errorCount) + TotalComplaints(types, isUpper, checked - old(checked))
      ensures errorCount == old(errorCount) + |LowerCaseFields(types, isUpper, checked - old(checked))|
      decreases types.Keys - checked
    {
      hide Walked, TotalComplaints, LowerCaseFields, MentionedIn;
      if t in checked {
        NothingWalked(types, isUpper, checked, t);
        return;
      }
      ghost var was := checked;
      EntryWalked(types, isUpper, was, t);
      checked := checked + {t};
      ghost var entered := checked;
      match types[t] {
        case Struct(fields) =>
          for i := 0 to |fields|
            invariant entered <= checked <= types.Keys && Walked(types, was, checked, t)
            invariant forall j | 0 <= j < i :: fields[j].typ in checked
            invariant errorCount == old(errorCount) + LowerFields(isUpper, fields[..i]) + TotalComplaints(types,
                      isUpper, checked - entered)
          {
            var f := fields[i];
            assert fields[..i + 1][..i] == fields[..i];
            if !Exported(isUpper, f.name) {
              errorCount := errorCount + 1;
            }
            ghost var mid := checked;
            CheckType(f.typ);
            WalkedFurther(types, was, mid, checked, t, f.typ);
            TotalOfSteps(types, isUpper, entered, mid, checked);
          }
          assert fields[..|fields|] == fields;
        case Sequence(elem) =>
          CheckType(elem);
          WalkedFurther(types, was, entered, checked, t, elem);
        case Map(elem, key) =>
          CheckType(elem);
          ghost var mid := checked;
          WalkedFurther(types, was, entered, mid, t, elem);
          CheckType(key);
          WalkedFurther(types, was, mid, checked, t, key);
          TotalOfSteps(types, isUpper, entered, mid, checked);
        case Basic =>
      }
      WalkDone(types, isUpper, was, checked, t);
    }

    /** Between calls the checked set is closed: then a call adds exactly the types that the value's
        type reaches, and complains exactly about the lower-case fields of those that are new. */
    method CheckValue(t: TypeId)
      requires WellTyped(types) && t in types && checked <= types.Keys && Closed(types, checked)
      modifies this
      ensures checked == old(checked) + ReachableFrom(types, t) && Closed(types, checked)
      ensures errorCount == old(errorCount) + TotalComplaints(types, isUpper, ReachableFrom(types, t) - old(checked))
      ensures forall u | u in checked - old(checked) ::
                && (types[u].Struct? ==> forall i | 0 <= i < |types[u].fields| :: types[u].fields[i].typ in checked)
                && (types[u].Sequence? ==> types[u].elem in checked)
                && (types[u].Map? ==> types[u].elem in checked && types[u].key in checked)
      ensures errorCount == old(errorCount)
              + |set u: TypeId, i: nat | u in checked - old(checked) && types[u].Struct? && i < |types[u].fields|
                            && (types[u].fields[i].name == "" || !isUpper(types[u].fields[i].name[0])) :: (u, i)|
    {
      hide Reachable, Successors;
      CheckType(t);
      ClosedHoldsReachable(types, checked, t);
      assert checked - old(checked) == ReachableFrom(types, t) - old(checked);
      assert LowerCaseFields(types, isUpper, checked - old(checked))
          == set u: TypeId, i: nat | u in checked - old(checked) && types[u].Struct? && i < |types[u].fields|
                        && (types[u].fields[i].name == "" || !isUpper(types[u].fields[i].name[0])) :: (u, i);
    }
  }

  /** Everything reachable from one of the roots. */
  ghost function ReachableFromAll(types: Types, roots: seq<TypeId>): set<TypeId>
  {
    if roots == [] then {} else ReachableFromAll(types, roots[..|roots| - 1]) + ReachableFrom(types, roots[|roots| - 1])
  }

  lemma {:induction false} ReachableFromAllClosed(types: Types, roots: seq<TypeId>)
    requires WellTyped(types)
    ensures ReachableFromAll(types, roots) <= types.Keys && Closed(types, ReachableFromAll(types, roots))
  {
    if roots != [] {
      ReachableFromAllClosed(types, roots[..|roots| - 1]);
      forall u | u in ReachableFrom(types, roots[|roots| - 1])
        ensures Successors(types[u]) <= ReachableFrom(types, roots[|roots| - 1])
      {
        forall v | v in Successors(types[u])
          ensures Reachable(types, roots[|roots| - 1], v)
        {
          ReachesBeyond(types, roots[|roots| - 1], u, v);
        }
      }
    }
  }

  lemma ReachesBeyond(types: Types, t: TypeId, u: TypeId, v: TypeId)
    requires u in types && v in types && Reachable(types, t, u) && v in Successors(types[u])
    ensures Reachable(types, t, v)
  {
    var path :| IsPath(types, path) && path[0] == t && path[|path| - 1] == u;
    assert IsPath(types, path + [v]);
    assert (path + [v])[|path + [v]| - 1] == v;
  }

  /** Over any sequence of calls since the start, every type that some call reaches has been complained
      about exactly once, whatever the order of the calls. */
  lemma {:induction false} EachTypeOnce(types: Types, isUpper: char -> bool, roots: seq<TypeId>,
          checked: seq<set<TypeId>>, counts: seq<nat>)
    requires WellTyped(types) && (forall t | t in roots :: t in types)
    requires |checked| == |counts| == |roots| + 1 && checked[0] == {} && counts[0] == 0
    requires forall i | 0 <= i < |roots| :: checked[i + 1] == checked[i] + ReachableFrom(types, roots[i])
    requires forall i | 0 <= i < |roots| ::
               counts[i + 1] == counts[i] + TotalComplaints(types, isUpper, ReachableFrom(types, roots[i]) - checked[i])
    ensures checked[|roots|] == ReachableFromAll(types, roots) <= types.Keys
    ensures counts[|roots|] == TotalComplaints(types, isUpper, ReachableFromAll(types, roots))
  {
    if roots != [] {
      var n := |roots| - 1;
      EachTypeOnce(types, isUpper, roots[..n], checked[..n + 1], counts[..n + 1]);
      var added := ReachableFrom(types, roots[n]) - checked[n];
      TotalOfUnion(types, isUpper, checked[n], added);
      assert checked[n + 1] == checked[n] + added;
    }
  }

  /** So every complaint is about another field: together, one for each lower-case field of a struct
      that some call reaches. */
  lemma EachFieldOnce(types: Types, isUpper: char -> bool, roots: seq<TypeId>, checked: seq<set<TypeId>>,
          counts: seq<nat>)
    requires WellTyped(types) && (forall t | t in roots :: t in types)
    requires |checked| == |counts| == |roots| + 1 && checked[0] == {} && counts[0] == 0
    requires forall i | 0 <= i < |roots| :: checked[i + 1] == checked[i] + ReachableFrom(types, roots[i])
    requires forall i | 0 <= i < |roots| ::
               counts[i + 1] == counts[i] + TotalComplaints(types, isUpper, ReachableFrom(types, roots[i]) - checked[i])
    ensures ReachableFromAll(types, roots) <= types.Keys
    ensures counts[|roots|] == |LowerCaseFields(types, isUpper, ReachableFromAll(types, roots))|
  {
    hide ReachableFromAll, ReachableFrom, LowerCaseFields, TotalComplaints;
    EachTypeOnce(types, isUpper, roots, checked, counts);
    TotalIsLowerCaseFields(types, isUpper, ReachableFromAll(types, roots));
  }
}
