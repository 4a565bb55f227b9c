/** Which endpoints the test harness enables: connecting, disconnecting and partitioning servers. */
module Connectivity {

  type Name = string

  /** The names of a server's outgoing endpoints, one for each server; missing until it first starts. */
  datatype Row = Nil | Row(names: seq<Name>)

  predicate AllServers(n: nat, servers: seq<int>)
  {
    forall k | 0 <= k < |servers| :: 0 <= servers[k] < n
  }

  /** Disjoint, and every server is in one of them. */
  ghost predicate IsPartition(n: nat, p1: seq<int>, p2: seq<int>)
  {
    && AllServers(n, p1) && AllServers(n, p2)
    && (forall x | 0 <= x < n :: x in p1 || x in p2)
    && forall x | 0 <= x < n :: !(x in p1 && x in p2)
  }

  // ----- endpoints by position -----

  /** Every row that exists has a name for each server, and no name occurs twice. */
  ghost predicate ValidRows(rows: seq<Row>)
  {
    && (forall a | 0 <= a < |rows| && rows[a].Row? :: |rows[a].names| == |rows|)
    && forall a, b, c, d | 0 <= a < |rows| && 0 <= b < |rows| && 0 <= c < |rows| && 0 <= d < |rows|
         && rows[a].Row? && rows[c].Row? && rows[a].names[b] == rows[c].names[d] :: a == c && b == d
  }

  ghost predicate Allocated(rows: seq<Row>)
  {
    ValidRows(rows) && forall a | 0 <= a < |rows| :: rows[a].Row?
  }

  /** The endpoint belongs to a server, not to a client. */
  ghost predicate IsServerEnd(rows: seq<Row>, name: Name)
    requires ValidRows(rows)
  {
    exists a, b :: 0 <= a < |rows| && 0 <= b < |rows| && rows[a].Row? && rows[a].names[b] == name
  }

  ghost predicate Outgoing(rows: seq<Row>, i: nat, servers: seq<int>, upTo: nat, name: Name)
    requires ValidRows(rows) && i < |rows| && AllServers(|rows|, servers) && upTo <= |servers|
  {
    rows[i].Row? && exists k :: 0 <= k < upTo && rows[i].names[servers[k]] == name
  }

  ghost predicate Incoming(rows: seq<Row>, i: nat, servers: seq<int>, upTo: nat, name: Name)
    requires ValidRows(rows) && i < |rows| && AllServers(|rows|, servers) && upTo <= |servers|
  {
    exists k :: 0 <= k < upTo && rows[servers[k]].Row? && rows[servers[k]].names[i] == name
  }

  /** The endpoints between server i and the given servers, in either direction. */
  ghost predicate Between(rows: seq<Row>, i: nat, servers: seq<int>, name: Name)
    requires ValidRows(rows) && i < |rows| && AllServers(|rows|, servers)
  {
    Outgoing(rows, i, servers, |servers|, name) || Incoming(rows, i, servers, |servers|, name)
  }

  /** The incoming endpoints that disconnecting server i clears. The harness looks whether row k
      exists, and then uses row from[k]. */
  ghost predicate CutIncoming(rows: seq<Row>, i: nat, from: seq<int>, upTo: nat, name: Name)
    requires ValidRows(rows) && i < |rows| && AllServers(|rows|, from) && upTo <= |from|
  {
    exists k :: 0 <= k < upTo && k < |rows| && rows[k].Row? && rows[from[k]].Row? && rows[from[k]].names[i] == name
  }

  ghost predicate Cut(rows: seq<Row>, i: nat, from: seq<int>, name: Name)
    requires ValidRows(rows) && i < |rows| && AllServers(|rows|, from)
  {
    Outgoing(rows, i, from, |from|, name) || CutIncoming(rows, i, from, |from|, name)
  }

  /** The test of row k is out of range, or row k exists and row from[k] does not. */
  ghost predicate Panics(rows: seq<Row>, from: seq<int>)
    requires AllServers(|rows|, from)
  {
    |from| > |rows| || exists k :: 0 <= k < |from| && rows[k].Row? && rows[from[k]].Nil?
  }

  ghost predicate LookedAt(rows: seq<Row>, from: seq<int>, x: int)
  {
    exists m :: 0 <= m < |from| && m < |rows| && from[m] == x && rows[m].Row?
  }

  /** Wherever the harness looks at row k it may use row from[k], and no row that it should use is
      missed. */
  ghost predicate GuardsAgree(rows: seq<Row>, i: nat, from: seq<int>)
    requires AllServers(|rows|, from)
  {
    && !Panics(rows, from)
    && forall x | x in from && rows[x].Row? && x != i :: LookedAt(rows, from, x)
  }

  ghost predicate CutsBetween(rows: seq<Row>, i: nat, from: seq<int>)
    requires ValidRows(rows) && i < |rows| && AllServers(|rows|, from)
  {
    forall name :: Cut(rows, i, from, name) <==> Between(rows, i, from, name)
  }

  lemma CutNeedsGuards(rows: seq<Row>, i: nat, from: seq<int>, x: int)
    requires ValidRows(rows) && i < |rows| && AllServers(|rows|, from)
    requires CutsBetween(rows, i, from) && x in from && rows[x].Row? && x != i
    ensures LookedAt(rows, from, x)
  {
    hide CutIncoming;
    var name := rows[x].names[i];
    assert Incoming(rows, i, from, |from|, name);
    assert Cut(rows, i, from, name);
    assert CutIncoming(rows, i, from, |from|, name);
    CutIncomingLooks(rows, i, from, x);
  }

  lemma CutIncomingLooks(rows: seq<Row>, i: nat, from: seq<int>, x: nat)
    requires ValidRows(rows) && i < |rows| && AllServers(|rows|, from)
    requires x < |rows| && rows[x].Row? && CutIncoming(rows, i, from, |from|, rows[x].names[i])
    ensures LookedAt(rows, from, x)
  {
    var m :|
      && 0 <= m < |from| && m < |rows| && rows[m].Row? && rows[from[m]].Row?
      && rows[from[m]].names[i] == rows[x].names[i];
    assert from[m] == x;
  }

  lemma GuardsSuffice(rows: seq<Row>, i: nat, from: seq<int>, name: Name)
    requires ValidRows(rows) && i < |rows| && AllServers(|rows|, from)
    requires GuardsAgree(rows, i, from)
    ensures Cut(rows, i, from, name) <==> Between(rows, i, from, name)
  {
    if k: nat :| k < |from| && rows[from[k]].Row? && rows[from[k]].names[i] == name {
      assert from[k] in from;
      if from[k] == i {
        assert Outgoing(rows, i, from, |from|, name);
      } else {
        assert LookedAt(rows, from, from[k]);
        var m :| 0 <= m < |from| && m < |rows| && from[m] == from[k] && rows[m].Row?;
        assert CutIncoming(rows, i, from, |from|, name);
      }
    }
  }

  /** The look at the wrong row does no harm, so that exactly the endpoints between i and the listed
      servers are cleared, if and only if the guards agree. */
  lemma CutIsBetweenIff(rows: seq<Row>, i: nat, from: seq<int>)
    requires ValidRows(rows) && i < |rows| && AllServers(|rows|, from)
    ensures !Panics(rows, from) && CutsBetween(rows, i, from) <==> GuardsAgree(rows, i, from)
  {
    hide Cut, Between, LookedAt;
    if !Panics(rows, from) && CutsBetween(rows, i, from) {
      forall x | x in from && rows[x].Row? && x != i
        ensures LookedAt(rows, from, x)
      {
        CutNeedsGuards(rows, i, from, x);
      }
    }
    if GuardsAgree(rows, i, from) {
      forall name
        ensures Cut(rows, i, from, name) <==> Between(rows, i, from, name)
      {
        GuardsSuffice(rows, i, from, name);
      }
    }
  }

  /** Server 0 has been started and server 1 has not: disconnecting 0 from 1 panics. */
  lemma MissingRowPanics(a: Name, b: Name)
    requires a != b
    ensures var rows := [Row([a, b]), Nil]; ValidRows(rows) && Panics(rows, [1]) && !GuardsAgree(rows, 0, [1])
  {
    var rows := [Row([a, b]), Nil];
    assert rows[0].Row? && rows[[1][0]].Nil?;
  }

  /** All rows are in place, but the list is longer than there are rows to test. */
  lemma LongListPanics(a: Name, b: Name, c: Name, d: Name)
    requires a !in {b, c, d} && b !in {c, d} && c != d
    ensures var rows := [Row([a, b]), Row([c, d])];
            Allocated(rows) && Panics(rows, [1, 1, 1]) && !GuardsAgree(rows, 0, [1, 1, 1])
  {
  }

  /** Server 1 has been started and server 0 has not: disconnecting 0 from 1 leaves the endpoint from
      1 to 0 as it is. */
  lemma UntestedRowIsMissed(a: Name, b: Name)
    requires a != b
    ensures var rows := [Nil, Row([a, b])];
            && ValidRows(rows) && !Panics(rows, [1]) && !GuardsAgree(rows, 0, [1])
            && Between(rows, 0, [1], a) && !Cut(rows, 0, [1], a)
  {
    var rows := [Nil, Row([a, b])];
    assert rows[[1][0]].Row? && rows[[1][0]].names[0] == a;
    assert Incoming(rows, 0, [1], 1, a);
    assert 1 in [1] && rows[1].Row? && !LookedAt(rows, [1], 1);
  }

  /** So it is for a list that is not too long, if all rows are in place or it is that of all servers. */
  lemma CutIsBetween(rows: seq<Row>, i: nat, from: seq<int>)
    requires ValidRows(rows) && i < |rows| && AllServers(|rows|, from) && |from| <= |rows|
    requires Allocated(rows) || forall k | 0 <= k < |from| :: from[k] == k
    ensures !Panics(rows, from) && CutsBetween(rows, i, from)
  {
    forall x | x in from && rows[x].Row? && x != i
      ensures LookedAt(rows, from, x)
    {
      var m :| 0 <= m < |from| && from[m] == x;
    }
    CutIsBetweenIff(rows, i, from);
  }

  lemma OutgoingNext(rows: seq<Row>, i: nat, servers: seq<int>)
    requires ValidRows(rows) && i < |rows| && AllServers(|rows|, servers)
    ensures forall name :: !Outgoing(rows, i, servers, 0, name)
    ensures forall j: nat, name | j < |servers| :: Outgoing(rows, i, servers, j + 1, name) <==>
              (Outgoing(rows, i, servers, j, name) || (rows[i].Row? && rows[i].names[servers[j]] == name))
  {
  }

  lemma IncomingNext(rows: seq<Row>, i: nat, servers: seq<int>)
    requires ValidRows(rows) && i < |rows| && AllServers(|rows|, servers)
    ensures forall name :: !Incoming(rows, i, servers, 0, name)
    ensures forall j: nat, name | j < |servers| :: Incoming(rows, i, servers, j + 1, name) <==>
              (Incoming(rows, i, servers, j, name) || (rows[servers[j]].Row? && rows[servers[j]].names[i] == name))
  {
  }

  lemma CutIncomingNext(rows: seq<Row>, i: nat, from: seq<int>)
    requires ValidRows(rows) && i < |rows| && AllServers(|rows|, from)
    ensures forall name :: !CutIncoming(rows, i, from, 0, name)
    ensures forall j: nat, name | j < |from| :: CutIncoming(rows, i, from, j + 1, name) <==>
              (CutIncoming(rows, i, from, j, name) || (j < |rows| && rows[j].Row? && rows[from[j]].Row?
                  && rows[from[j]].names[i] == name))
  {
  }

  /** Names are distinct, so an endpoint lies between a and the given servers only if its own two
      servers say so. */
  lemma BetweenIsMembership(rows: seq<Row>, a: nat, servers: seq<int>, c: nat, d: nat)
    requires Allocated(rows) && a < |rows| && c < |rows| && d < |rows| && AllServers(|rows|, servers)
    ensures Between(rows, a, servers, rows[c].names[d]) <==> (c == a && d in servers) || (d == a && c in servers)
  {
    if c == a && d in servers {
      var k :| 0 <= k < |servers| && servers[k] == d;
    }
    if d == a && c in servers {
      var k :| 0 <= k < |servers| && servers[k] == c;
    }
  }

  // ----- the harness -----

  class Config {
    var endnames: seq<Row>
    var enabled: map<Name, bool>

    constructor (endnames: seq<Row>, enabled: map<Name, bool>)
      ensures this.endnames == endnames && this.enabled == enabled
    {
      this.endnames, this.enabled := endnames, enabled;
    }

    predicate IsEnabled(name: Name)
      reads this`enabled
    {
      name in enabled && enabled[name]
    }

    /** Server a can send to server b. */
    ghost predicate Linked(a: nat, b: nat)
      requires Allocated(endnames) && a < |endnames| && b < |endnames|
      reads this
    {
      IsEnabled(endnames[a].names[b])
    }

    method ConnectUnlocked(i: nat, to: seq<int>)
      requires ValidRows(endnames) && i < |endnames| && AllServers(|endnames|, to)
      requires to != [] ==> endnames[i].Row?
      requires forall k | 0 <= k < |to| :: endnames[to[k]].Row?
      modifies this`enabled
      ensures forall name :: IsEnabled(name) <==> (Between(endnames, i, to, name) || old(IsEnabled(name)))
    {
      hide Outgoing, Incoming;
      OutgoingNext(endnames, i, to);
      IncomingNext(endnames, i, to);
      for j := 0 to |to|
        invariant forall name :: IsEnabled(name) <==> (Outgoing(endnames, i, to, j, name) || old(IsEnabled(name)))
      {
        enabled := enabled[endnames[i].names[to[j]] := true];
      }
      for j := 0 to |to|
        invariant forall name :: IsEnabled(name) <==>
                                 (Outgoing(endnames, i, to, |to|, name) || Incoming(endnames, i, to, j, name)
                                     || old(IsEnabled(name)))
      {
        enabled := enabled[endnames[to[j]].names[i] := true];
      }
    }

    method DisconnectUnlocked(i: nat, from: seq<int>) returns (panicked: bool)
      requires ValidRows(endnames) && i < |endnames| && AllServers(|endnames|, from)
      modifies this`enabled
      ensures panicked <==> Panics(endnames, from)
      ensures !panicked ==> forall name :: IsEnabled(name) <==> (old(IsEnabled(name)) && !Cut(endnames, i, from, name))
    {
      hide Outgoing, CutIncoming;
      OutgoingNext(endnames, i, from);
      CutIncomingNext(endnames, i, from);
      for j := 0 to |from|
        invariant forall name :: IsEnabled(name) <==> (old(IsEnabled(name)) && !Outgoing(endnames, i, from, j, name))
      {
        if endnames[i].Row? {
          enabled := enabled[endnames[i].names[from[j]] := false];
        }
      }
      for j := 0 to |from|
        invariant j <= |endnames| && forall k | 0 <= k < j :: !(endnames[k].Row? && endnames[from[k]].Nil?)
        invariant forall name :: IsEnabled(name) <==>
                                 (old(IsEnabled(name)) && !Outgoing(endnames, i, from, |from|, name)
                                  && !CutIncoming(endnames, i, from, j, name))
      {
        if j >= |endnames| {
          return true;
        }
        if endnames[j].Row? {
          if endnames[from[j]].Nil? {
            return true;
          }
          enabled := enabled[endnames[from[j]].names[i] := false];
        }
      }
      panicked := false;
    }

    /** For the servers done so far, and all others, two servers can talk exactly if both or neither
        are in this block. */
    ghost predicate Settled(done: set<int>, block: seq<int>)
      requires Allocated(endnames)
      reads this
    {
      forall a: nat, b: nat | a < |endnames| && b < |endnames| && (a in done || b in done) ::
        Linked(a, b) <==> (a in block <==> b in block)
    }

    /** The body of both loops of a partition. */
    method Separate(a: nat, own: seq<int>, other: seq<int>, ghost done: set<int>) returns (panicked: bool)
      requires Allocated(endnames) && a < |endnames| && a in own && IsPartition(|endnames|, own, other)
      requires Settled(done, own)
      modifies this`enabled
      ensures panicked <==> |other| > |endnames|
      ensures !panicked ==> Settled(done + {a}, own)
      ensures !panicked ==> forall name | !IsServerEnd(endnames, name) :: IsEnabled(name) == old(IsEnabled(name))
    {
      ghost var before := enabled;
      panicked := DisconnectUnlocked(a, other);
      if panicked {
        return;
      }
      CutIsBetween(endnames, a, other);
      ConnectUnlocked(a, own);
      forall name
        ensures IsEnabled(name) <==>
                Between(endnames, a, own, name)
                || (name in before && before[name] && !Between(endnames, a, other, name))
      {
      }
      forall c: nat, d: nat | c < |endnames| && d < |endnames|
        ensures Linked(c, d) == if c == a then d in own else if d == a then c in own else old(Linked(c, d))
      {
        BetweenIsMembership(endnames, a, own, c, d);
        BetweenIsMembership(endnames, a, other, c, d);
      }
    }

    lemma SettledByEither(done: set<int>, p1: seq<int>, p2: seq<int>)
      requires Allocated(endnames) && IsPartition(|endnames|, p1, p2)
      ensures Settled(done, p1) <==> Settled(done, p2)
    {
    }

    /** Afterwards two servers can talk exactly if they are in the same block, and the endpoints of
        clients are as they were. It panics exactly for a block that names servers too often. */
    method Partition(p1: seq<int>, p2: seq<int>) returns (panicked: bool)
      requires Allocated(endnames) && IsPartition(|endnames|, p1, p2)
      modifies this`enabled
      ensures panicked <==> (p1 != [] && |p2| > |endnames|) || (p2 != [] && |p1| > |endnames|)
      ensures !panicked ==>
                forall a: nat, b: nat | a < |endnames| && b < |endnames| :: Linked(a, b) <==> (a in p1 <==> b in p1)
      ensures !panicked ==> forall name | !IsServerEnd(endnames, name) :: IsEnabled(name) == old(IsEnabled(name))
    {
      ghost var done: set<int> := {};
      for i := 0 to |p1|
        invariant i > 0 ==> |p2| <= |endnames|
        invariant Settled(done, p1) && forall k | 0 <= k < i :: p1[k] in done
        invariant forall name | !IsServerEnd(endnames, name) :: IsEnabled(name) == old(IsEnabled(name))
      {
        panicked := Separate(p1[i], p1, p2, done);
        if panicked {
          return;
        }
        done := done + {p1[i]};
      }
      SettledByEither(done, p1, p2);
      for i := 0 to |p2|
        invariant i > 0 ==> |p1| <= |endnames|
        invariant Settled(done, p2) && forall k | 0 <= k < i :: p2[k] in done
        invariant forall k | 0 <= k < |p1| :: p1[k] in done
        invariant forall name | !IsServerEnd(endnames, name) :: IsEnabled(name) == old(IsEnabled(name))
      {
        panicked := Separate(p2[i], p2, p1, done);
        if panicked {
          return;
        }
        done := done + {p2[i]};
      }
      SettledByEither(done, p1, p2);
      AllDone(done, p1, p2);
      panicked := false;
    }

    lemma AllDone(done: set<int>, p1: seq<int>, p2: seq<int>)
      requires Allocated(endnames) && IsPartition(|endnames|, p1, p2) && Settled(done, p1)
      requires (forall k | 0 <= k < |p1| :: p1[k] in done) && (forall k | 0 <= k < |p2| :: p2[k] in done)
      ensures forall a: nat, b: nat | a < |endnames| && b < |endnames| :: Linked(a, b) <==> (a in p1 <==> b in p1)
    {
      assert forall a | 0 <= a < |endnames| :: a in p1 || a in p2;
    }
  }

  // ----- choosing the blocks -----

  /** The server at place x when the leader is left out of 0, 1, 2, ... */
  function Follower(leader: nat, x: nat): nat
  {
    if x < leader then x else x + 1
  }

  /** The blocks around a leader: the followers in order, cut after n / 2 + 1, then the leader; places
      left over are 0. */
  function FirstBlock(n: nat, leader: nat): seq<int>
  {
    seq(n / 2 + 1, x requires 0 <= x => if x < n - 1 then Follower(leader, x) else 0)
  }

  function SecondBlock(n: nat, leader: nat): seq<int>
  {
    seq(n / 2, x requires 0 <= x => if x == n / 2 - 1 then leader
                                    else if n / 2 + 1 + x < n - 1 then Follower(leader, n / 2 + 1 + x) else 0)
  }

  /** Puts the leader last in the second, smaller block. Places that are not filled keep the 0 they
      were made with; with fewer than two servers the second block has no last place. */
  method MakePartition(n: nat, leader: nat) returns (p1: array<nat>, p2: array<nat>, panicked: bool)
    requires leader < n || n == leader == 0
    ensures panicked <==> n < 2
    ensures !panicked ==> p1[..] == FirstBlock(n, leader) && p2[..] == SecondBlock(n, leader)
  {
    p1, p2 := new nat[n / 2 + 1](_ => 0), new nat[n / 2](_ => 0);
    var j := 0;
    for i := 0 to n
      invariant j == if i <= leader then i else i - 1
      invariant forall x | 0 <= x < p1.Length :: p1[x] == if x < j then Follower(leader, x) else 0
      invariant forall x | 0 <= x < p2.Length :: p2[x] == if p1.Length + x < j then Follower(leader, p1.Length + x)
                else 0
    {
      if i != leader {
        if j < p1.Length {
          p1[j] := i;
        } else {
          p2[j - p1.Length] := i;
        }
        j := j + 1;
      }
    }
    assert n > 0 ==> j == n - 1;
    if p2.Length == 0 {
      return p1, p2, true;
    }
    p2[p2.Length - 1] := leader;
    panicked := false;
  }

  /** The blocks are a partition exactly for an odd number of servers, or where the stray 0 of an even
      number falls into the block that server 0 is in anyway. */
  lemma PartitionIffOdd(n: nat, leader: nat)
    requires n >= 2 && leader < n
    ensures IsPartition(n, FirstBlock(n, leader), SecondBlock(n, leader)) <==>
            (n % 2 == 1 || (n == 2 && leader == 1) || (n >= 4 && leader == 0))
    ensures n % 2 == 1 ==> leader in SecondBlock(n, leader) && |SecondBlock(n, leader)| < |FirstBlock(n, leader)|
    ensures n % 2 == 1 ==> |FirstBlock(n, leader)| + |SecondBlock(n, leader)| == n
  {
    var p1, p2 := FirstBlock(n, leader), SecondBlock(n, leader);
    assert p2[n / 2 - 1] == leader;
    if n % 2 == 1 || (n >= 4 && leader == 0) || (n == 2 && leader == 1) {
      forall x | 0 <= x < n
        ensures x in p1 || x in p2
      {
        var place := if x < leader then x else x - 1;
        if x == leader {
          assert p2[n / 2 - 1] == x;
        } else if place < |p1| {
          assert p1[place] == x;
        } else {
          assert p2[place - |p1|] == x;
        }
      }
    } else if n == 2 {
      assert p1[1] == 0 && p2[0] == 0;
      assert 0 in p1 && 0 in p2;
    } else {
      assert p1[0] == 0 && p2[n / 2 - 2] == 0;
      assert 0 in p1 && 0 in p2;
    }
  }
}
