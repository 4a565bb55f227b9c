/** The run-time check of what Raft servers apply: one reader per server, all sharing one table of
    applied values that outlives crashes and restarts of the servers. */
module Monitor {
  import opened Options
  import opened Sets

  /** A message from server `server`; everything but commands is ignored. */
  datatype Message<V> = Command(server: nat, index: int, value: V) | Other(server: nat)

  datatype Verdict = Fine | Mismatch | OutOfOrder

  type Logs<V> = seq<map<int, V>>

  function NoLogs<V>(n: nat): Logs<V>
  {
    seq(n, _ => map[])
  }

  predicate FromServers<V>(n: nat, trace: seq<Message<V>>)
  {
    forall k | 0 <= k < |trace| :: trace[k].server < n
  }

  /** What each server has applied at each index, most recently. */
  function LogsAfter<V>(n: nat, trace: seq<Message<V>>): (logs: Logs<V>)
    requires FromServers(n, trace)
    ensures |logs| == n
  {
    if trace == [] then NoLogs(n)
    else
      var logs := LogsAfter(n, trace[..|trace| - 1]);
      match trace[|trace| - 1]
      case Command(i, index, v) => logs[i := logs[i][index := v]]
      case Other(_) => logs
  }

  // ----- the property of the whole trace -----

  predicate AppliedAt<V>(m: Message<V>, server: nat, index: int)
  {
    m.Command? && m.server == server && m.index == index
  }

  /** All servers apply the same value at an index, also when they apply it again after a restart. */
  ghost predicate Agreement<V>(trace: seq<Message<V>>)
  {
    forall j, k | 0 <= j < k < |trace| && trace[j].Command? && trace[k].Command? && trace[j].index == trace[k].index ::
      trace[j].value == trace[k].value
  }

  /** Whoever applies beyond index 1 has applied the index before it. */
  ghost predicate InOrder<V>(trace: seq<Message<V>>)
  {
    forall k | 0 <= k < |trace| && trace[k].Command? && trace[k].index > 1 :: HasPrevious(trace, k)
  }

  ghost predicate HasPrevious<V>(trace: seq<Message<V>>, k: nat)
    requires k < |trace| && trace[k].Command?
  {
    exists j :: 0 <= j < k && AppliedAt(trace[j], trace[k].server, trace[k].index - 1)
  }

  // ----- the reader -----

  predicate Disagrees<V(==)>(log: map<int, V>, index: int, v: V)
  {
    index in log && log[index] != v
  }

  /** Some server has applied another value at this index. */
  ghost predicate Contradicted<V>(logs: Logs<V>, index: int, v: V)
  {
    exists j :: 0 <= j < |logs| && Disagrees(logs[j], index, v)
  }

  /** What the reader says about the last message of a trace. */
  ghost function VerdictOf<V>(n: nat, trace: seq<Message<V>>): Verdict
    requires trace != [] && FromServers(n, trace)
  {
    var logs, m := LogsAfter(n, trace[..|trace| - 1]), trace[|trace| - 1];
    if m.Other? then Fine
    else if m.index > 1 && m.index - 1 !in logs[m.server] then OutOfOrder
    else if Contradicted(logs, m.index, m.value) then Mismatch
    else Fine
  }

  lemma NoneContradict<V>(index: int, v: V)
    ensures !Contradicted([], index, v)
  {
  }

  lemma ContradictedSnoc<V>(logs: Logs<V>, log: map<int, V>, index: int, v: V)
    ensures Contradicted(logs + [log], index, v) <==> Contradicted(logs, index, v) || Disagrees(log, index, v)
  {
    var longer := logs + [log];
    assert longer[|logs|] == log;
    if j: nat :| j < |logs| && Disagrees(logs[j], index, v) {
      assert Disagrees(longer[j], index, v);
    }
  }

  ghost predicate NoError<V>(n: nat, trace: seq<Message<V>>)
    requires FromServers(n, trace)
  {
    forall k | 1 <= k <= |trace| :: VerdictOf(n, trace[..k]) == Fine
  }

  function MaxIndex<V>(trace: seq<Message<V>>): int
  {
    if trace == [] then 0
    else
      var max, m := MaxIndex(trace[..|trace| - 1]), trace[|trace| - 1];
      if m.Command? && m.index > max then m.index else max
  }

  /** One more message: the table and the highest index after it, and the verdict on it. */
  lemma OneMore<V>(n: nat, trace: seq<Message<V>>, m: Message<V>)
    requires FromServers(n, trace) && m.server < n
    ensures FromServers(n, trace + [m])
    ensures var logs := LogsAfter(n, trace);
            && LogsAfter(n, trace + [m])
            == (if m.Command? then logs[m.server := logs[m.server][m.index := m.value]] else logs)
            && VerdictOf(n, trace + [m])
            == (if m.Other? then Fine
                else if m.index > 1 && m.index - 1 !in logs[m.server] then OutOfOrder
                else if Contradicted(logs, m.index, m.value) then Mismatch
                else Fine)
    ensures MaxIndex(trace + [m]) == if m.Command? && m.index > MaxIndex(trace) then m.index else MaxIndex(trace)
  {
    assert (trace + [m])[..|trace|] == trace;
  }

  class Monitor<V(==)> {
    var logs: Logs<V>
    var maxIndex: int
    ghost var trace: seq<Message<V>>

    ghost predicate Valid()
      reads this
    {
      FromServers(|logs|, trace) && logs == LogsAfter(|logs|, trace) && maxIndex == MaxIndex(trace)
    }

    constructor (n: nat)
      ensures Valid() && |logs| == n && trace == []
    {
      logs, maxIndex, trace := NoLogs(n), 0, [];
    }

    /** One message from an apply channel. */
    method Read(m: Message<V>) returns (verdict: Verdict)
      requires Valid() && m.server < |logs|
      modifies this
      ensures Valid() && trace == old(trace) + [m] && |logs| == old(|logs|)
      ensures verdict == VerdictOf(|logs|, trace)
    {
      hide LogsAfter, VerdictOf, MaxIndex, Contradicted, FromServers;
      OneMore(|logs|, trace, m);
      verdict := Fine;
      trace := trace + [m];
      if m.Command? {
        var v := m.value;
        NoneContradict<V>(m.index, v);
        for j := 0 to |logs|
          invariant unchanged(`logs) && unchanged(`maxIndex) && trace == old(trace) + [m]
          invariant verdict == if Contradicted(logs[..j], m.index, v) then Mismatch else Fine
        {
          if m.index in logs[j] && logs[j][m.index] != v {
            verdict := Mismatch;
          }
          ContradictedSnoc(logs[..j], logs[j], m.index, v);
          assert logs[..j + 1] == logs[..j] + [logs[j]];
        }
        assert logs[..|logs|] == logs;
        var prevok := m.index - 1 in logs[m.server];
        logs := logs[m.server := logs[m.server][m.index := v]];
        if m.index > maxIndex {
          maxIndex := m.index;
        }
        if m.index > 1 && !prevok {
          verdict := OutOfOrder;
        }
      }
    }
  }

  // ----- the table against the trace -----

  /** Message k is what its server has applied most recently at its index. */
  ghost predicate IsLatest<V>(trace: seq<Message<V>>, server: nat, index: int, k: nat)
  {
    && k < |trace| && AppliedAt(trace[k], server, index)
    && forall j | k < j < |trace| :: !AppliedAt(trace[j], server, index)
  }

  /** The table holds exactly the applied indexes, with the value that was applied there last. */
  lemma {:induction false} LogsHoldTrace<V>(n: nat, trace: seq<Message<V>>, i: nat, index: int)
    requires FromServers(n, trace) && i < n
    ensures index in LogsAfter(n, trace)[i] <==> exists k :: 0 <= k < |trace| && AppliedAt(trace[k], i, index)
    ensures index in LogsAfter(n, trace)[i] ==>
              exists k: nat :: IsLatest(trace, i, index, k) && trace[k].value == LogsAfter(n, trace)[i][index]
  {
    if trace != [] {
      var last := |trace| - 1;
      LogsHoldTrace(n, trace[..last], i, index);
      if AppliedAt(trace[last], i, index) {
        assert IsLatest(trace, i, index, last) && trace[last].value == LogsAfter(n, trace)[i][index];
      } else {
        assert forall k | 0 <= k < last :: trace[..last][k] == trace[k];
        if index in LogsAfter(n, trace)[i] {
          var k: nat :| IsLatest(trace[..last], i, index, k)
              && trace[..last][k].value == LogsAfter(n, trace[..last])[i][index];
          assert IsLatest(trace, i, index, k) && trace[k].value == LogsAfter(n, trace)[i][index];
        }
      }
    }
  }

  lemma OnlyOneIsLatest<V>(trace: seq<Message<V>>, server: nat, index: int, j: nat, k: nat)
    requires IsLatest(trace, server, index, j) && IsLatest(trace, server, index, k)
    ensures j == k
  {
  }

  /** The reader's word on a command, read off the trace, whatever it has said before: out of order if
      the server has never applied the index before; otherwise a mismatch if a server's latest value
      at this index is another one. */
  lemma VerdictOfTrace<V>(n: nat, trace: seq<Message<V>>, m: Message<V>)
    requires FromServers(n, trace) && m.server < n && m.Command?
    ensures FromServers(n, trace + [m])
    ensures VerdictOf(n, trace + [m]) == OutOfOrder <==>
            m.index > 1 && forall k | 0 <= k < |trace| :: !AppliedAt(trace[k], m.server, m.index - 1)
    ensures VerdictOf(n, trace + [m]) == Mismatch <==>
            && (m.index > 1 ==> exists k :: 0 <= k < |trace| && AppliedAt(trace[k], m.server, m.index - 1))
            && exists i: nat, k: nat :: IsLatest(trace, i, m.index, k) && trace[k].value != m.value
  {
    OneMore(n, trace, m);
    LogsHoldTrace(n, trace, m.server, m.index - 1);
    ContradictedByLatest(n, trace, m.index, m.value);
  }

  lemma ContradictedByLatest<V>(n: nat, trace: seq<Message<V>>, index: int, v: V)
    requires FromServers(n, trace)
    ensures Contradicted(LogsAfter(n, trace), index, v)
        <==> exists i: nat, k: nat :: IsLatest(trace, i, index, k) && trace[k].value != v
  {
    var logs := LogsAfter(n, trace);
    if i: nat :| i < n && Disagrees(logs[i], index, v) {
      LogsHoldTrace(n, trace, i, index);
      var k: nat :| IsLatest(trace, i, index, k) && trace[k].value == logs[i][index];
      assert IsLatest(trace, i, index, k) && trace[k].value != v;
    }
    if i: nat, k: nat :| IsLatest(trace, i, index, k) && trace[k].value != v {
      LogsHoldTrace(n, trace, i, index);
      var latest: nat :| IsLatest(trace, i, index, latest) && trace[latest].value == logs[i][index];
      OnlyOneIsLatest(trace, i, index, k, latest);
      assert Disagrees(logs[i], index, v);
    }
  }

  /** The highest index is that of some command, and no command has a higher one. */
  lemma {:induction false} MaxIndexIsHighest<V>(trace: seq<Message<V>>)
    ensures MaxIndex(trace) >= 0
    ensures forall k | 0 <= k < |trace| && trace[k].Command? :: trace[k].index <= MaxIndex(trace)
    ensures MaxIndex(trace) > 0 ==>
              exists k :: 0 <= k < |trace| && trace[k].Command? && trace[k].index == MaxIndex(trace)
  {
    if trace != [] {
      var last := |trace| - 1;
      MaxIndexIsHighest(trace[..last]);
      assert forall k | 0 <= k < last :: trace[..last][k] == trace[k];
      if MaxIndex(trace[..last]) == MaxIndex(trace) > 0 {
        var k :| 0 <= k < last && trace[..last][k].Command? && trace[..last][k].index == MaxIndex(trace);
        assert trace[k].Command? && trace[k].index == MaxIndex(trace);
      }
    }
  }

  /** As long as all went well, the reader accepts a message exactly if the trace is still fine. */
  lemma VerdictIsExact<V>(n: nat, trace: seq<Message<V>>, m: Message<V>)
    requires FromServers(n, trace + [m]) && Agreement(trace) && InOrder(trace)
    ensures FromServers(n, trace)
    ensures VerdictOf(n, trace + [m]) == Fine <==> Agreement(trace + [m]) && InOrder(trace + [m])
  {
    var longer := trace + [m];
    assert longer[..|trace|] == trace;
    assert longer[|trace|] == m;
    assert FromServers(n, trace) by {
      assert forall k | 0 <= k < |trace| :: longer[k] == trace[k];
    }
    if m.Command? {
      OrderIsExact(n, trace, m);
      AgreementIsExact(n, trace, m);
    } else {
      assert forall k | 0 <= k < |longer| && longer[k].Command? :: k < |trace| && longer[k] == trace[k];
      forall k | 0 <= k < |trace| && trace[k].Command? && trace[k].index > 1
        ensures HasPrevious(longer, k)
      {
        assert HasPrevious(trace, k);
        var j :| 0 <= j < k && AppliedAt(trace[j], trace[k].server, trace[k].index - 1);
        assert AppliedAt(longer[j], longer[k].server, longer[k].index - 1);
      }
    }
  }

  lemma OrderIsExact<V>(n: nat, trace: seq<Message<V>>, m: Message<V>)
    requires FromServers(n, trace) && m.server < n && m.Command? && InOrder(trace)
    ensures InOrder(trace + [m]) <==> (m.index > 1 ==> m.index - 1 in LogsAfter(n, trace)[m.server])
  {
    var longer := trace + [m];
    LogsHoldTrace(n, trace, m.server, m.index - 1);
    forall k | 0 <= k < |trace| && trace[k].Command? && trace[k].index > 1
      ensures HasPrevious(longer, k)
    {
      assert HasPrevious(trace, k);
      var j :| 0 <= j < k && AppliedAt(trace[j], trace[k].server, trace[k].index - 1);
      assert AppliedAt(longer[j], longer[k].server, longer[k].index - 1);
    }
    if m.index > 1 {
      if j: nat :| j < |trace| && AppliedAt(trace[j], m.server, m.index - 1) {
        assert AppliedAt(longer[j], m.server, m.index - 1);
        assert HasPrevious(longer, |trace|);
      } else {
        assert !HasPrevious(longer, |trace|);
      }
    }
  }

  lemma AgreementIsExact<V>(n: nat, trace: seq<Message<V>>, m: Message<V>)
    requires FromServers(n, trace) && m.server < n && m.Command? && Agreement(trace)
    ensures Agreement(trace + [m]) <==> !Contradicted(LogsAfter(n, trace), m.index, m.value)
  {
    var longer := trace + [m];
    if j: nat :| j < n && Disagrees(LogsAfter(n, trace)[j], m.index, m.value) {
      LogsHoldTrace(n, trace, j, m.index);
      var k: nat :| IsLatest(trace, j, m.index, k) && trace[k].value == LogsAfter(n, trace)[j][m.index];
      assert longer[k].value != longer[|trace|].value;
    } else {
      forall k | 0 <= k < |trace| && trace[k].Command? && trace[k].index == m.index
        ensures trace[k].value == m.value
      {
        var i := trace[k].server;
        LogsHoldTrace(n, trace, i, m.index);
        assert AppliedAt(trace[k], i, m.index);
        assert !Disagrees(LogsAfter(n, trace)[i], m.index, m.value);
      }
    }
  }

  /** The readers raise no error over a whole run exactly if all servers agree at every index and
      every server applies in order. */
  lemma {:induction false} MonitorIsExact<V>(n: nat, trace: seq<Message<V>>)
    requires FromServers(n, trace)
    ensures NoError(n, trace) <==> Agreement(trace) && InOrder(trace)
  {
    if trace != [] {
      var before, m := trace[..|trace| - 1], trace[|trace| - 1];
      assert trace == before + [m];
      MonitorIsExact(n, before);
      NoErrorBefore(n, before, m);
      if Agreement(before) && InOrder(before) {
        VerdictIsExact(n, before, m);
      } else if Agreement(trace) && InOrder(trace) {
        FineBefore(before, m);
      }
    }
  }

  lemma NoErrorBefore<V>(n: nat, before: seq<Message<V>>, m: Message<V>)
    requires FromServers(n, before + [m])
    ensures FromServers(n, before)
    ensures NoError(n, before + [m]) <==> NoError(n, before) && VerdictOf(n, before + [m]) == Fine
  {
    var trace := before + [m];
    assert forall k | 0 <= k < |before| :: trace[k] == before[k];
    assert forall k | 1 <= k <= |before| :: trace[..k] == before[..k];
    assert trace[..|trace|] == trace;
  }

  /** The property of a trace is a property of each of its prefixes. */
  lemma FineBefore<V>(before: seq<Message<V>>, m: Message<V>)
    requires Agreement(before + [m]) && InOrder(before + [m])
    ensures Agreement(before) && InOrder(before)
  {
    var trace := before + [m];
    assert forall k | 0 <= k < |before| :: trace[k] == before[k];
    forall k | 0 <= k < |before| && before[k].Command? && before[k].index > 1
      ensures HasPrevious(before, k)
    {
      assert HasPrevious(trace, k);
      var j :| 0 <= j < k && AppliedAt(trace[j], trace[k].server, trace[k].index - 1);
      assert AppliedAt(before[j], before[k].server, before[k].index - 1);
    }
  }

  // ----- counting commits -----

  /** The servers that have applied something at an index. */
  ghost function AppliedBy<V>(n: nat, trace: seq<Message<V>>, index: int): set<nat>
    requires FromServers(n, trace)
  {
    set i: nat | i < n && index in LogsAfter(n, trace)[i]
  }

  /** The table of server i is read when the trace has come as far as times[i]. */
  ghost predicate ReadDuring<V>(views: seq<map<int, V>>, trace: seq<Message<V>>, times: seq<nat>)
    requires FromServers(|views|, trace)
  {
    && |times| == |views|
    && (forall i, j | 0 <= i < j < |times| :: times[i] <= times[j])
    && forall i | 0 <= i < |times| :: times[i] <= |trace| && views[i] == LogsAfter(|views|, trace[..times[i]])[i]
  }

  ghost predicate Committed<V>(trace: seq<Message<V>>, index: int, v: V)
  {
    exists k :: 0 <= k < |trace| && trace[k].Command? && trace[k].index == index && trace[k].value == v
  }

  /** How many servers think the entry at `index` is committed, and what they think it is. The table
      is locked for one server at a time, so the readers may go on between two of its entries. */
  method NCommitted<V(==)>(views: seq<map<int, V>>, index: int, ghost trace: seq<Message<V>>, ghost times: seq<nat>)
    returns (count: nat, cmd: Option<V>, mismatch: bool)
    requires FromServers(|views|, trace) && ReadDuring(views, trace, times) && NoError(|views|, trace)
    ensures !mismatch
    ensures count == |set i: nat | i < |views| && index in views[i]|
    ensures count > 0 <==> cmd.Some?
    ensures cmd.Some? ==> Committed(trace, index, cmd.value) && forall v | Committed(trace, index, v) :: v == cmd.value
    ensures |views| > 0 ==> |AppliedBy(|views|, trace[..times[0]], index)| <= count
                            <= |AppliedBy(|views|, trace[..times[|times| - 1]], index)|
  {
    hide ReadDuring, NoError, Agreement, InOrder, Committed, LogsAfter, AppliedBy;
    count, cmd, mismatch := 0, None, false;
    ghost var seen: set<nat> := {};
    MonitorIsExact(|views|, trace);
    for i := 0 to |views|
      invariant !mismatch && count == |seen| && seen == set j: nat | j < i && index in views[j]
      invariant count > 0 <==> cmd.Some?
      invariant cmd.Some? ==> Committed(trace, index, cmd.value)
    {
      if index in views[i] {
        ViewIsFromTrace(views, trace, times, i, index);
        if count > 0 {
          CommittedIsUnique(trace, index, cmd.value, views[i][index]);
        }
        if count > 0 && cmd != Some(views[i][index]) {
          mismatch := true;
        }
        count := count + 1;
        cmd := Some(views[i][index]);
        seen := seen + {i};
      }
    }
    assert seen == set i: nat | i < |views| && index in views[i];
    if |views| > 0 {
      CountsInBetween(views, trace, times, index, seen);
    }
    forall v | Committed(trace, index, v)
      ensures cmd.Some? ==> v == cmd.value
    {
      if cmd.Some? {
        CommittedIsUnique(trace, index, v, cmd.value);
      }
    }
  }

  lemma CommittedIsUnique<V>(trace: seq<Message<V>>, index: int, v: V, w: V)
    requires Agreement(trace) && Committed(trace, index, v) && Committed(trace, index, w)
    ensures v == w
  {
  }

  /** What is read from the table has been applied in the trace. */
  lemma ViewIsFromTrace<V>(views: seq<map<int, V>>, trace: seq<Message<V>>, times: seq<nat>, i: nat, index: int)
    requires FromServers(|views|, trace) && ReadDuring(views, trace, times) && i < |views| && index in views[i]
    ensures Committed(trace, index, views[i][index])
  {
    var before := trace[..times[i]];
    LogsHoldTrace(|views|, before, i, index);
    var k: nat :| IsLatest(before, i, index, k) && before[k].value == LogsAfter(|views|, before)[i][index];
    assert trace[k] == before[k];
  }

  lemma AppliedStays<V>(n: nat, trace: seq<Message<V>>, s: nat, t: nat, i: nat, index: int)
    requires FromServers(n, trace) && s <= t <= |trace| && i < n && index in LogsAfter(n, trace[..s])[i]
    ensures index in LogsAfter(n, trace[..t])[i]
  {
    LogsHoldTrace(n, trace[..s], i, index);
    LogsHoldTrace(n, trace[..t], i, index);
    var k :| 0 <= k < s && AppliedAt(trace[..s][k], i, index);
    assert AppliedAt(trace[..t][k], i, index);
  }

  lemma CountsInBetween<V>(views: seq<map<int, V>>, trace: seq<Message<V>>, times: seq<nat>, index: int, seen: set<nat>)
    requires FromServers(|views|, trace) && ReadDuring(views, trace, times) && |views| > 0
    requires seen == set i: nat | i < |views| && index in views[i]
    ensures |AppliedBy(|views|, trace[..times[0]], index)| <= |seen| <= |AppliedBy(|views|,
            trace[..times[|times| - 1]], index)|
  {
    var n, first, last := |views|, times[0], times[|times| - 1];
    var low, high := AppliedBy(n, trace[..first], index), AppliedBy(n, trace[..last], index);
    forall i | i in low
      ensures i in seen
    {
      AppliedStays(n, trace, first, times[i], i, index);
    }
    forall i | i in seen
      ensures i in high
    {
      AppliedStays(n, trace, times[i], last, i, index);
    }
    SubsetCount(low, seen);
    SubsetCount(seen, high);
  }
}
