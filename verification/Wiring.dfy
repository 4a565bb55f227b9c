/** The network's tables against the calls that were made: who is enabled, connected and in the network
    is what was last asked for, and every request was sent where the tables led when it came in. */
module Wiring {
  import opened Labrpc
  import opened Options
  import opened Rpc

  // ----- the last of a sequence of writes -----

  /** `v` is what was written last; `None` is a step that writes nothing. */
  ghost predicate LastIs<T>(writes: seq<Option<T>>, v: T)
  {
    exists j :: 0 <= j < |writes| && writes[j] == Some(v) && forall i | j < i < |writes| :: writes[i] == None
  }

  lemma LastNext<T>(writes: seq<Option<T>>, w: Option<T>, v: T)
    ensures LastIs(writes + [w], v) <==> w == Some(v) || (w == None && LastIs(writes, v))
  {
    var more := writes + [w];
    assert more[|writes|] == w;
    if w == None && LastIs(writes, v) {
      var j :| 0 <= j < |writes| && writes[j] == Some(v) && forall i | j < i < |writes| :: writes[i] == None;
      assert more[j] == Some(v) && forall i | j < i < |more| :: more[i] == None;
    }
    if LastIs(more, v) {
      var j :| 0 <= j < |more| && more[j] == Some(v) && forall i | j < i < |more| :: more[i] == None;
      if j < |writes| {
        assert writes[j] == Some(v) && forall i | j < i < |writes| :: writes[i] == more[i] == None;
      }
    }
  }

  // ----- what the steps ask for -----

  function EnableAsked(step: Step, endname: int): Option<bool>
  {
    if step.Enable? && step.endname == endname then Some(step.yes) else None
  }

  function ConnectAsked(step: Step, endname: int): Option<int>
  {
    if step.Connect? && step.endname == endname then Some(step.name) else None
  }

  function FlagsAsked(step: Step): Option<(bool, bool)>
  {
    if step.SetFlags? then Some((step.reliable, step.longReordering)) else None
  }

  /** A shutdown takes the server out of the network, a start puts its incarnation in. */
  function CallAsked(call: HarnessCall, i: int): Option<Option<nat>>
  {
    if call == Deleting(i) then Some(None)
    else if call.Adding? && call.server == i then Some(Some(call.inst))
    else None
  }

  function ServerAsked(s: State, step: Step, i: int): Option<Option<nat>>
  {
    if step.Advance? && step.c < |s.calls| then CallAsked(s.calls[step.c], i) else None
  }

  function Enables(steps: seq<Step>, endname: int): seq<Option<bool>>
  {
    seq(|steps|, k requires 0 <= k < |steps| => EnableAsked(steps[k], endname))
  }

  function Connects(steps: seq<Step>, endname: int): seq<Option<int>>
  {
    seq(|steps|, k requires 0 <= k < |steps| => ConnectAsked(steps[k], endname))
  }

  function Flags(steps: seq<Step>): seq<Option<(bool, bool)>>
  {
    seq(|steps|, k requires 0 <= k < |steps| => FlagsAsked(steps[k]))
  }

  function Servers(run: seq<State>, steps: seq<Step>, i: int): seq<Option<Option<nat>>>
    requires |run| == |steps| + 1
  {
    seq(|steps|, k requires 0 <= k < |steps| => ServerAsked(run[k], steps[k], i))
  }

  // ----- the tables after one step -----

  predicate IsEnabled(s: State, e: int)
  {
    e in s.enabled && s.enabled[e]
  }

  predicate IsServer(s: State, i: int, x: nat)
  {
    i in s.servers && s.servers[i] == x
  }

  lemma EffectTables(s: State, call: HarnessCall, i: int)
    requires CallEnabled(s, call)
    ensures var e := CallEffect(s, call);
            && e.enabled == s.enabled && e.connections == s.connections
            && e.reliable == s.reliable && e.longReordering == s.longReordering
            && forall x: nat :: IsServer(e, i, x) <==>
                 CallAsked(call, i) == Some(Some(x)) || (CallAsked(call, i) == None && IsServer(s, i, x))
  {
  }

  lemma CallTables(s: State, c: nat, i: int)
    requires c < |s.calls| && CallEnabled(s, s.calls[c])
    ensures var s' := DoCall(s, c);
            && s'.enabled == s.enabled && s'.connections == s.connections
            && s'.reliable == s.reliable && s'.longReordering == s.longReordering
            && forall x: nat :: IsServer(s', i, x) <==>
                 || CallAsked(s.calls[c], i) == Some(Some(x))
                 || (CallAsked(s.calls[c], i) == None && IsServer(s, i, x))
  {
    hide NextCall, Holds, CallEffect, CallAsked;
    EffectTables(s, s.calls[c], i);
    assert DoCall(s, c).servers == CallEffect(s, s.calls[c]).servers;
  }

  lemma RequestTables(s: State, r: nat, step: RequestStep)
    requires r < |s.reqs| && RequestEnabled(s, s.reqs[r], step)
    ensures var s' := DoRequest(s, r, step);
            && s'.enabled == s.enabled && s'.connections == s.connections && s'.servers == s.servers
            && s'.reliable == s.reliable && s'.longReordering == s.longReordering
  {
    hide Next, Sends;
  }

  lemma StepTables(s: State, step: Step, e: int, i: int)
    requires Enabled(s, step)
    ensures IsEnabled(Do(s, step), e) <==>
              EnableAsked(step, e) == Some(true) || (EnableAsked(step, e) == None && IsEnabled(s, e))
    ensures forall name :: e in Do(s, step).connections && Do(s, step).connections[e] == name <==>
              || ConnectAsked(step, e) == Some(name)
              || (ConnectAsked(step, e) == None && e in s.connections && s.connections[e] == name)
    ensures forall x: nat :: IsServer(Do(s, step), i, x) <==>
              ServerAsked(s, step, i) == Some(Some(x)) || (ServerAsked(s, step, i) == None && IsServer(s, i, x))
    ensures (Do(s, step).reliable, Do(s, step).longReordering)
         == if FlagsAsked(step).Some? then FlagsAsked(step).value else (s.reliable, s.longReordering)
  {
    hide DoRequest, DoCall, RequestEnabled, CallEnabled, CallAsked;
    if step.OnRequest? {
      RequestTables(s, step.r, step.request);
    } else if step.Advance? {
      CallTables(s, step.c, i);
    }
  }

  // ----- over whole runs -----

  /** After any run, an endpoint is enabled if and only if it was last asked to be, leads where it was
      last connected, and a server is in the network, with this incarnation, if and only if that
      start added it after the last shutdown. */
  lemma {:induction false} TablesAreAsLastSet(run: seq<State>, steps: seq<Step>, e: int, i: int)
    requires IsRun(run, steps)
    ensures var s := run[|steps|];
            && ((e in s.enabled && s.enabled[e]) <==> LastIs(Enables(steps, e), true))
            && (forall name :: e in s.connections && s.connections[e] == name <==> LastIs(Connects(steps, e), name))
            && forall x: nat :: i in s.servers && s.servers[i] == x <==> LastIs(Servers(run, steps, i), Some(x))
  {
    hide Do, Enabled, LastIs, EnableAsked, ConnectAsked, ServerAsked;
    if steps == [] {
      NothingLast(steps, run, e, i);
    } else {
      var n := |steps| - 1;
      var before, r := steps[..n], run[..n + 1];
      TablesAreAsLastSet(r, before, e, i);
      StepTables(run[n], steps[n], e, i);
      assert Enables(steps, e) == Enables(before, e) + [EnableAsked(steps[n], e)];
      assert Connects(steps, e) == Connects(before, e) + [ConnectAsked(steps[n], e)];
      assert Servers(run, steps, i) == Servers(r, before, i) + [ServerAsked(run[n], steps[n], i)];
      LastNext(Enables(before, e), EnableAsked(steps[n], e), true);
      forall name
        ensures LastIs(Connects(steps, e), name) <==>
                || ConnectAsked(steps[n], e) == Some(name)
                || (ConnectAsked(steps[n], e) == None && LastIs(Connects(before, e), name))
      {
        LastNext(Connects(before, e), ConnectAsked(steps[n], e), name);
      }
      forall x: nat
        ensures LastIs(Servers(run, steps, i), Some(x)) <==>
                || ServerAsked(run[n], steps[n], i) == Some(Some(x))
                || (ServerAsked(run[n], steps[n], i) == None && LastIs(Servers(r, before, i), Some(x)))
      {
        LastNext(Servers(r, before, i), ServerAsked(run[n], steps[n], i), Some(x));
      }
    }
  }

  lemma NothingLast(steps: seq<Step>, run: seq<State>, e: int, i: int)
    requires steps == [] && |run| == 1
    ensures forall v :: !LastIs(Enables(steps, e), v)
    ensures forall v :: !LastIs(Connects(steps, e), v)
    ensures forall v :: !LastIs(Servers(run, steps, i), v)
    ensures forall v :: !LastIs(Flags(steps), v)
  {
  }

  /** The network is reliable, and does not reorder, until it is told otherwise. */
  lemma {:induction false} FlagsAreAsLastSet(run: seq<State>, steps: seq<Step>)
    requires IsRun(run, steps)
    ensures var flags := (run[|steps|].reliable, run[|steps|].longReordering);
            LastIs(Flags(steps), flags)
            || (flags == (true, false) && forall k | 0 <= k < |steps| :: !steps[k].SetFlags?)
  {
    hide Do, Enabled, LastIs;
    if steps != [] {
      var n := |steps| - 1;
      var before := steps[..n];
      FlagsAreAsLastSet(run[..n + 1], before);
      StepTables(run[n], steps[n], 0, 0);
      assert Flags(steps) == Flags(before) + [FlagsAsked(steps[n])];
      LastNext(Flags(before), FlagsAsked(steps[n]), (run[n + 1].reliable, run[n + 1].longReordering));
    }
  }

  // ----- where a request was sent -----

  /** The request has been sent, or answered, along this route. */
  predicate Took(q: Request, route: Route)
  {
    || q.waiter == Serving(route) || q.waiter == Waiting(route) || q.waiter == GotReply(route)
    || q.waiter == Alive(route) || q.waiter == Delayed(route) || q.waiter == Replied(true, Some(route))
  }

  /** The tables lead from the endpoint to this server, and the network is as the route says. */
  ghost predicate LeadsTo(s: State, e: int, route: Route)
  {
    && e in s.enabled && s.enabled[e] && e in s.connections && s.connections[e] == route.name
    && route.name in s.servers && s.servers[route.name] == route.inst
    && s.reliable == route.reliable && s.longReordering == route.longReordering
  }

  /** A request goes to the server that its endpoint led to when the network looked, and is treated as
      the network was set then, even if endpoints, servers or settings change while it is on its way. */
  lemma {:induction false} RouteWasRead(run: seq<State>, steps: seq<Step>, k: nat, r: nat, route: Route)
    requires IsRun(run, steps) && k < |run| && r < |run[k].reqs| && Took(run[k].reqs[r], route)
    ensures exists j ::
              && 0 <= j < k && steps[j] == OnRequest(r, ReadInfo)
              && LeadsTo(run[j], run[k].reqs[r].endname, route)
  {
    hide Do, Enabled, Took, LeadsTo, RequestEnabled;
    if k > 0 {
      var s, step := run[k - 1], steps[k - 1];
      StepTook(s, step, r, route);
      if !(step == OnRequest(r, ReadInfo) && LeadsTo(s, run[k].reqs[r].endname, route)) {
        RouteWasRead(run, steps, k - 1, r, route);
      }
    }
  }

  lemma StepTook(s: State, step: Step, r: nat, route: Route)
    requires Enabled(s, step) && r < |Do(s, step).reqs| && Took(Do(s, step).reqs[r], route)
    ensures r < |s.reqs| && s.reqs[r].endname == Do(s, step).reqs[r].endname
    ensures Took(s.reqs[r], route)
            || (step == OnRequest(r, ReadInfo) && LeadsTo(s, s.reqs[r].endname, route))
  {
    hide DoRequest, DoCall, CallEnabled, Sends;
    OtherRequestsStay(s, step, r);
  }
}
