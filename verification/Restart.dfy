/** No acknowledged work is lost in a superseded persister, in every run in which the harness is used
    as it demands: a server is started only when it is down, and neither started nor shut down while
    another start of it is under way. */
module Restart {
  import opened Persister
  import opened Labrpc
  import opened Options
  import opened Rpc

  // ----- how the harness is to be used -----

  /** Which of the rules for callers of the harness are in force. */
  datatype Rules = Rules(down: bool, starts: bool, shutdowns: bool)

  const ALL_RULES := Rules(true, true, true)

  predicate Starts(call: HarnessCall)
  {
    call.Renewing? || call.Booting? || call.Adding?
  }

  predicate StartUnderWay(s: State, i: int)
  {
    exists c :: 0 <= c < |s.calls| && s.calls[c].server == i && Starts(s.calls[c])
  }

  /** A start finds the server down and no other start of it under way; a shutdown finds no start. */
  predicate Obeys(rules: Rules, s: State, step: Step)
  {
    && (rules.down && step.BeginStart? ==> step.i !in s.servers)
    && (rules.starts && step.BeginStart? ==> !StartUnderWay(s, step.i))
    && (rules.shutdowns && step.BeginShutdown? ==> !StartUnderWay(s, step.i))
  }

  ghost predicate IsRunUnder(rules: Rules, run: seq<State>, steps: seq<Step>)
  {
    IsRun(run, steps) && forall k | 0 <= k < |steps| :: Obeys(rules, run[k], steps[k])
  }

  // ----- persisters and incarnations -----

  /** An incarnation's disk starts with what it was booted from; all later entries are its own. */
  ghost predicate IncOk(s: State, x: nat)
    requires x < |s.incs|
  {
    var inc := s.incs[x];
    && inc.disk < |s.disks|
    && inc.start <= s.disks[inc.disk]
    && (forall k | |inc.start| <= k < |s.disks[inc.disk]| :: s.disks[inc.disk][k].writer == x)
    && (forall k | 0 <= k < |inc.start| :: inc.start[k].writer < x)
  }

  ghost predicate PastSaves(s: State, i: int)
    requires i in s.saved
  {
    s.saved[i] < |s.disks|
    && forall k | 0 <= k < |s.disks[s.saved[i]]| :: s.disks[s.saved[i]][k].writer < |s.incs|
  }

  /** Incarnations and saved persisters are kept apart. */
  ghost predicate StoresOk(s: State)
  {
    && (forall x | 0 <= x < |s.incs| :: IncOk(s, x))
    && (forall x, y | 0 <= x < y < |s.incs| :: s.incs[x].disk != s.incs[y].disk)
    && (forall i | i in s.saved :: PastSaves(s, i))
    && (forall i, j | i in s.saved && j in s.saved && i != j :: s.saved[i] != s.saved[j])
  }

  /** No incarnation has been booted on the saved persister. */
  ghost predicate Unowned(s: State, i: int)
  {
    i in s.saved && forall x | 0 <= x < |s.incs| :: s.incs[x].disk != s.saved[i]
  }

  /** The saved persister is that of this incarnation, which is the last one of the server. */
  ghost predicate Current(s: State, i: int, x: nat)
  {
    && x < |s.incs| && s.incs[x].server == i && i in s.saved && s.saved[i] == s.incs[x].disk
    && forall y | x < y < |s.incs| :: s.incs[y].server != i
  }

  ghost predicate CallOk(s: State, call: HarnessCall)
  {
    match call
    case Deleting(_) => true
    case Copying(i) => i !in s.servers
    case Renewing(i) => i !in s.servers
    case Booting(i) => i !in s.servers && Unowned(s, i)
    case Adding(i, x) => i !in s.servers && Current(s, i, x)
    case Ended(_) => true
  }

  /** Every server in the network is current, and so is what the harness is doing; no two of its
      calls are about the same server, and at most one has the lock. */
  ghost predicate HarnessOk(s: State)
  {
    && (forall i | i in s.servers :: Current(s, i, s.servers[i]))
    && (forall c | 0 <= c < |s.calls| :: CallOk(s, s.calls[c]))
    && Exclusive(s.calls, s.locked)
  }

  ghost predicate Exclusive(calls: seq<HarnessCall>, locked: bool)
  {
    && (forall c, d | 0 <= c < d < |calls| && !calls[c].Ended? && !calls[d].Ended? ::
          calls[c].server != calls[d].server)
    && (forall c, d | 0 <= c < d < |calls| :: !(Holds(calls[c]) && Holds(calls[d])))
    && (forall c | 0 <= c < |calls| && Holds(calls[c]) :: locked)
  }

  // ----- every step keeps persisters apart -----

  lemma WriteKeepsStores(s: State, inst: nat, save: Save)
    requires StoresOk(s) && HasDisk(s, inst)
    ensures StoresOk(WriteDisk(s, inst, save))
  {
    var s' := WriteDisk(s, inst, save);
    forall x | 0 <= x < |s.incs|
      ensures IncOk(s', x)
    {
      assert IncOk(s, x);
    }
    forall i | i in s.saved
      ensures PastSaves(s', i)
    {
      assert PastSaves(s, i);
    }
  }

  lemma SupersedeKeepsStores(s: State, i: int, d: Disk)
    requires StoresOk(s) && forall k | 0 <= k < |d| :: d[k].writer < |s.incs|
    ensures StoresOk(Supersede(s, i, d)) && Unowned(Supersede(s, i, d), i)
  {
    var s' := Supersede(s, i, d);
    forall x | 0 <= x < |s.incs|
      ensures IncOk(s', x) && s.incs[x].disk < |s.disks|
    {
      assert IncOk(s, x);
    }
    forall j | j in s'.saved
      ensures PastSaves(s', j)
    {
      assert j != i ==> PastSaves(s, j);
    }
  }

  lemma BootKeepsStores(s: State, i: int)
    requires StoresOk(s) && Unowned(s, i)
    ensures s.saved[i] < |s.disks| && StoresOk(Boot(s, i)) && Current(Boot(s, i), i, |s.incs|)
  {
    assert PastSaves(s, i);
    var s' := Boot(s, i);
    forall x | 0 <= x < |s'.incs|
      ensures IncOk(s', x)
    {
      assert x < |s.incs| ==> IncOk(s, x);
    }
    forall j | j in s.saved
      ensures PastSaves(s', j)
    {
      assert PastSaves(s, j);
    }
  }

  lemma SameKeepsStores(s: State, s': State)
    requires StoresOk(s) && s'.incs == s.incs && s'.disks == s.disks && s'.saved == s.saved
    ensures StoresOk(s')
  {
    assert forall x | 0 <= x < |s.incs| :: IncOk(s, x) ==> IncOk(s', x);
    assert forall i | i in s.saved :: PastSaves(s, i) ==> PastSaves(s', i);
  }

  lemma EffectKeepsStores(s: State, call: HarnessCall)
    requires StoresOk(s) && CallOk(s, call) && CallEnabled(s, call)
    ensures StoresOk(CallEffect(s, call)) && CallOk(CallEffect(s, call), NextCall(s, call))
  {
    hide StoresOk, PastSaves, Unowned, Current;
    match call {
      case Copying(i) =>
        if i in s.saved {
          SavedIsPast(s, i);
          SupersedeKeepsStores(s, i, s.disks[s.saved[i]]);
        }
      case Renewing(i) =>
        if i in s.saved {
          SavedIsPast(s, i);
        }
        SupersedeKeepsStores(s, i, if i in s.saved then s.disks[s.saved[i]] else []);
      case Booting(i) => BootKeepsStores(s, i);
      case Deleting(_) => SameKeepsStores(s, CallEffect(s, call));
      case Adding(_, _) => SameKeepsStores(s, CallEffect(s, call));
      case Ended(_) =>
    }
  }

  lemma SavedIsPast(s: State, i: int)
    requires StoresOk(s) && i in s.saved
    ensures s.saved[i] < |s.disks|
    ensures forall k | 0 <= k < |s.disks[s.saved[i]]| :: s.disks[s.saved[i]][k].writer < |s.incs|
  {
    assert PastSaves(s, i);
  }

  /** What a call does to one server changes nothing for another. */
  lemma EffectIsLocal(s: State, call: HarnessCall, j: int, x: nat)
    requires StoresOk(s) && CallEnabled(s, call) && call.server != j
    ensures j in CallEffect(s, call).servers <==> j in s.servers
    ensures j in s.servers ==> CallEffect(s, call).servers[j] == s.servers[j]
    ensures Current(s, j, x) ==> Current(CallEffect(s, call), j, x)
    ensures Unowned(s, j) ==> Unowned(CallEffect(s, call), j)
  {
    hide IncOk, PastSaves;
  }

  lemma EffectKeepsServers(s: State, call: HarnessCall)
    requires StoresOk(s) && HarnessOk(s) && CallOk(s, call) && CallEnabled(s, call)
    ensures var e := CallEffect(s, call); forall i | i in e.servers :: Current(e, i, e.servers[i])
  {
    hide StoresOk, Current, Exclusive;
    var e := CallEffect(s, call);
    forall i | i in e.servers
      ensures Current(e, i, e.servers[i])
    {
      if i != call.server {
        EffectIsLocal(s, call, i, e.servers[i]);
      } else {
        OwnServer(s, call);
      }
    }
  }

  lemma OwnServer(s: State, call: HarnessCall)
    requires CallOk(s, call) && CallEnabled(s, call)
    ensures call.server in CallEffect(s, call).servers ==>
              && Current(s, call.server, CallEffect(s, call).servers[call.server])
              && Current(CallEffect(s, call), call.server, CallEffect(s, call).servers[call.server])
  {
  }

  lemma EffectKeepsOthers(s: State, call: HarnessCall, other: HarnessCall)
    requires StoresOk(s) && CallEnabled(s, call) && CallOk(s, other) && (other.Ended? || other.server != call.server)
    ensures CallOk(CallEffect(s, call), other)
  {
    hide StoresOk, CallEffect, Current, Unowned;
    if !other.Ended? {
      EffectIsLocal(s, call, other.server, if other.Adding? then other.inst else 0);
    }
  }

  lemma SameCallOk(s: State, s': State, call: HarnessCall)
    requires s'.incs == s.incs && s'.saved == s.saved && s'.servers == s.servers
    ensures CallOk(s', call) <==> CallOk(s, call)
    ensures forall i, x: nat :: Current(s', i, x) <==> Current(s, i, x)
  {
  }

  lemma NextIsExclusive(s: State, c: nat)
    requires c < |s.calls| && CallEnabled(s, s.calls[c]) && Exclusive(s.calls, s.locked)
    ensures Exclusive(DoCall(s, c).calls, DoCall(s, c).locked)
  {
    hide CallEffect;
  }

  lemma CallKeepsHarness(s: State, c: nat)
    requires StoresOk(s) && HarnessOk(s) && c < |s.calls| && CallEnabled(s, s.calls[c])
    ensures StoresOk(DoCall(s, c)) && HarnessOk(DoCall(s, c))
  {
    hide StoresOk, Current, CallEffect, NextCall, Exclusive, CallOk, Holds;
    var call := s.calls[c];
    var e, s' := CallEffect(s, call), DoCall(s, c);
    EffectFrame(s, call);
    EffectKeepsStores(s, call);
    SameKeepsStores(e, s');
    EffectKeepsServers(s, call);
    NextIsExclusive(s, c);
    SameCallOk(e, s', call);
    forall d | 0 <= d < |s'.calls|
      ensures CallOk(s', s'.calls[d])
    {
      if d != c {
        if !s.calls[d].Ended? {
          DifferentServers(s.calls, s.locked, c, d);
        }
        EffectKeepsOthers(s, call, s.calls[d]);
      }
      SameCallOk(e, s', s'.calls[d]);
    }
  }

  lemma DifferentServers(calls: seq<HarnessCall>, locked: bool, c: nat, d: nat)
    requires Exclusive(calls, locked) && c < |calls| && d < |calls| && c != d
    requires !calls[c].Ended? && !calls[d].Ended?
    ensures calls[c].server != calls[d].server
  {
  }

  /** Beginning a call under the rules: no other call is about this server, for a start must not be
      under way and a shutdown would have the lock. */
  lemma BeginKeepsHarness(s: State, step: Step)
    requires StoresOk(s) && HarnessOk(s) && Enabled(s, step) && Obeys(ALL_RULES, s, step)
    requires step.BeginShutdown? || step.BeginStart?
    ensures StoresOk(Do(s, step)) && HarnessOk(Do(s, step))
  {
    hide StoresOk, Current, Unowned;
    var s' := Do(s, step);
    SameKeepsStores(s, s');
    forall d | 0 <= d < |s.calls|
      ensures CallOk(s', s.calls[d])
      ensures s.calls[d].Ended? || s.calls[d].server != step.i
    {
      SameCallOk(s, s', s.calls[d]);
      assert Starts(s.calls[d]) || Holds(s.calls[d]) || s.calls[d].Ended?;
    }
    forall i | i in s.servers
      ensures Current(s', i, s.servers[i])
    {
      SameCallOk(s, s', Deleting(0));
    }
  }

  lemma SameKeepsHarness(s: State, s': State)
    requires HarnessOk(s) && s'.incs == s.incs && s'.saved == s.saved && s'.servers == s.servers
    requires s'.calls == s.calls && s'.locked == s.locked
    ensures HarnessOk(s')
  {
    hide Current, Exclusive;
    forall c | 0 <= c < |s.calls|
      ensures CallOk(s', s.calls[c])
    {
      SameCallOk(s, s', s.calls[c]);
    }
    SameCallOk(s, s', Deleting(0));
  }

  lemma RequestKeepsHarness(s: State, r: nat, step: RequestStep)
    requires StoresOk(s) && HarnessOk(s) && r < |s.reqs| && RequestEnabled(s, s.reqs[r], step)
    ensures StoresOk(DoRequest(s, r, step)) && HarnessOk(DoRequest(s, r, step))
  {
    hide StoresOk, HarnessOk, Next, Sends;
    var s' := DoRequest(s, r, step);
    if step.HandlerSave? {
      WriteKeepsStores(s, s.reqs[r].handler.inst, step.save);
      SameKeepsStores(WriteDisk(s, s.reqs[r].handler.inst, step.save), s');
    } else {
      SameKeepsStores(s, s');
    }
    SameKeepsHarness(s, s');
  }

  /** Under the rules every step keeps persisters apart, and the saved one with the running server. */
  lemma StepKeepsHarness(s: State, step: Step)
    requires StoresOk(s) && HarnessOk(s) && Enabled(s, step) && Obeys(ALL_RULES, s, step)
    ensures StoresOk(Do(s, step)) && HarnessOk(Do(s, step))
  {
    hide StoresOk, HarnessOk, DoRequest, DoCall, RequestEnabled, CallEnabled;
    match step {
      case OnRequest(r, request) => RequestKeepsHarness(s, r, request);
      case Advance(c) => CallKeepsHarness(s, c);
      case BeginShutdown(_) => BeginKeepsHarness(s, step);
      case BeginStart(_) => BeginKeepsHarness(s, step);
      case BackgroundSave(inst, save) =>
        WriteKeepsStores(s, inst, save);
        SameKeepsHarness(s, Do(s, step));
      case _ =>
        SameKeepsStores(s, Do(s, step));
        SameKeepsHarness(s, Do(s, step));
    }
  }

  // ----- acknowledged work -----

  /** Everything that the handler's persister held when it returned is part of what is saved for the
      server now, and of what every later incarnation was started from. */
  ghost predicate Kept(s: State, log: Disk, route: Route)
  {
    && route.name in s.saved && s.saved[route.name] < |s.disks| && log <= s.disks[s.saved[route.name]]
    && forall y | route.inst < y < |s.incs| && s.incs[y].server == route.name :: log <= s.incs[y].start
  }

  /** The work of every request that has been found alive after its handler returned is kept. */
  ghost predicate WorkOk(s: State, q: Request)
  {
    match q.waiter
    case Alive(route) => q.handler.Finished? && Kept(s, q.handler.log, route)
    case Delayed(route) => q.handler.Finished? && Kept(s, q.handler.log, route)
    case Replied(ok, to) => ok ==> to.Some? && q.handler.Finished? && Kept(s, q.handler.log, to.value)
    case _ => true
  }

  ghost predicate AllWorkOk(s: State)
  {
    forall r | 0 <= r < |s.reqs| :: WorkOk(s, s.reqs[r])
  }

  /** The heart of the restart guarantee. If the last check finds the server alive, then no restart
      has superseded the persister that its handler has written to: the saved persister is still
      that one, and there is no later incarnation. */
  lemma AliveIsKept(s: State, q: Request, route: Route)
    requires StoresOk(s) && HarnessOk(s) && HandlerOk(s, q) && Returned(s, q, route)
    requires !IsServerDead(s, q.endname, route)
    ensures Kept(s, q.handler.log, route)
  {
    assert Current(s, route.name, route.inst);
  }

  lemma LaterKeepsWork(s: State, s': State, q: Request)
    requires Later(s, s') && WorkOk(s, q)
    ensures WorkOk(s', q)
  {
  }

  lemma NextKeepsWork(s: State, q: Request, step: RequestStep)
    requires StoresOk(s) && HarnessOk(s) && HandlerOk(s, q) && WaiterOk(s, q) && WorkOk(s, q)
    requires RequestEnabled(s, q, step)
    ensures WorkOk(s, Next(s, q, step))
  {
    hide StoresOk, HarnessOk, HandlerOk, Kept;
    if step.FinalCheck? && q.waiter.GotReply? && !IsServerDead(s, q.endname, q.waiter.route) {
      AliveIsKept(s, q, q.waiter.route);
    }
  }

  lemma StepKeepsWork(s: State, step: Step)
    requires StoresOk(s) && HarnessOk(s) && RequestsOk(s) && AllWorkOk(s) && Enabled(s, step)
    ensures AllWorkOk(Do(s, step))
  {
    hide StoresOk, HarnessOk, HandlerOk, WaiterOk, WorkOk, Later, Next, DoRequest, DoCall, WriteDisk,
        RequestEnabled, CallEnabled;
    var s' := Do(s, step);
    StepIsLater(s, step);
    forall r | 0 <= r < |s'.reqs|
      ensures WorkOk(s', s'.reqs[r])
    {
      OtherRequestsStay(s, step, r);
      if step.OnRequest? && r == step.r {
        NextKeepsWork(s, s.reqs[r], step.request);
        LaterKeepsWork(s, s', s'.reqs[r]);
      } else if r < |s.reqs| {
        LaterKeepsWork(s, s', s.reqs[r]);
      } else {
        NewWorkOk(s', s'.reqs[r].endname);
      }
    }
  }

  lemma NewWorkOk(s: State, endname: int)
    ensures WorkOk(s, Request(endname, Queued, NotStarted, []))
  {
  }

  lemma InitialWorkOk()
    ensures StoresOk(INITIAL) && HarnessOk(INITIAL) && AllWorkOk(INITIAL)
  {
  }

  lemma {:induction false} RunKeepsWork(run: seq<State>, steps: seq<Step>, k: nat)
    requires IsRunUnder(ALL_RULES, run, steps) && k < |run|
    ensures StoresOk(run[k]) && HarnessOk(run[k]) && AllWorkOk(run[k])
  {
    hide StoresOk, HarnessOk, AllWorkOk, RequestsOk, AnswersOk, Sane, Do, Enabled, Obeys;
    InitialWorkOk();
    if k > 0 {
      RunKeepsWork(run, steps, k - 1);
      RunIsOk(run, steps, k - 1);
      StepKeepsHarness(run[k - 1], steps[k - 1]);
      StepKeepsWork(run[k - 1], steps[k - 1]);
    }
  }

  /** The acknowledged saves are part of `d`, in the order and at the places where they were made. */
  ghost predicate HoldsSaves(d: Disk, writer: nat, saves: seq<SavedAt>)
  {
    forall n | 0 <= n < |saves| :: saves[n].pos < |d| && d[saves[n].pos] == LogEntry(writer, saves[n].save)
  }

  /** Acknowledged work survives restart: once a call has been answered positively, everything that
      its handler had saved before it returned is, at any later time, on the persister that the
      server would be restarted from, and on the one that every later incarnation of the server was
      started from. */
  lemma AcknowledgedWorkSurvives(run: seq<State>, steps: seq<Step>, k: nat, m: nat, r: nat)
    requires IsRunUnder(ALL_RULES, run, steps) && k <= m < |run|
    requires r < |run[k].reqs| && run[k].reqs[r].waiter.Replied? && run[k].reqs[r].waiter.ok
    ensures run[k].reqs[r].waiter.to.Some? && run[k].reqs[r].handler.Finished?
    ensures var q, route := run[k].reqs[r], run[k].reqs[r].waiter.to.value;
            && q.handler.inst == route.inst
            && (route.name in run[m].saved && run[m].saved[route.name] < |run[m].disks|)
            && HoldsSaves(run[m].disks[run[m].saved[route.name]], route.inst, q.saves)
            && (forall y | route.inst < y < |run[m].incs| && run[m].incs[y].server == route.name ::
                  q.handler.log <= run[m].incs[y].start && HoldsSaves(run[m].incs[y].start, route.inst, q.saves))
  {
    hide StoresOk, HarnessOk, AnswersOk, Sane, IsRun;
    RunIsOk(run, steps, k);
    AnsweredIsFinal(run, steps, k, m, r);
    RunIsOk(run, steps, m);
    RunKeepsWork(run, steps, m);
    assert HandlerOk(run[m], run[m].reqs[r]) && WaiterOk(run[m], run[m].reqs[r]) && WorkOk(run[m], run[m].reqs[r]);
  }

  /** The persister of an incarnation holds what the incarnation was started from, and nothing
      after it but its own saves: saves of superseded incarnations never reach it. */
  lemma OldSavesStayOut(run: seq<State>, steps: seq<Step>, k: nat, y: nat)
    requires IsRunUnder(ALL_RULES, run, steps) && k < |run| && y < |run[k].incs|
    ensures run[k].incs[y].disk < |run[k].disks|
    ensures var d := run[k].disks[run[k].incs[y].disk];
            && run[k].incs[y].start <= d
            && forall p | 0 <= p < |d| :: d[p].writer == y <==> p >= |run[k].incs[y].start|
  {
    hide HarnessOk, AllWorkOk, IsRun;
    RunKeepsWork(run, steps, k);
    assert IncOk(run[k], y);
  }

  // ----- what a restarted server reads -----

  /** The saves of a disk, as its persister sees them. */
  function Saves(d: Disk): seq<Save>
  {
    seq(|d|, k requires 0 <= k < |d| => d[k].save)
  }

  /** What a restarted server reads is the acknowledged state, unless something was saved after it. */
  lemma LastSaveIsRead(d: Disk, writer: nat, saves: seq<SavedAt>, n: nat)
    requires HoldsSaves(d, writer, saves) && n < |saves| && saves[n].pos == |d| - 1
    ensures Replay(Saves(d)).raftstate == saves[n].save.raftstate
    ensures saves[n].save.SaveBoth? ==> Replay(Saves(d)).snapshot == saves[n].save.snapshot
  {
    ReplaySnoc(Saves(d[..|d| - 1]), saves[n].save);
    assert Saves(d) == Saves(d[..|d| - 1]) + [saves[n].save];
  }
}
