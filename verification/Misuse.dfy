/** Why the harness has to be used as it demands, and why a shutdown deletes the server first: after any
    breach of a rule, or with the copy made first, the run can go on to acknowledge a save and lose it. */
module Misuse {
  import opened Persister
  import opened Labrpc
  import opened Options
  import opened Restart
  import opened Rpc

  // ----- runs from one state to another -----

  /** The step obeys the rules in force, and connects no endpoint a second time. */
  predicate Proper(rules: Rules, s: State, step: Step)
  {
    Obeys(rules, s, step) && (step.Connect? ==> step.endname !in s.connections)
  }

  ghost predicate IsPath(rules: Rules, run: seq<State>, steps: seq<Step>)
  {
    && |run| == |steps| + 1
    && forall k | 0 <= k < |steps| ::
         Enabled(run[k], steps[k]) && run[k + 1] == Do(run[k], steps[k]) && Proper(rules, run[k], steps[k])
  }

  ghost predicate Leads(rules: Rules, from: State, to: State)
  {
    exists run, steps :: IsPath(rules, run, steps) && run[0] == from && run[|run| - 1] == to
  }

  lemma LeadsToItself(rules: Rules, s: State)
    ensures Leads(rules, s, s)
  {
    assert IsPath(rules, [s], []);
    assert [s][0] == s && [s][|[s]| - 1] == s;
  }

  lemma LeadsOn(rules: Rules, from: State, s: State, step: Step, to: State)
    requires Leads(rules, from, s) && Enabled(s, step) && Proper(rules, s, step) && Do(s, step) == to
    ensures Leads(rules, from, to)
  {
    hide Enabled, Do, Proper;
    var run, steps :| IsPath(rules, run, steps) && run[0] == from && run[|run| - 1] == s;
    var longer := run + [to];
    assert IsPath(rules, longer, steps + [step]);
    assert longer[0] == from && longer[|longer| - 1] == to;
  }

  lemma {:induction false} LeadsAlong(rules: Rules, from: State, run: seq<State>, steps: seq<Step>)
    requires IsPath(rules, run, steps) && Leads(rules, from, run[0])
    ensures Leads(rules, from, run[|run| - 1])
  {
    hide Enabled, Do, Proper, Leads;
    if steps != [] {
      var n := |steps| - 1;
      LeadsAlong(rules, from, run[..n + 1], steps[..n]);
      LeadsOn(rules, from, run[n], steps[n], run[n + 1]);
    }
  }

  lemma LeadsThrough(rules: Rules, from: State, s: State, to: State)
    requires Leads(rules, from, s) && Leads(rules, s, to)
    ensures Leads(rules, from, to)
  {
    hide Enabled, Do, Proper;
    var run, steps :| IsPath(rules, run, steps) && run[0] == s && run[|run| - 1] == to;
    LeadsAlong(rules, from, run, steps);
  }

  // ----- a call that is answered although its save is lost -----

  /** A request has been answered positively, and one of its saves is not on the persister that its
      server would be restarted from. */
  ghost predicate Loses(s: State, save: Save)
  {
    exists r, route, n ::
      && 0 <= r < |s.reqs| && s.reqs[r].waiter == Replied(true, Some(route))
      && 0 <= n < |s.reqs[r].saves| && s.reqs[r].saves[n].save == save
      && !IsSaved(s, route, s.reqs[r].saves[n])
  }

  ghost predicate IsSaved(s: State, route: Route, at: SavedAt)
  {
    && route.name in s.saved && s.saved[route.name] < |s.disks|
    && HoldsSaves(s.disks[s.saved[route.name]], route.inst, [at])
  }

  /** The incarnation in the network does not save to the saved persister any more. */
  ghost predicate Exposed(s: State, i: int, x: nat)
  {
    && i in s.servers && s.servers[i] == x && HasDisk(s, x)
    && i in s.saved && s.saved[i] < |s.disks| && s.saved[i] != s.incs[x].disk
    && |s.disks[s.saved[i]]| <= |s.disks[s.incs[x].disk]|
  }

  /** The same state, but endpoint `e` is enabled and leads to server `i`. */
  function Opened(s: State, e: int, i: int): State
  {
    s.(enabled := s.enabled[e := true], connections := s.connections[e := i])
  }

  /** And there is one more request, which has been dispatched and may have saved something. */
  function Served(s: State, e: int, i: int, x: nat, disk: Disk, q: Request, replies: seq<Reply>): State
    requires HasDisk(s, x)
  {
    Opened(s, e, i).(disks := s.disks[s.incs[x].disk := disk], reqs := s.reqs + [q], replies := replies,
    dispatches := s.dispatches + [|s.reqs|])
  }

  function RouteTo(s: State, i: int, x: nat): Route
  {
    Route(i, x, s.reliable, s.longReordering)
  }

  lemma UpdateLast<T>(s: seq<T>, a: T, b: T)
    ensures (s + [a])[|s| := b] == s + [b]
  {
  }

  lemma Sent(s: State, e: int, i: int, x: nat)
    requires Exposed(s, i, x)
    ensures var called := Opened(s, e, i).(reqs := s.reqs + [Request(e, Queued, NotStarted, [])]);
            && RequestEnabled(called, called.reqs[|s.reqs|], ReadInfo)
            && DoRequest(called, |s.reqs|, ReadInfo)
            == Opened(s, e, i).(reqs := s.reqs + [Request(e, Serving(RouteTo(s, i, x)), NotStarted, [])])
  {
    UpdateLast(s.reqs, Request(e, Queued, NotStarted, []), Request(e, Serving(RouteTo(s, i, x)), NotStarted, []));
  }

  lemma Dispatched(s: State, e: int, i: int, x: nat)
    requires Exposed(s, i, x)
    ensures var route := RouteTo(s, i, x);
            var sent := Opened(s, e, i).(reqs := s.reqs + [Request(e, Serving(route), NotStarted, [])]);
            && RequestEnabled(sent, sent.reqs[|s.reqs|], Dispatch)
            && DoRequest(sent, |s.reqs|, Dispatch)
            == Served(s, e, i, x, s.disks[s.incs[x].disk], Request(e, Waiting(route), Running(x), []), s.replies)
  {
    var route := RouteTo(s, i, x);
    UpdateLast(s.reqs, Request(e, Serving(route), NotStarted, []), Request(e, Waiting(route), Running(x), []));
  }

  lemma RequestServed(rules: Rules, s: State, e: int, i: int, x: nat)
    requires Exposed(s, i, x) && e !in s.connections
    ensures var q := Request(e, Waiting(RouteTo(s, i, x)), Running(x), []);
            Leads(rules, s, Served(s, e, i, x, s.disks[s.incs[x].disk], q, s.replies))
  {
    hide Leads, DoRequest, RequestEnabled, Exposed;
    LeadsToItself(rules, s);
    var enabled := s.(enabled := s.enabled[e := true]);
    LeadsOn(rules, s, s, Enable(e, true), enabled);
    LeadsOn(rules, s, enabled, Connect(e, i), Opened(s, e, i));
    var called := Opened(s, e, i).(reqs := s.reqs + [Request(e, Queued, NotStarted, [])]);
    LeadsOn(rules, s, Opened(s, e, i), Call(e), called);
    Sent(s, e, i, x);
    var sent := Opened(s, e, i).(reqs := s.reqs + [Request(e, Serving(RouteTo(s, i, x)), NotStarted, [])]);
    LeadsOn(rules, s, called, OnRequest(|s.reqs|, ReadInfo), sent);
    Dispatched(s, e, i, x);
    LeadsOn(rules, s, sent, OnRequest(|s.reqs|, Dispatch), DoRequest(sent, |s.reqs|, Dispatch));
  }

  /** One step of the last request, which touches nothing else. */
  lemma LastRequestMoves(s: State, e: int, i: int, x: nat, disk: Disk, q: Request, replies: seq<Reply>,
          step: RequestStep)
    requires HasDisk(s, x)
    requires step.HandlerReturn? || step.TakeReply? || step.FinalCheck? || step.SendReply?
    requires RequestEnabled(Served(s, e, i, x, disk, q, replies), q, step)
    ensures var t := Served(s, e, i, x, disk, q, replies);
            DoRequest(t, |s.reqs|, step)
            == Served(s, e, i, x, disk, Next(t, q, step),
                      if step.SendReply? then replies + [Reply(|s.reqs|, true)] else replies)
  {
    hide Next, RequestEnabled;
    var t := Served(s, e, i, x, disk, q, replies);
    UpdateLast(s.reqs, q, Next(t, q, step));
  }

  lemma LastRequestSaves(s: State, e: int, i: int, x: nat, q: Request, save: Save)
    requires HasDisk(s, x) && q.handler == Running(x)
    ensures var disk := s.disks[s.incs[x].disk];
            var t := Served(s, e, i, x, disk, q, s.replies);
            && RequestEnabled(t, q, HandlerSave(save))
            && DoRequest(t, |s.reqs|, HandlerSave(save))
            == Served(s, e, i, x, disk + [LogEntry(x, save)], q.(saves := q.saves + [SavedAt(|disk|, save)]), s.replies)
  {
    var disk := s.disks[s.incs[x].disk];
    UpdateLast(s.reqs, q, q.(saves := q.saves + [SavedAt(|disk|, save)]));
  }

  /** The handler saves to its old persister and returns. */
  lemma HandlerRuns(rules: Rules, s: State, e: int, i: int, x: nat, save: Save)
    requires Exposed(s, i, x) && e !in s.connections
    ensures var disk := s.disks[s.incs[x].disk] + [LogEntry(x, save)];
            var at := SavedAt(|disk| - 1, save);
            var q := Request(e, Waiting(RouteTo(s, i, x)), Finished(x, disk), [at]);
            Leads(rules, s, Served(s, e, i, x, disk, q, s.replies))
  {
    hide Leads, DoRequest, RequestEnabled;
    var disk := s.disks[s.incs[x].disk];
    var longer := disk + [LogEntry(x, save)];
    var q0 := Request(e, Waiting(RouteTo(s, i, x)), Running(x), []);
    var q1 := q0.(saves := [SavedAt(|disk|, save)]);
    assert q0.saves + [SavedAt(|disk|, save)] == q1.saves;
    RequestServed(rules, s, e, i, x);
    LastRequestSaves(s, e, i, x, q0, save);
    var s0, s1 := Served(s, e, i, x, disk, q0, s.replies), Served(s, e, i, x, longer, q1, s.replies);
    LeadsOn(rules, s, s0, OnRequest(|s.reqs|, HandlerSave(save)), s1);
    MayReturn(s1, q1, x);
    LastRequestMoves(s, e, i, x, longer, q1, s.replies, HandlerReturn);
    LeadsOn(rules, s, s1, OnRequest(|s.reqs|, HandlerReturn), DoRequest(s1, |s.reqs|, HandlerReturn));
  }

  lemma MayReturn(s: State, q: Request, x: nat)
    requires HasDisk(s, x) && q.handler == Running(x)
    ensures RequestEnabled(s, q, HandlerReturn)
    ensures Next(s, q, HandlerReturn) == q.(handler := Finished(x, s.disks[s.incs[x].disk]))
  {
  }

  /** What is left to do for a request whose handler has returned. */
  lemma MayAnswer(s: State, q: Request, route: Route)
    requires q.waiter == Waiting(route) && q.handler.Finished? && !IsServerDead(s, q.endname, route)
    ensures var q1, q2 := q.(waiter := GotReply(route)), q.(waiter := Alive(route));
            && RequestEnabled(s, q, TakeReply) && Next(s, q, TakeReply) == q1
            && RequestEnabled(s, q1, FinalCheck) && Next(s, q1, FinalCheck) == q2
            && RequestEnabled(s, q2, SendReply) && Next(s, q2, SendReply) == q.(waiter := Replied(true, Some(route)))
  {
  }

  /** The network takes the reply, finds the server alive and answers. */
  lemma WaiterAnswers(rules: Rules, s: State, e: int, i: int, x: nat, disk: Disk, q: Request)
    requires Exposed(s, i, x) && q.endname == e && q.waiter == Waiting(RouteTo(s, i, x)) && q.handler.Finished?
    requires Leads(rules, s, Served(s, e, i, x, disk, q, s.replies))
    ensures Leads(rules, s, Served(s, e, i, x, disk, q.(waiter := Replied(true, Some(RouteTo(s, i, x)))),
                                   s.replies + [Reply(|s.reqs|, true)]))
  {
    hide Leads, DoRequest, RequestEnabled, Next;
    var route, r := RouteTo(s, i, x), |s.reqs|;
    var q1, q2 := q.(waiter := GotReply(route)), q.(waiter := Alive(route));
    var s0, s1 := Served(s, e, i, x, disk, q, s.replies), Served(s, e, i, x, disk, q1, s.replies);
    var s2 := Served(s, e, i, x, disk, q2, s.replies);
    MayAnswer(s0, q, route);
    LastRequestMoves(s, e, i, x, disk, q, s.replies, TakeReply);
    LeadsOn(rules, s, s0, OnRequest(r, TakeReply), s1);
    MayAnswer(s1, q, route);
    LastRequestMoves(s, e, i, x, disk, q1, s.replies, FinalCheck);
    LeadsOn(rules, s, s1, OnRequest(r, FinalCheck), s2);
    MayAnswer(s2, q, route);
    LastRequestMoves(s, e, i, x, disk, q2, s.replies, SendReply);
    LeadsOn(rules, s, s2, OnRequest(r, SendReply), DoRequest(s2, r, SendReply));
  }

  lemma {:induction false} UpperBound(s: set<int>) returns (b: int)
    ensures forall x :: x in s ==> x < b
  {
    if x :| x in s {
      var rest := s - {x};
      b := UpperBound(rest);
      assert forall y :: y in s ==> y == x || y in rest;
      b := if x < b then b else x + 1;
    } else {
      b := 0;
    }
  }

  /** Whatever else has happened: once the incarnation in the network does not save to the saved
      persister, one more call, through a new endpoint, is answered positively and its save is lost. */
  lemma ExposedLoses(rules: Rules, s: State, i: int, x: nat, save: Save) returns (to: State)
    requires Exposed(s, i, x)
    ensures Leads(rules, s, to) && Loses(to, save)
  {
    hide Leads;
    var e := UpperBound(s.connections.Keys);
    assert e !in s.connections;
    var route := RouteTo(s, i, x);
    var disk := s.disks[s.incs[x].disk] + [LogEntry(x, save)];
    var at := SavedAt(|disk| - 1, save);
    var q := Request(e, Waiting(route), Finished(x, disk), [at]);
    HandlerRuns(rules, s, e, i, x, save);
    WaiterAnswers(rules, s, e, i, x, disk, q);
    to := Served(s, e, i, x, disk, q.(waiter := Replied(true, Some(route))), s.replies + [Reply(|s.reqs|, true)]);
    assert to.reqs[|s.reqs|].saves[0] == at;
    assert !HoldsSaves(to.disks[to.saved[i]], x, [at]) by {
      assert [at][0].pos >= |to.disks[to.saved[i]]|;
    }
    assert !IsSaved(to, route, to.reqs[|s.reqs|].saves[0]);
  }

  // ----- every breach of a rule exposes a server -----

  function SavedDisk(s: State, i: int): Disk
  {
    if i in s.saved && s.saved[i] < |s.disks| then s.disks[s.saved[i]] else []
  }

  /** `t` is `s` after call `c` has moved on to `next`. */
  predicate Moved(s: State, t: State, c: nat, next: HarnessCall)
  {
    c < |s.calls| && t.calls == s.calls[c := next] && t.connections == s.connections
  }

  lemma Renewed(s: State, c: nat, i: int)
    requires c < |s.calls| && s.calls[c] == Renewing(i) && CallEnabled(s, s.calls[c])
    ensures var t := DoCall(s, c);
            && Moved(s, t, c, Booting(i)) && t.incs == s.incs && t.servers == s.servers
            && t.disks == s.disks + [SavedDisk(s, i)] && t.saved == s.saved[i := |s.disks|]
  {
  }

  lemma Copied(s: State, c: nat, i: int)
    requires c < |s.calls| && s.calls[c] == Copying(i) && CallEnabled(s, s.calls[c]) && i in s.saved
    ensures var t := DoCall(s, c);
            && Moved(s, t, c, Ended(i)) && t.incs == s.incs && t.servers == s.servers
            && t.disks == s.disks + [SavedDisk(s, i)] && t.saved == s.saved[i := |s.disks|]
  {
  }

  lemma Deleted(s: State, c: nat, i: int)
    requires c < |s.calls| && s.calls[c] == Deleting(i)
    ensures CallEnabled(s, s.calls[c])
    ensures var t := DoCall(s, c);
            && Moved(s, t, c, Copying(i)) && t.incs == s.incs && t.disks == s.disks && t.saved == s.saved
  {
  }

  lemma Booted(s: State, c: nat, i: int)
    requires c < |s.calls| && s.calls[c] == Booting(i) && CallEnabled(s, s.calls[c])
    ensures var t := DoCall(s, c);
            && Moved(s, t, c, Adding(i, |s.incs|)) && t.disks == s.disks && t.saved == s.saved
            && t.incs == s.incs + [Incarnation(i, s.saved[i], s.disks[s.saved[i]])]
  {
  }

  lemma Added(s: State, c: nat, i: int, x: nat)
    requires c < |s.calls| && s.calls[c] == Adding(i, x)
    ensures CallEnabled(s, s.calls[c])
    ensures var t := DoCall(s, c);
            && Moved(s, t, c, Ended(i)) && t.incs == s.incs && t.disks == s.disks && t.saved == s.saved
            && t.servers == s.servers[i := x]
  {
  }

  lemma Advances(from: State, s: State, c: nat)
    requires Leads(ALL_RULES, from, s) && c < |s.calls| && CallEnabled(s, s.calls[c])
    ensures Leads(ALL_RULES, from, DoCall(s, c))
  {
    hide Leads, DoCall, CallEnabled;
    LeadsOn(ALL_RULES, from, s, Advance(c), DoCall(s, c));
  }

  /** A start is about to add the incarnation that it has booted on the saved persister. */
  ghost predicate AboutToAdd(s: State, c: nat, i: int, x: nat)
  {
    c < |s.calls| && s.calls[c] == Adding(i, x) && HasDisk(s, x) && i in s.saved && s.saved[i] == s.incs[x].disk
  }

  lemma StartWhileUpExposes(from: State, s: State, c: nat, i: int, x: nat) returns (to: State)
    requires Leads(ALL_RULES, from, s) && c < |s.calls| && s.calls[c] == Renewing(i)
    requires i in s.servers && s.servers[i] == x && HasDisk(s, x) && i in s.saved && s.saved[i] == s.incs[x].disk
    ensures Leads(ALL_RULES, from, to) && Exposed(to, i, x)
  {
    hide Leads, DoCall;
    to := DoCall(s, c);
    Renewed(s, c, i);
    Advances(from, s, c);
  }

  /** Another call replaces the saved persister before the incarnation is added. */
  lemma ReplacedExposes(from: State, s: State, c: nat, d: nat, i: int, x: nat) returns (to: State)
    requires Leads(ALL_RULES, from, s) && AboutToAdd(s, c, i, x) && d < |s.calls|
    requires s.calls[d] == Renewing(i) || s.calls[d] == Copying(i)
    ensures Leads(ALL_RULES, from, to) && Exposed(to, i, x)
  {
    hide Leads, DoCall;
    if s.calls[d].Renewing? {
      Renewed(s, d, i);
    } else {
      Copied(s, d, i);
    }
    var t := DoCall(s, d);
    Advances(from, s, d);
    Added(t, c, i, x);
    Advances(from, t, c);
    to := DoCall(t, c);
  }

  lemma OverlapExposes(from: State, s: State, c: nat, d: nat, i: int, x: nat) returns (to: State)
    requires Leads(ALL_RULES, from, s) && AboutToAdd(s, c, i, x) && d < |s.calls|
    requires s.calls[d] == Renewing(i) || s.calls[d] == Deleting(i)
    ensures Leads(ALL_RULES, from, to) && Exposed(to, i, x)
  {
    hide Leads, DoCall;
    if s.calls[d].Renewing? {
      to := ReplacedExposes(from, s, c, d, i, x);
    } else {
      Deleted(s, d, i);
      Advances(from, s, d);
      to := ReplacedExposes(from, DoCall(s, d), c, d, i, x);
    }
  }

  /** A start that has not booted yet boots first. */
  lemma StartGoesOn(from: State, s: State, c: nat, d: nat, i: int) returns (t: State, x: nat)
    requires Leads(ALL_RULES, from, s) && c < |s.calls| && d < |s.calls| && c != d
    requires s.calls[c] == Booting(i) && i in s.saved && s.saved[i] < |s.disks|
    ensures Leads(ALL_RULES, from, t) && AboutToAdd(t, c, i, x) && d < |t.calls| && t.calls[d] == s.calls[d]
  {
    hide Leads, DoCall;
    Booted(s, c, i);
    Advances(from, s, c);
    t, x := DoCall(s, c), |s.incs|;
  }

  /** A step that breaks a rule, in a state that obeys them, can be continued without a further
      breach to a state in which a server saves to a superseded persister. */
  lemma BreachExposes(s: State, step: Step) returns (to: State, i: int, x: nat)
    requires Sane(s) && StoresOk(s) && HarnessOk(s) && Enabled(s, step) && !Obeys(ALL_RULES, s, step)
    ensures Leads(ALL_RULES, Do(s, step), to) && Exposed(to, i, x)
  {
    hide Leads, StoresOk, Sane, DoCall;
    var t, d := Do(s, step), |s.calls|;
    LeadsToItself(ALL_RULES, t);
    i := step.i;
    if step.BeginStart? && i in s.servers {
      x := s.servers[i];
      CurrentHasDisk(s, i, x);
      to := StartWhileUpExposes(t, t, d, i, x);
    } else {
      var c: nat :| c < |s.calls| && s.calls[c].server == i && Starts(s.calls[c]);
      assert CallOk(s, s.calls[c]);
      if s.calls[c].Adding? {
        x := s.calls[c].inst;
        CurrentHasDisk(s, i, x);
        to := OverlapExposes(t, t, c, d, i, x);
      } else {
        SaneSaved(s, i);
        var u;
        u, x := StartGoesOn(t, t, c, d, i);
        to := OverlapExposes(t, u, c, d, i, x);
      }
    }
  }

  lemma CurrentHasDisk(s: State, i: int, x: nat)
    requires Sane(s) && Current(s, i, x)
    ensures HasDisk(s, x) && i in s.saved && s.saved[i] == s.incs[x].disk
  {
  }

  lemma SaneSaved(s: State, i: int)
    requires Sane(s) && Unowned(s, i)
    ensures i in s.saved && s.saved[i] < |s.disks|
  {
  }

  // ----- exactly all rules keep acknowledged work safe -----

  lemma LeadsIsRun(rules: Rules, to: State) returns (run: seq<State>, steps: seq<Step>)
    requires Leads(rules, INITIAL, to)
    ensures IsRunUnder(rules, run, steps) && run[|run| - 1] == to
  {
    hide Enabled, Do, Obeys;
    run, steps :| IsPath(rules, run, steps) && run[0] == INITIAL && run[|run| - 1] == to;
    assert forall k | 0 <= k < |steps| :: Proper(rules, run[k], steps[k]);
  }

  lemma RulesKeep(s: State, save: Save)
    requires Leads(ALL_RULES, INITIAL, s)
    ensures Sane(s) && StoresOk(s) && HarnessOk(s) && !Loses(s, save)
  {
    hide StoresOk, HarnessOk, AllWorkOk, Sane, RequestsOk, AnswersOk, IsRun, Leads;
    var run, steps := LeadsIsRun(ALL_RULES, s);
    assert |run| > 0 by {
      NotEmpty(run, steps);
    }
    var k := |run| - 1;
    RunIsOk(run, steps, k);
    RunKeepsWork(run, steps, k);
    forall r, route, n |
      && 0 <= r < |s.reqs| && s.reqs[r].waiter == Replied(true, Some(route)) && 0 <= n < |s.reqs[r].saves|
      ensures IsSaved(s, route, s.reqs[r].saves[n])
    {
      AcknowledgedWorkSurvives(run, steps, k, k, r);
    }
  }

  lemma NotEmpty(run: seq<State>, steps: seq<Step>)
    requires IsRun(run, steps)
    ensures |run| > 0
  {
  }

  const NO_RULES := Rules(false, false, false)

  /** In any state that has been reached by the rules, a step may be taken without danger if and only
      if it obeys them: after a breach the run can go on, without another one, to lose a save. */
  lemma BreachIsExact(s: State, step: Step, save: Save)
    requires Leads(ALL_RULES, INITIAL, s) && Enabled(s, step) && Proper(NO_RULES, s, step)
    ensures Obeys(ALL_RULES, s, step) <==> !exists to :: Leads(ALL_RULES, Do(s, step), to) && Loses(to, save)
  {
    hide Leads, Loses, Enabled, Do, Obeys, Sane, StoresOk, HarnessOk;
    RulesKeep(s, save);
    if Obeys(ALL_RULES, s, step) {
      LeadsOn(ALL_RULES, INITIAL, s, step, Do(s, step));
      forall to | Leads(ALL_RULES, Do(s, step), to)
        ensures !Loses(to, save)
      {
        LeadsThrough(ALL_RULES, INITIAL, Do(s, step), to);
        RulesKeep(to, save);
      }
    } else {
      var exposed, i, x := BreachExposes(s, step);
      var to := ExposedLoses(ALL_RULES, exposed, i, x, save);
      LeadsThrough(ALL_RULES, Do(s, step), exposed, to);
    }
  }

  /** Some run that obeys these rules loses a save. */
  ghost predicate CanLose(rules: Rules, save: Save)
  {
    exists to :: Leads(rules, INITIAL, to) && Loses(to, save)
  }

  lemma FewerRulesLead(rules: Rules, fewer: Rules, from: State, to: State)
    requires Leads(rules, from, to)
    requires (fewer.down ==> rules.down) && (fewer.starts ==> rules.starts) && (fewer.shutdowns ==> rules.shutdowns)
    ensures Leads(fewer, from, to)
  {
    hide Enabled, Do;
    var run, steps :| IsPath(rules, run, steps) && run[0] == from && run[|run| - 1] == to;
    assert forall k | 0 <= k < |steps| :: Proper(rules, run[k], steps[k]) ==> Proper(fewer, run[k], steps[k]);
    assert IsPath(fewer, run, steps);
  }

  /** A breach of a rule that is not in force loses a save. */
  lemma BreachLoses(rules: Rules, s: State, step: Step, save: Save)
    requires Leads(ALL_RULES, INITIAL, s) && Enabled(s, step) && Proper(rules, s, step) && !Obeys(ALL_RULES, s, step)
    ensures CanLose(rules, save)
  {
    hide Leads, Loses, Enabled, Do, Obeys, Sane, StoresOk, HarnessOk;
    RulesKeep(s, save);
    var exposed, i, x := BreachExposes(s, step);
    var to := ExposedLoses(ALL_RULES, exposed, i, x, save);
    FewerRulesLead(ALL_RULES, rules, INITIAL, s);
    LeadsOn(rules, INITIAL, s, step, Do(s, step));
    FewerRulesLead(ALL_RULES, rules, Do(s, step), exposed);
    FewerRulesLead(ALL_RULES, rules, exposed, to);
    LeadsThrough(rules, INITIAL, Do(s, step), exposed);
    LeadsThrough(rules, INITIAL, exposed, to);
  }

  /** The first incarnation of server 0 has been booted, and is about to be added to the network. */
  const BOOTED :=
    INITIAL.(incs := [Incarnation(0, 0, [])], disks := [[]], saved := map[0 := 0], calls := [Adding(0, 0)])

  lemma ReachBooted()
    ensures Leads(ALL_RULES, INITIAL, BOOTED)
  {
    hide Leads;
    LeadsToItself(ALL_RULES, INITIAL);
    var begun := INITIAL.(calls := [Renewing(0)], locked := true);
    LeadsOn(ALL_RULES, INITIAL, INITIAL, BeginStart(0), begun);
    var renewed := INITIAL.(disks := [[]], saved := map[0 := 0], calls := [Booting(0)]);
    LeadsOn(ALL_RULES, INITIAL, begun, Advance(0), renewed);
    LeadsOn(ALL_RULES, INITIAL, renewed, Advance(0), BOOTED);
  }

  /** A server that is up is started again. */
  lemma StartWhileUpLoses(rules: Rules, save: Save)
    requires !rules.down
    ensures CanLose(rules, save)
  {
    hide Leads, CanLose;
    ReachBooted();
    var up := BOOTED.(servers := map[0 := 0], calls := [Ended(0)]);
    LeadsOn(ALL_RULES, INITIAL, BOOTED, Advance(0), up);
    BreachLoses(rules, up, BeginStart(0), save);
  }

  /** A server is started while another start of it is under way. */
  lemma StartDuringStartLoses(rules: Rules, save: Save)
    requires !rules.starts
    ensures CanLose(rules, save)
  {
    hide Leads, CanLose;
    ReachBooted();
    assert BOOTED.calls[0] == Adding(0, 0);
    BreachLoses(rules, BOOTED, BeginStart(0), save);
  }

  /** A server is shut down while a start of it is under way. */
  lemma ShutdownDuringStartLoses(rules: Rules, save: Save)
    requires !rules.shutdowns
    ensures CanLose(rules, save)
  {
    hide Leads, CanLose;
    ReachBooted();
    assert BOOTED.calls[0] == Adding(0, 0);
    BreachLoses(rules, BOOTED, BeginShutdown(0), save);
  }

  /** Runs can lose acknowledged work if and only if one of the rules is not in force. */
  lemma RulesAreExact(rules: Rules, save: Save)
    ensures CanLose(rules, save) <==> rules != ALL_RULES
  {
    hide Leads, Loses;
    if !rules.down {
      StartWhileUpLoses(rules, save);
    } else if !rules.starts {
      StartDuringStartLoses(rules, save);
    } else if !rules.shutdowns {
      ShutdownDuringStartLoses(rules, save);
    } else {
      forall to | Leads(ALL_RULES, INITIAL, to)
        ensures !Loses(to, save)
      {
        RulesKeep(to, save);
      }
    }
  }

  // ----- the order within a shutdown -----

  /** If a shutdown made the copy while the server is still in the network, acknowledged work would be
      lost under all rules: whenever a server is in the network, after such a copy the run can go on
      by steps that the protocol allows to lose a save. */
  lemma CopyBeforeDeleteLosesWork(s: State, i: int, save: Save)
    requires Leads(ALL_RULES, INITIAL, s) && i in s.servers
    ensures i in s.saved && s.saved[i] < |s.disks|
    ensures exists to :: Leads(ALL_RULES, Supersede(s, i, s.disks[s.saved[i]]), to) && Loses(to, save)
  {
    hide Leads, Loses, StoresOk;
    RulesKeep(s, save);
    CurrentHasDisk(s, i, s.servers[i]);
    var to := ExposedLoses(ALL_RULES, Supersede(s, i, s.disks[s.saved[i]]), i, s.servers[i], save);
  }
}
