/** What every run keeps, whatever the harness does: requests reach the server their endpoint leads to,
    handlers save to their own incarnation's persister, and every request is answered at most once. */
module Rpc {
  import opened Persister
  import opened Labrpc
  import opened Options

  // ----- persisters, incarnations and servers -----

  ghost predicate CallSane(s: State, call: HarnessCall)
  {
    match call
    case Booting(i) => i in s.saved
    case Adding(i, x) => x < |s.incs| && s.incs[x].server == i
    case _ => true
  }

  /** Everything that is referred to exists, and a server in the network is an incarnation of it. */
  ghost predicate Sane(s: State)
  {
    && (forall x | 0 <= x < |s.incs| :: s.incs[x].disk < |s.disks|)
    && (forall i | i in s.saved :: s.saved[i] < |s.disks|)
    && (forall i | i in s.servers :: s.servers[i] < |s.incs| && s.incs[s.servers[i]].server == i)
    && (forall c | 0 <= c < |s.calls| :: CallSane(s, s.calls[c]))
  }

  lemma CallKeepsSane(s: State, c: nat)
    requires Sane(s) && c < |s.calls| && CallEnabled(s, s.calls[c])
    ensures Sane(DoCall(s, c))
  {
    hide Sane, CallSane, CallEffect, NextCall, Holds;
    var call := s.calls[c];
    var e := CallEffect(s, call);
    EffectFrame(s, call);
    SaneCall(s, c);
    EffectKeepsSane(s, call);
    UpdateKeepsSane(e, DoCall(s, c), c, NextCall(s, call));
  }

  lemma SaneCall(s: State, c: nat)
    requires Sane(s) && c < |s.calls|
    ensures CallSane(s, s.calls[c])
  {
  }

  lemma UpdateKeepsSane(e: State, s': State, c: nat, next: HarnessCall)
    requires Sane(e) && c < |e.calls| && s'.calls == e.calls[c := next] && CallSane(e, next)
    requires s'.incs == e.incs && s'.disks == e.disks && s'.saved == e.saved && s'.servers == e.servers
    ensures Sane(s')
  {
    forall d | 0 <= d < |s'.calls|
      ensures CallSane(s', s'.calls[d])
    {
      assert CallSane(e, e.calls[d]);
    }
  }

  lemma EffectKeepsSane(s: State, call: HarnessCall)
    requires Sane(s) && CallSane(s, call) && CallEnabled(s, call)
    ensures Sane(CallEffect(s, call)) && CallSane(CallEffect(s, call), NextCall(s, call))
  {
    var e := CallEffect(s, call);
    forall d | 0 <= d < |s.calls|
      ensures CallSane(e, s.calls[d])
    {
      assert CallSane(s, s.calls[d]);
    }
  }

  /** What the call does leaves requests, answers and endpoints alone. */
  lemma EffectFrame(s: State, call: HarnessCall)
    requires CallEnabled(s, call)
    ensures var e := CallEffect(s, call);
            && e.reqs == s.reqs && e.replies == s.replies && e.dispatches == s.dispatches
            && e.calls == s.calls && e.locked == s.locked && e.connections == s.connections
  {
  }

  lemma RequestKeepsSane(s: State, r: nat, step: RequestStep)
    requires Sane(s) && r < |s.reqs| && RequestEnabled(s, s.reqs[r], step)
    ensures Sane(DoRequest(s, r, step))
  {
    hide Next, Sends;
  }

  lemma StepKeepsSane(s: State, step: Step)
    requires Sane(s) && Enabled(s, step)
    ensures Sane(Do(s, step))
  {
    hide Sane, DoRequest, DoCall, RequestEnabled, CallEnabled;
    match step {
      case OnRequest(r, request) => RequestKeepsSane(s, r, request);
      case Advance(c) => CallKeepsSane(s, c);
      case _ => OthersKeepSane(s, step);
    }
  }

  lemma OthersKeepSane(s: State, step: Step)
    requires Sane(s) && Enabled(s, step) && !step.OnRequest? && !step.Advance?
    ensures Sane(Do(s, step))
  {
    hide DoRequest, DoCall;
  }

  /** A call of the harness that has begun is never stuck; only its beginning waits for the lock. */
  lemma CallsNeverBlock(s: State, c: nat)
    requires Sane(s) && c < |s.calls| && !s.calls[c].Ended?
    ensures Enabled(s, Advance(c))
  {
    assert CallSane(s, s.calls[c]);
  }

  // ----- what a step never takes away -----

  /** Disks only grow, incarnations are only added, and the saved persister of a server never loses
      what it held, even when it is replaced; a new incarnation starts from all of it. */
  ghost predicate Later(s: State, s': State)
  {
    && s.incs <= s'.incs
    && |s.disks| <= |s'.disks| && (forall d | 0 <= d < |s.disks| :: s.disks[d] <= s'.disks[d])
    && (forall i | i in s.saved && s.saved[i] < |s.disks| ::
          i in s'.saved && s'.saved[i] < |s'.disks| && s.disks[s.saved[i]] <= s'.disks[s'.saved[i]])
    && (forall y | |s.incs| <= y < |s'.incs| ::
          forall i | i in s.saved && s.saved[i] < |s.disks| && s'.incs[y].server == i ::
              s.disks[s.saved[i]] <= s'.incs[y].start)
  }

  lemma WriteIsLater(s: State, inst: nat, save: Save)
    requires HasDisk(s, inst)
    ensures Later(s, WriteDisk(s, inst, save))
  {
  }

  lemma CallIsLater(s: State, c: nat)
    requires c < |s.calls| && CallEnabled(s, s.calls[c])
    ensures Later(s, DoCall(s, c))
  {
    hide Holds, NextCall, CallEffect, Later;
    EffectIsLater(s, s.calls[c]);
    SameLater(s, CallEffect(s, s.calls[c]), DoCall(s, c));
  }

  lemma EffectIsLater(s: State, call: HarnessCall)
    requires CallEnabled(s, call)
    ensures Later(s, CallEffect(s, call))
  {
  }

  lemma SameLater(s: State, e: State, s': State)
    requires Later(s, e) && s'.incs == e.incs && s'.disks == e.disks && s'.saved == e.saved
    ensures Later(s, s')
  {
  }

  lemma StepIsLater(s: State, step: Step)
    requires Enabled(s, step)
    ensures Later(s, Do(s, step))
  {
    hide Next, Sends, CallEnabled, WriteDisk, DoCall;
    match step {
      case OnRequest(r, request) =>
        if request.HandlerSave? {
          WriteIsLater(s, s.reqs[r].handler.inst, request.save);
        }
      case Advance(c) => CallIsLater(s, c);
      case BackgroundSave(inst, save) => WriteIsLater(s, inst, save);
      case _ =>
    }
  }

  // ----- requests -----

  /** What the handler saved is on its incarnation's disk, where it put it. */
  ghost predicate SavesOk(s: State, q: Request, x: nat)
  {
    && x < |s.incs| && s.incs[x].disk < |s.disks|
    && forall k | 0 <= k < |q.saves| ::
         && q.saves[k].pos < |s.disks[s.incs[x].disk]|
         && s.disks[s.incs[x].disk][q.saves[k].pos] == LogEntry(x, q.saves[k].save)
  }

  ghost predicate RouteOk(s: State, route: Route)
  {
    route.inst < |s.incs| && s.incs[route.inst].server == route.name
  }

  ghost predicate HandlerOk(s: State, q: Request)
  {
    match q.handler
    case NotStarted => q.saves == []
    case Running(x) => SavesOk(s, q, x)
    case Finished(x, log) =>
      && SavesOk(s, q, x) && log <= s.disks[s.incs[x].disk]
      && forall k | 0 <= k < |q.saves| :: q.saves[k].pos < |log|
  }

  /** The handler has returned, and ran on the incarnation that the request was sent to. */
  ghost predicate Returned(s: State, q: Request, route: Route)
  {
    q.handler.Finished? && RouteOk(s, route) && q.handler.inst == route.inst
  }

  /** The waiter and the handler of a request agree on which incarnation they talk to. */
  ghost predicate WaiterOk(s: State, q: Request)
  {
    match q.waiter
    case Queued => q.handler == NotStarted
    case Serving(route) => q.handler == NotStarted && RouteOk(s, route)
    case Waiting(route) => q.handler != NotStarted && RouteOk(s, route) && q.handler.inst == route.inst
    case GotReply(route) => Returned(s, q, route)
    case Alive(route) => Returned(s, q, route)
    case Delayed(route) => Returned(s, q, route)
    case Replied(ok, to) => ok ==> to.Some? && Returned(s, q, to.value)
    case Failing => q.handler == NotStarted
    case GaveUp => q.handler != NotStarted
    case Refused => q.handler != NotStarted
  }

  ghost predicate RequestsOk(s: State)
  {
    forall r | 0 <= r < |s.reqs| :: HandlerOk(s, s.reqs[r]) && WaiterOk(s, s.reqs[r])
  }

  lemma LaterKeepsRequest(s: State, s': State, q: Request)
    requires Later(s, s') && HandlerOk(s, q) && WaiterOk(s, q)
    ensures HandlerOk(s', q) && WaiterOk(s', q)
  {
    if q.handler.Finished? {
      var d := s.incs[q.handler.inst].disk;
      assert s.disks[d] <= s'.disks[d];
    }
  }

  lemma SaveKeepsRequest(s: State, q: Request, save: Save)
    requires Sane(s) && HandlerOk(s, q) && WaiterOk(s, q) && RequestEnabled(s, q, HandlerSave(save))
    ensures HandlerOk(WriteDisk(s, q.handler.inst, save), Next(s, q, HandlerSave(save)))
    ensures WaiterOk(WriteDisk(s, q.handler.inst, save), Next(s, q, HandlerSave(save)))
  {
  }

  lemma NextKeepsRequest(s: State, q: Request, step: RequestStep)
    requires Sane(s) && HandlerOk(s, q) && WaiterOk(s, q) && RequestEnabled(s, q, step) && !step.HandlerSave?
    ensures HandlerOk(s, Next(s, q, step)) && WaiterOk(s, Next(s, q, step))
  {
  }

  /** The request that a step is about is as it should be afterwards. */
  lemma StepKeepsOwnRequest(s: State, r: nat, step: RequestStep)
    requires Sane(s) && r < |s.reqs| && HandlerOk(s, s.reqs[r]) && WaiterOk(s, s.reqs[r])
    requires RequestEnabled(s, s.reqs[r], step)
    ensures HandlerOk(DoRequest(s, r, step), Next(s, s.reqs[r], step))
            && WaiterOk(DoRequest(s, r, step), Next(s, s.reqs[r], step))
  {
    hide Sane, HandlerOk, WaiterOk, Next, WriteDisk, Sends;
    var q := s.reqs[r];
    var s' := DoRequest(s, r, step);
    if step.HandlerSave? {
      SaveKeepsRequest(s, q, step.save);
      SameDisksKeepRequest(WriteDisk(s, q.handler.inst, step.save), s', Next(s, q, step));
    } else {
      NextKeepsRequest(s, q, step);
      SameDisksKeepRequest(s, s', Next(s, q, step));
    }
  }

  lemma SameDisksKeepRequest(s: State, s': State, q: Request)
    requires s'.incs == s.incs && s'.disks == s.disks
    requires HandlerOk(s, q) && WaiterOk(s, q)
    ensures HandlerOk(s', q) && WaiterOk(s', q)
  {
  }

  /** What a step does to the requests and to the record of answers. */
  lemma RequestFrame(s: State, r: nat, step: RequestStep)
    requires r < |s.reqs| && RequestEnabled(s, s.reqs[r], step)
    ensures DoRequest(s, r, step).reqs == s.reqs[r := Next(s, s.reqs[r], step)]
    ensures DoRequest(s, r, step).replies == if Sends(step) then s.replies + [Reply(r, step.SendReply?)] else s.replies
    ensures DoRequest(s, r, step).dispatches == if step.Dispatch? then s.dispatches + [r] else s.dispatches
    ensures DoRequest(s, r, step).connections == s.connections
  {
    hide Next, Sends;
  }

  lemma CallFrame(s: State, c: nat)
    requires c < |s.calls| && CallEnabled(s, s.calls[c])
    ensures DoCall(s, c).reqs == s.reqs
    ensures DoCall(s, c).replies == s.replies && DoCall(s, c).dispatches == s.dispatches
    ensures DoCall(s, c).connections == s.connections
  {
    hide NextCall, Holds, CallEffect;
    EffectFrame(s, s.calls[c]);
  }

  /** A step leaves every request alone but the one it is about. */
  lemma OtherRequestsStay(s: State, step: Step, r: nat)
    requires Enabled(s, step) && r < |Do(s, step).reqs|
    ensures step.OnRequest? && r == step.r ==> r < |s.reqs| && Do(s, step).reqs[r] == Next(s, s.reqs[r], step.request)
    ensures !(step.OnRequest? && r == step.r) && r < |s.reqs| ==> Do(s, step).reqs[r] == s.reqs[r]
    ensures r >= |s.reqs| ==> step.Call? && Do(s, step).reqs[r] == Request(step.endname, Queued, NotStarted, [])
  {
    hide Next, Sends, DoRequest, DoCall, RequestEnabled, CallEnabled;
    if step.OnRequest? {
      RequestFrame(s, step.r, step.request);
    } else if step.Advance? {
      CallFrame(s, step.c);
    }
  }

  lemma StepKeepsRequests(s: State, step: Step)
    requires Sane(s) && RequestsOk(s) && Enabled(s, step)
    ensures RequestsOk(Do(s, step))
  {
    hide Sane, HandlerOk, WaiterOk, Later, Next, DoRequest, DoCall, WriteDisk, RequestEnabled, CallEnabled;
    var s' := Do(s, step);
    StepIsLater(s, step);
    forall r | 0 <= r < |s'.reqs|
      ensures HandlerOk(s', s'.reqs[r]) && WaiterOk(s', s'.reqs[r])
    {
      OtherRequestsStay(s, step, r);
      if step.OnRequest? && r == step.r {
        StepKeepsOwnRequest(s, r, step.request);
      } else if r < |s.reqs| {
        LaterKeepsRequest(s, s', s.reqs[r]);
      } else {
        NewRequestOk(s', s'.reqs[r].endname);
      }
    }
  }

  lemma NewRequestOk(s: State, endname: int)
    ensures HandlerOk(s, Request(endname, Queued, NotStarted, []))
            && WaiterOk(s, Request(endname, Queued, NotStarted, []))
  {
  }

  // ----- answers -----

  ghost predicate AnswersOk(s: State)
  {
    RepliesOk(s) && DispatchesOk(s)
  }

  ghost predicate RepliesOk(s: State)
  {
    && (forall k | 0 <= k < |s.replies| :: s.replies[k].req < |s.reqs| && s.reqs[s.replies[k].req].waiter.Replied?
                                           && s.reqs[s.replies[k].req].waiter.ok == s.replies[k].ok)
    && (forall j, k | 0 <= j < k < |s.replies| :: s.replies[j].req != s.replies[k].req)
    && (forall r | 0 <= r < |s.reqs| && s.reqs[r].waiter.Replied? ::
          exists k :: 0 <= k < |s.replies| && s.replies[k].req == r)
  }

  ghost predicate DispatchesOk(s: State)
  {
    && (forall k | 0 <= k < |s.dispatches| ::
          s.dispatches[k] < |s.reqs| && s.reqs[s.dispatches[k]].handler != NotStarted)
    && (forall j, k | 0 <= j < k < |s.dispatches| :: s.dispatches[j] != s.dispatches[k])
  }

  /** One step of a request against the record of answers and dispatches. */
  lemma NextAnswers(s: State, q: Request, step: RequestStep)
    requires WaiterOk(s, q) && RequestEnabled(s, q, step)
    ensures Next(s, q, step).waiter.Replied? <==> (q.waiter.Replied? || Sends(step))
    ensures Sends(step) ==> !q.waiter.Replied? && Next(s, q, step).waiter.ok == step.SendReply?
    ensures q.waiter.Replied? ==> Next(s, q, step).waiter == q.waiter
    ensures Next(s, q, step).handler != NotStarted <==> (q.handler != NotStarted || step.Dispatch?)
    ensures step.Dispatch? ==> q.handler == NotStarted
  {
  }

  lemma RequestKeepsReplies(s: State, s': State, r: nat, q: Request, sends: bool)
    requires RepliesOk(s) && r < |s.reqs| && s'.reqs == s.reqs[r := q]
    requires sends ==> !s.reqs[r].waiter.Replied? && q.waiter.Replied?
    requires !sends && (q.waiter.Replied? || s.reqs[r].waiter.Replied?) ==> q.waiter == s.reqs[r].waiter
    requires s'.replies == if sends then s.replies + [Reply(r, q.waiter.ok)] else s.replies
    ensures RepliesOk(s')
  {
    forall x | 0 <= x < |s'.reqs| && s'.reqs[x].waiter.Replied?
      ensures exists k :: 0 <= k < |s'.replies| && s'.replies[k].req == x
    {
      if x == r && sends {
        assert s'.replies[|s.replies|].req == x;
      } else {
        assert s.reqs[x].waiter.Replied?;
        var k :| 0 <= k < |s.replies| && s.replies[k].req == x;
        assert s'.replies[k].req == x;
      }
    }
  }

  lemma RequestKeepsAnswers(s: State, r: nat, step: RequestStep)
    requires AnswersOk(s) && r < |s.reqs| && WaiterOk(s, s.reqs[r]) && RequestEnabled(s, s.reqs[r], step)
    ensures AnswersOk(DoRequest(s, r, step))
  {
    hide WaiterOk, Next, Sends, RequestEnabled, DoRequest, RepliesOk;
    NextAnswers(s, s.reqs[r], step);
    RequestFrame(s, r, step);
    RequestKeepsReplies(s, DoRequest(s, r, step), r, Next(s, s.reqs[r], step), Sends(step));
  }

  lemma StepKeepsAnswers(s: State, step: Step)
    requires AnswersOk(s) && RequestsOk(s) && Enabled(s, step)
    ensures AnswersOk(Do(s, step))
  {
    hide WaiterOk, HandlerOk, Next, DoRequest, RequestEnabled, AnswersOk, DoCall, CallEnabled;
    if step.OnRequest? {
      RequestKeepsAnswers(s, step.r, step.request);
    } else {
      if step.Advance? {
        CallFrame(s, step.c);
      }
      SameAnswers(s, Do(s, step));
    }
  }

  lemma SameAnswers(s: State, s': State)
    requires AnswersOk(s) && s'.replies == s.replies && s'.dispatches == s.dispatches
    requires s.reqs == s'.reqs || (|s'.reqs| == |s.reqs| + 1 && s.reqs == s'.reqs[..|s.reqs|]
             && s'.reqs[|s.reqs|].waiter.Queued?)
    ensures AnswersOk(s')
  {
    forall k | 0 <= k < |s.replies|
      ensures s'.reqs[s.replies[k].req] == s.reqs[s.replies[k].req]
    {
    }
  }

  // ----- over whole runs -----

  lemma InitialOk()
    ensures Sane(INITIAL) && RequestsOk(INITIAL) && AnswersOk(INITIAL)
  {
  }

  lemma {:induction false} RunIsOk(run: seq<State>, steps: seq<Step>, k: nat)
    requires IsRun(run, steps) && k < |run|
    ensures Sane(run[k]) && RequestsOk(run[k]) && AnswersOk(run[k])
  {
    hide Sane, RequestsOk, AnswersOk, Do, Enabled;
    InitialOk();
    if k > 0 {
      RunIsOk(run, steps, k - 1);
      StepKeepsSane(run[k - 1], steps[k - 1]);
      StepKeepsRequests(run[k - 1], steps[k - 1]);
      StepKeepsAnswers(run[k - 1], steps[k - 1]);
    }
  }

  /** A request whose handler has returned and whose answer is out never changes again. */
  lemma {:induction false} AnsweredIsFinal(run: seq<State>, steps: seq<Step>, k: nat, m: nat, r: nat)
    requires IsRun(run, steps) && k <= m < |run|
    requires r < |run[k].reqs| && run[k].reqs[r].waiter.Replied? && run[k].reqs[r].handler.Finished?
    ensures r < |run[m].reqs| && run[m].reqs[r] == run[k].reqs[r]
    decreases m - k
  {
    hide Do, Enabled;
    if k < m {
      AnsweredIsFinal(run, steps, k, m - 1, r);
      StepKeepsAnswered(run[m - 1], steps[m - 1], r);
    }
  }

  lemma StepKeepsAnswered(s: State, step: Step, r: nat)
    requires Enabled(s, step) && r < |s.reqs| && s.reqs[r].waiter.Replied? && s.reqs[r].handler.Finished?
    ensures r < |Do(s, step).reqs| && Do(s, step).reqs[r] == s.reqs[r]
  {
    hide DoRequest, DoCall, Sends, CallEnabled;
    if step.OnRequest? {
      RequestFrame(s, step.r, step.request);
    } else if step.Advance? {
      CallFrame(s, step.c);
    }
  }

  /** Every request is answered at most once, and exactly once if its thread has finished; its
      handler is dispatched at most once. */
  lemma AtMostOneAnswer(run: seq<State>, steps: seq<Step>, k: nat, r: nat)
    requires IsRun(run, steps) && k < |run| && r < |run[k].reqs|
    ensures forall i, j | 0 <= i < j < |run[k].replies| :: !(run[k].replies[i].req == r && run[k].replies[j].req == r)
    ensures run[k].reqs[r].waiter.Replied? <==> exists i :: 0 <= i < |run[k].replies| && run[k].replies[i].req == r
    ensures forall i | 0 <= i < |run[k].replies| && run[k].replies[i].req == r ::
            run[k].replies[i].ok == run[k].reqs[r].waiter.ok
    ensures forall i, j | 0 <= i < j < |run[k].dispatches| :: !(run[k].dispatches[i] == r && run[k].dispatches[j] == r)
  {
    RunIsOk(run, steps, k);
  }

  /** The handler had returned and its reply been taken, and then the endpoint was enabled and the
      server that the request had been sent to was still in the network under its name. */
  ghost predicate Witness(s: State, r: nat, endname: int, route: Route)
  {
    && r < |s.reqs| && s.reqs[r].endname == endname
    && s.reqs[r].waiter == GotReply(route) && Returned(s, s.reqs[r], route)
    && (endname in s.enabled && s.enabled[endname])
    && (route.name in s.servers && s.servers[route.name] == route.inst)
  }

  predicate Positive(q: Request, route: Route)
  {
    q.waiter == Alive(route) || q.waiter == Delayed(route) || q.waiter == Replied(true, Some(route))
  }

  /** A positive answer, even one sent with a delay, means that at some earlier moment the handler
      had returned and the server was alive. */
  lemma {:induction false} PositiveAnswerWitness(run: seq<State>, steps: seq<Step>, k: nat, r: nat, route: Route)
    requires IsRun(run, steps) && k < |run|
    requires r < |run[k].reqs| && Positive(run[k].reqs[r], route)
    ensures exists j :: 0 <= j <= k && Witness(run[j], r, run[k].reqs[r].endname, route)
  {
    hide Sane, RequestsOk, AnswersOk, Do, Enabled, Positive, Witness;
    if k > 0 {
      var s, step := run[k - 1], steps[k - 1];
      RunIsOk(run, steps, k - 1);
      StepToPositive(s, step, r, route);
      if r < |s.reqs| && Positive(s.reqs[r], route) {
        PositiveAnswerWitness(run, steps, k - 1, r, route);
      } else {
        assert Witness(run[k - 1], r, run[k].reqs[r].endname, route);
      }
    }
  }

  lemma StepToPositive(s: State, step: Step, r: nat, route: Route)
    requires RequestsOk(s) && Enabled(s, step)
    requires r < |Do(s, step).reqs| && Positive(Do(s, step).reqs[r], route)
    ensures r < |s.reqs| && s.reqs[r].endname == Do(s, step).reqs[r].endname
    ensures Positive(s.reqs[r], route) || Witness(s, r, s.reqs[r].endname, route)
  {
    hide HandlerOk, DoCall, DoRequest, Sends;
    OtherRequestsStay(s, step, r);
    if r < |s.reqs| {
      assert WaiterOk(s, s.reqs[r]);
    }
  }

  predicate IsRefused(q: Request)
  {
    q.waiter.Refused? || q.waiter == Replied(false, None)
  }

  lemma RefusedStays(s: State, step: Step, r: nat)
    requires Enabled(s, step) && r < |s.reqs| && IsRefused(s.reqs[r])
    ensures r < |Do(s, step).reqs| && IsRefused(Do(s, step).reqs[r])
  {
    hide DoRequest, DoCall, CallEnabled, Sends;
    RequestsNeverVanish(s, step);
    OtherRequestsStay(s, step, r);
  }

  lemma DeadIsRefusedNow(s: State, r: nat)
    requires r < |s.reqs| && s.reqs[r].waiter.GotReply?
    requires var q := s.reqs[r];
             || !(q.endname in s.enabled && s.enabled[q.endname])
             || !(q.waiter.route.name in s.servers && s.servers[q.waiter.route.name] == q.waiter.route.inst)
    ensures Enabled(s, OnRequest(r, FinalCheck))
    ensures r < |Do(s, OnRequest(r, FinalCheck)).reqs| && IsRefused(Do(s, OnRequest(r, FinalCheck)).reqs[r])
  {
  }

  /** A request whose last check finds its endpoint disabled, or another server or none in the place
      of its own, is never answered positively. */
  lemma {:induction false} DeadIsRefused(run: seq<State>, steps: seq<Step>, k: nat, m: nat, r: nat)
    requires IsRun(run, steps) && k < m < |run| && steps[k] == OnRequest(r, FinalCheck)
    requires r < |run[k].reqs| && run[k].reqs[r].waiter.GotReply?
    requires var s, q := run[k], run[k].reqs[r];
             || !(q.endname in s.enabled && s.enabled[q.endname])
             || !(q.waiter.route.name in s.servers && s.servers[q.waiter.route.name] == q.waiter.route.inst)
    ensures r < |run[m].reqs| && (run[m].reqs[r].waiter.Refused? || run[m].reqs[r].waiter == Replied(false, None))
    decreases m
  {
    hide Do, Enabled;
    if k < m - 1 {
      DeadIsRefused(run, steps, k, m - 1, r);
      RefusedStays(run[m - 1], steps[m - 1], r);
    } else {
      DeadIsRefusedNow(run[k], r);
    }
  }

  lemma RequestsNeverVanish(s: State, step: Step)
    requires Enabled(s, step)
    ensures |s.reqs| <= |Do(s, step).reqs|
  {
    hide Next, Sends, DoRequest, DoCall, RequestEnabled, CallEnabled;
    if step.OnRequest? {
      RequestFrame(s, step.r, step.request);
    } else if step.Advance? {
      CallFrame(s, step.c);
    }
  }

  predicate IsUnsent(q: Request)
  {
    q.handler == NotStarted && (q.waiter.Failing? || q.waiter == Replied(false, None))
  }

  lemma UnsentStays(s: State, step: Step, r: nat)
    requires Enabled(s, step) && r < |s.reqs| && IsUnsent(s.reqs[r])
    ensures r < |Do(s, step).reqs| && IsUnsent(Do(s, step).reqs[r])
  {
    hide DoRequest, DoCall, CallEnabled, Sends;
    RequestsNeverVanish(s, step);
    OtherRequestsStay(s, step, r);
  }

  lemma UnreachableIsUnsent(s: State, r: nat)
    requires r < |s.reqs| && s.reqs[r].waiter.Queued? && s.reqs[r].handler == NotStarted
    requires var e := s.reqs[r].endname;
             !(e in s.enabled && s.enabled[e]) || !(e in s.connections && s.connections[e] in s.servers)
    ensures Enabled(s, OnRequest(r, ReadInfo))
    ensures r < |Do(s, OnRequest(r, ReadInfo)).reqs| && IsUnsent(Do(s, OnRequest(r, ReadInfo)).reqs[r])
  {
  }

  /** A request that finds its endpoint disabled, or connected to no server in the network, is never
      dispatched, and answered negatively if at all. */
  lemma {:induction false} UnreachableIsNotDispatched(run: seq<State>, steps: seq<Step>, k: nat, m: nat, r: nat)
    requires IsRun(run, steps) && k < m < |run| && steps[k] == OnRequest(r, ReadInfo) && r < |run[k].reqs|
    requires var s, e := run[k], run[k].reqs[r].endname;
             !(e in s.enabled && s.enabled[e]) || !(e in s.connections && s.connections[e] in s.servers)
    ensures r < |run[m].reqs| && run[m].reqs[r].handler == NotStarted && r !in run[m].dispatches
    ensures run[m].reqs[r].waiter.Failing? || run[m].reqs[r].waiter == Replied(false, None)
    decreases m
  {
    hide Do, Sane, RepliesOk, HandlerOk, CallEnabled;
    if k < m - 1 {
      UnreachableIsNotDispatched(run, steps, k, m - 1, r);
      UnsentStays(run[m - 1], steps[m - 1], r);
    } else {
      RunIsOk(run, steps, k);
      assert WaiterOk(run[k], run[k].reqs[r]);
      UnreachableIsUnsent(run[k], r);
    }
    RunIsOk(run, steps, m);
  }

  /** A request gives up waiting, or is refused after its handler has returned, exactly if its endpoint
      is disabled or the server that it was sent to is not in the network any more. */
  lemma ChecksAreExact(s: State, q: Request, route: Route)
    requires q.waiter == Waiting(route) || q.waiter == GotReply(route)
    ensures var lives := (q.endname in s.enabled && s.enabled[q.endname])
                         && (route.name in s.servers && s.servers[route.name] == route.inst);
            && (q.waiter.Waiting? ==> Next(s, q, PollDead) == if lives then q else q.(waiter := GaveUp))
            && (q.waiter.GotReply? ==>
                  Next(s, q, FinalCheck) == if lives then q.(waiter := Alive(route)) else q.(waiter := Refused))
  {
  }

  /** On a reliable network a request that has been sent to a server is dispatched, and one whose last
      check has found the server alive is answered positively. */
  lemma ReliableIsAnswered(s: State, q: Request, step: RequestStep)
    requires RequestEnabled(s, q, step)
    ensures q.waiter.Serving? && q.waiter.route.reliable && !q.handler.Running? ==>
              && Next(s, q, step).waiter == Waiting(q.waiter.route)
              && Next(s, q, step).handler == Running(q.waiter.route.inst)
    ensures q.waiter.Alive? && q.waiter.route.reliable && !q.handler.Running? ==>
              || Next(s, q, step).waiter == Replied(true, Some(q.waiter.route))
              || (q.waiter.route.longReordering && Next(s, q, step).waiter == Delayed(q.waiter.route))
    ensures q.waiter.Delayed? && !q.handler.Running? ==> Next(s, q, step).waiter == Replied(true, Some(q.waiter.route))
  {
  }

  // ----- where endpoints lead -----

  /** No endpoint is connected a second time. */
  ghost predicate ConnectedOnce(run: seq<State>, steps: seq<Step>)
    requires IsRun(run, steps)
  {
    forall k | 0 <= k < |steps| && steps[k].Connect? :: steps[k].endname !in run[k].connections
  }

  /** The request was sent to the server that its endpoint is connected to. */
  ghost predicate Connected(s: State, q: Request)
  {
    q.waiter.Serving? || q.waiter.Waiting? || q.waiter.GotReply? ==>
      q.endname in s.connections && s.connections[q.endname] == q.waiter.route.name
  }

  lemma StepKeepsConnections(s: State, step: Step)
    requires Enabled(s, step)
    ensures Do(s, step).connections == if step.Connect? then s.connections[step.endname := step.name] else s.connections
  {
    hide Next, Sends, DoCall, DoRequest;
    if step.OnRequest? {
      RequestFrame(s, step.r, step.request);
    } else if step.Advance? {
      CallFrame(s, step.c);
    }
  }

  lemma {:induction false} RequestsAreConnected(run: seq<State>, steps: seq<Step>, k: nat, r: nat)
    requires IsRun(run, steps) && ConnectedOnce(run, steps) && k < |run| && r < |run[k].reqs|
    ensures Connected(run[k], run[k].reqs[r])
  {
    hide Do, RequestEnabled, CallEnabled;
    if k > 0 {
      var s, step := run[k - 1], steps[k - 1];
      OtherRequestsStay(s, step, r);
      StepKeepsConnections(s, step);
      if r < |s.reqs| {
        RequestsAreConnected(run, steps, k - 1, r);
        if step.OnRequest? && r == step.r {
          NextConnected(s, s.reqs[r], step.request);
        }
      }
    }
  }

  lemma NextConnected(s: State, q: Request, step: RequestStep)
    requires RequestEnabled(s, q, step) && Connected(s, q)
    ensures Connected(s, Next(s, q, step))
  {
  }

  /** If endpoints are connected once, the witness also led through the endpoint to that server. */
  lemma PositiveAnswerConnected(run: seq<State>, steps: seq<Step>, k: nat, r: nat, route: Route)
    requires IsRun(run, steps) && ConnectedOnce(run, steps) && k < |run|
    requires r < |run[k].reqs| && Positive(run[k].reqs[r], route)
    ensures var e := run[k].reqs[r].endname;
            exists j :: 0 <= j <= k && Witness(run[j], r, e, route)
                        && e in run[j].connections && run[j].connections[e] == route.name
  {
    PositiveAnswerWitness(run, steps, k, r, route);
    var j :| 0 <= j <= k && Witness(run[j], r, run[k].reqs[r].endname, route);
    RequestsAreConnected(run, steps, j, r);
  }

  // ----- progress of one request -----

  function Rank(w: Waiter): nat
  {
    match w
    case Queued => 6
    case Serving(_) => 5
    case Waiting(_) => 4
    case GotReply(_) => 3
    case GaveUp => 3
    case Alive(_) => 2
    case Refused => 2
    case Delayed(_) => 1
    case Failing => 1
    case Replied(_, _) => 0
  }

  /** The thread of a request only moves forward: no step raises its rank, and only the handler's
      own steps and a poll that finds the server alive leave it where it is. */
  lemma RequestsMoveForward(s: State, q: Request, step: RequestStep)
    requires RequestEnabled(s, q, step)
    ensures Rank(Next(s, q, step).waiter) < Rank(q.waiter)
            || (Next(s, q, step).waiter == q.waiter
                && (step.HandlerSave? || step.HandlerReturn?
                    || (step.PollDead? && !IsServerDead(s, q.endname, q.waiter.route))))
  {
  }

  /** An unanswered request can always move on, unless its handler is still running on a live server. */
  lemma NoStuckRequest(s: State, q: Request)
    requires WaiterOk(s, q) && !q.waiter.Replied?
    requires q.waiter.Waiting? && q.handler.Running? ==> IsServerDead(s, q.endname, q.waiter.route)
    ensures exists step: RequestStep :: RequestEnabled(s, q, step) && Rank(Next(s, q, step).waiter) < Rank(q.waiter)
  {
    var step :=
      match q.waiter
      case Queued => ReadInfo
      case Serving(_) => Dispatch
      case Waiting(_) => if q.handler.Finished? then TakeReply else PollDead
      case GotReply(_) => FinalCheck
      case GaveUp => FinalCheck
      case Alive(_) => SendReply
      case Refused => Refuse
      case Delayed(_) => SendReply
      case Failing => FailLater
      case Replied(_, _) => Refuse;
    assert RequestEnabled(s, q, step);
    assert Rank(Next(s, q, step).waiter) < Rank(q.waiter);
  }
}
