/** Checking the partitions concurrently, as a state machine: one worker for each partition, and a
    collector that reads their results from a channel, may time out, and sets a shared kill flag. */
module Parallel {
  import opened Linearizability
  import opened Search
  import opened Options
  import opened Sets

  datatype CheckResult = Unknown | Ok | Illegal

  datatype Setting<!S, !V> = Setting(m: Model<S, V>, history: seq<seq<Entry<V>>>, computeInfo: bool, timeout: bool)

  /** A worker runs the search, stores its partial results, and sends its verdict. */
  datatype Worker = Searching | Returned(ok: bool, longest: Partials) | Stored(ok: bool) | Finished

  /** The collector is in its loop, behind it, or has its result. */
  datatype Stage = Selecting | Leaving | Done(result: CheckResult)

  datatype Message = Message(worker: nat, ok: bool)

  /** `sent` lists all messages ever sent and `count` how many were received, so the channel holds the
      rest. `folded` counts the received results that went into `ok`. */
  datatype State = State(workers: seq<Worker>, sent: seq<Message>, longest: seq<Option<Partials>>, kill: bool,
                         ok: bool, timedOut: bool, count: nat, folded: nat, stage: Stage)

  ghost predicate WellFormedSetting<S, V>(g: Setting<S, V>)
  {
    forall i | 0 <= i < |g.history| :: WellFormed(g.history[i])
  }

  function Initial<S, V>(g: Setting<S, V>): State
  {
    State(seq(|g.history|, _ => Searching), [], seq(|g.history|, _ => None), false, true, false, 0, 0, Selecting)
  }

  // ----- steps -----

  /** What a search may return: the contract of the single-history checker. A refutation means
      something only if the model's `equal` respects its steps. */
  ghost predicate SearchResult<S(!new), V(!new)>(g: Setting<S, V>, i: nat, ok: bool, longest: Partials, kill: bool)
    requires WellFormedSetting(g) && i < |g.history|
  {
    var h := g.history[i];
    && |longest| == |h| / 2 && RecordsAreLegal(g.m, h, longest)
    && (ok ==> Linearizable(g.m, h) && Optimal(g.m, h, longest))
    && (!ok && EqualSimulates(g.m) ==> kill || !Linearizable(g.m, h))
    && (!ok && EqualSimulates(g.m) && g.computeInfo ==> kill || Optimal(g.m, h, longest))
  }

  ghost predicate WorkerReturns<S(!new), V(!new)>(g: Setting<S, V>, s: State, s': State, i: nat, ok: bool,
          longest: Partials)
    requires WellFormedSetting(g)
  {
    && i < |s.workers| == |g.history| && s.workers[i] == Searching
    && SearchResult(g, i, ok, longest, s.kill)
    && s' == s.(workers := s.workers[i := Returned(ok, longest)])
  }

  predicate WorkerStores(s: State, s': State, i: nat)
  {
    && i < |s.workers| == |s.longest| && s.workers[i].Returned?
    && s' == s.(workers := s.workers[i := Stored(s.workers[i].ok)],
        longest := s.longest[i := Some(s.workers[i].longest)])
  }

  predicate WorkerSends(s: State, s': State, i: nat)
  {
    && i < |s.workers| && s.workers[i].Stored?
    && s' == s.(workers := s.workers[i := Finished], sent := s.sent + [Message(i, s.workers[i].ok)])
  }

  /** The select takes a result. */
  predicate Receive<S, V>(g: Setting<S, V>, s: State, s': State)
  {
    && s.stage == Selecting && s.count < |s.sent|
    && var ok := s.ok && s.sent[s.count].ok;
       var giveUp := !ok && !g.computeInfo;
       s' == s.(count := s.count + 1, folded := s.count + 1, ok := ok, kill := s.kill || giveUp,
                stage := if giveUp || s.count + 1 >= |g.history| then Leaving else Selecting)
  }

  /** The select takes the timeout. */
  predicate TimeOut<S, V>(g: Setting<S, V>, s: State, s': State)
  {
    && g.timeout && s.stage == Selecting
    && s' == s.(timedOut := true, kill := true, stage := Leaving)
  }

  /** In info mode, wait for the workers that are still running. */
  predicate Drain<S, V>(g: Setting<S, V>, s: State, s': State)
  {
    && g.computeInfo && s.stage == Leaving && s.count < |g.history| && s.count < |s.sent|
    && s' == s.(count := s.count + 1)
  }

  predicate Conclude<S, V>(g: Setting<S, V>, s: State, s': State)
  {
    && s.stage == Leaving && (g.computeInfo ==> s.count >= |g.history|)
    && s' == s.(stage := Done(if !s.ok then Illegal else if s.timedOut then Unknown else Ok))
  }

  ghost predicate Next<S(!new), V(!new)>(g: Setting<S, V>, s: State, s': State)
    requires WellFormedSetting(g)
  {
    || (exists i, ok, longest :: WorkerReturns(g, s, s', i, ok, longest))
    || (exists i :: WorkerStores(s, s', i))
    || (exists i :: WorkerSends(s, s', i))
    || Receive(g, s, s')
    || TimeOut(g, s, s')
    || Drain(g, s, s')
    || Conclude(g, s, s')
  }

  ghost predicate IsRun<S(!new), V(!new)>(g: Setting<S, V>, run: seq<State>)
    requires WellFormedSetting(g)
  {
    run != [] && run[0] == Initial(g) && forall k | 0 <= k < |run| - 1 :: Next(g, run[k], run[k + 1])
  }

  // ----- invariant -----

  /** What a verdict means: a positive one is a linearization, a negative one a refutation or a kill. */
  ghost predicate Honest<S(!new), V(!new)>(g: Setting<S, V>, i: nat, ok: bool, kill: bool)
    requires WellFormedSetting(g) && i < |g.history|
  {
    if ok then Linearizable(g.m, g.history[i])
    else EqualSimulates(g.m) ==> kill || !Linearizable(g.m, g.history[i])
  }

  function Senders(sent: seq<Message>): set<int>
  {
    set k | 0 <= k < |sent| :: sent[k].worker
  }

  ghost predicate WorkerOk<S(!new), V(!new)>(g: Setting<S, V>, s: State, i: nat)
    requires WellFormedSetting(g) && i < |g.history| == |s.workers| == |s.longest|
  {
    var h := g.history[i];
    match s.workers[i]
    case Searching => true
    case Returned(ok, longest) => SearchResult(g, i, ok, longest, s.kill)
    case Stored(ok) => s.longest[i].Some? && SearchResult(g, i, ok, s.longest[i].value, s.kill)
    case Finished =>
      && i in Senders(s.sent) && s.longest[i].Some?
      && exists ok :: SearchResult(g, i, ok, s.longest[i].value, s.kill)
  }

  ghost predicate SentOk<S(!new), V(!new)>(g: Setting<S, V>, s: State, k: nat)
    requires WellFormedSetting(g) && |g.history| == |s.workers| && k < |s.sent|
  {
    var msg := s.sent[k];
    && msg.worker < |g.history| && s.workers[msg.worker] == Finished
    && Honest(g, msg.worker, msg.ok, s.kill)
    && (k < s.folded ==> Honest(g, msg.worker, msg.ok, false))
  }

  ghost predicate Inv<S(!new), V(!new)>(g: Setting<S, V>, s: State)
    requires WellFormedSetting(g)
  {
    && |s.workers| == |s.longest| == |g.history|
    && s.folded <= s.count <= |s.sent| <= |g.history|
    && (forall i | 0 <= i < |g.history| :: WorkerOk(g, s, i))
    && (forall k | 0 <= k < |s.sent| :: SentOk(g, s, k))
    && (forall j, k | 0 <= j < k < |s.sent| :: s.sent[j].worker != s.sent[k].worker)
    && (s.ok <==> forall k | 0 <= k < s.folded :: s.sent[k].ok)
    && (s.kill ==> s.stage != Selecting)
    && (s.kill <==> s.timedOut || (!s.ok && !g.computeInfo))
    && (s.stage == Selecting ==>
          s.folded == s.count && (s.ok || g.computeInfo) && !s.timedOut && (s.count < |g.history| || s.count == 0))
    && (s.stage != Selecting && !s.timedOut ==>
          g.history != [] && (s.folded == |g.history| || (!s.ok && !g.computeInfo)))
    && (s.timedOut ==> g.timeout)
    && (s.stage.Done? ==> s.stage.result == (if !s.ok then Illegal else if s.timedOut then Unknown else Ok))
    && (s.stage.Done? && g.computeInfo ==> s.count == |g.history|)
  }

  lemma {:induction false} SendersCount(sent: seq<Message>)
    requires forall j, k | 0 <= j < k < |sent| :: sent[j].worker != sent[k].worker
    ensures |Senders(sent)| == |sent|
  {
    if sent != [] {
      var n := |sent| - 1;
      SendersCount(sent[..n]);
      assert sent == sent[..n] + [sent[n]];
      SendersSnoc(sent[..n], sent[n]);
    }
  }

  lemma SendersSnoc(sent: seq<Message>, msg: Message)
    ensures Senders(sent + [msg]) == Senders(sent) + {msg.worker}
  {
    var more := sent + [msg];
    forall x
      ensures x in Senders(more) <==> x in Senders(sent) + {msg.worker}
    {
      if x in Senders(sent) {
        var k :| 0 <= k < |sent| && sent[k].worker == x;
        assert more[k].worker == x;
      }
      assert more[|sent|] == msg;
    }
  }

  /** The messages come from different workers, all of which have finished. */
  lemma SendersFinished<S(!new), V(!new)>(g: Setting<S, V>, s: State)
    requires WellFormedSetting(g) && Inv(g, s)
    ensures |Senders(s.sent)| == |s.sent| && Senders(s.sent) <= Range(|g.history|)
    ensures forall i | i in Senders(s.sent) :: s.workers[i] == Finished
    ensures |s.sent| == |g.history| <==> Senders(s.sent) == Range(|g.history|)
  {
    hide Honest, WorkerOk;
    SendersCount(s.sent);
    forall i | i in Senders(s.sent)
      ensures i in Range(|g.history|) && s.workers[i] == Finished
    {
      var k :| 0 <= k < |s.sent| && s.sent[k].worker == i;
      assert SentOk(g, s, k);
    }
    SubsetCount(Senders(s.sent), Range(|g.history|));
  }

  /** While some worker has not sent, there are fewer messages than workers; when there are as many,
      every worker has sent. */
  lemma EveryoneSent<S(!new), V(!new)>(g: Setting<S, V>, s: State, i: nat)
    requires WellFormedSetting(g) && Inv(g, s) && i < |g.history|
    ensures s.workers[i] != Finished ==> |s.sent| < |g.history|
    ensures |s.sent| == |g.history| ==>
              s.workers[i] == Finished && exists k :: 0 <= k < |s.sent| && s.sent[k].worker == i
  {
    hide Honest, WorkerOk, SentOk;
    SendersFinished(g, s);
    assert i in Range(|g.history|);
  }

  lemma InitialInv<S(!new), V(!new)>(g: Setting<S, V>)
    requires WellFormedSetting(g)
    ensures Inv(g, Initial(g))
  {
  }

  lemma ReturnsKeepsInv<S(!new), V(!new)>(g: Setting<S, V>, s: State, s': State, i: nat, ok: bool, longest: Partials)
    requires WellFormedSetting(g) && Inv(g, s) && WorkerReturns(g, s, s', i, ok, longest)
    ensures Inv(g, s')
  {
    hide SearchResult, Honest;
    forall j | 0 <= j < |g.history|
      ensures WorkerOk(g, s', j)
    {
      assert WorkerOk(g, s, j);
    }
    forall k | 0 <= k < |s'.sent|
      ensures SentOk(g, s', k)
    {
      assert SentOk(g, s, k);
    }
  }

  lemma StoresKeepsInv<S(!new), V(!new)>(g: Setting<S, V>, s: State, s': State, i: nat)
    requires WellFormedSetting(g) && Inv(g, s) && WorkerStores(s, s', i)
    ensures Inv(g, s')
  {
    hide SearchResult, Honest;
    assert WorkerOk(g, s, i);
    forall j | 0 <= j < |g.history|
      ensures WorkerOk(g, s', j)
    {
      if j != i {
        assert WorkerOk(g, s, j);
        assert s'.workers[j] == s.workers[j] && s'.longest[j] == s.longest[j];
        assert WorkerOk(g, s', j);
      } else {
        assert SearchResult(g, i, s.workers[i].ok, s'.longest[i].value, s.kill);
        assert s'.workers[i] == Stored(s.workers[i].ok);
        assert WorkerOk(g, s', i);
      }
    }
    forall k | 0 <= k < |s'.sent|
      ensures SentOk(g, s', k)
    {
      assert SentOk(g, s, k);
    }
  }

  lemma SendsKeepsInv<S(!new), V(!new)>(g: Setting<S, V>, s: State, s': State, i: nat)
    requires WellFormedSetting(g) && Inv(g, s) && WorkerSends(s, s', i)
    ensures Inv(g, s')
  {
    hide SearchResult, Honest, Senders;
    EveryoneSent(g, s, i);
    assert WorkerOk(g, s, i);
    SearchIsHonest(g, i, s.workers[i].ok, s.longest[i].value, s.kill);
    SendersSnoc(s.sent, Message(i, s.workers[i].ok));
    forall j | 0 <= j < |g.history|
      ensures WorkerOk(g, s', j)
    {
      assert WorkerOk(g, s, j);
    }
    forall k | 0 <= k < |s'.sent|
      ensures SentOk(g, s', k)
    {
      if k < |s.sent| {
        assert SentOk(g, s, k);
      }
    }
    forall k | 0 <= k < |s.sent|
      ensures s.sent[k].worker != i
    {
      assert SentOk(g, s, k);
    }
    assert |s'.sent| <= |g.history|;
    assert forall k | 0 <= k < |s.sent| :: s'.sent[k] == s.sent[k];
    assert s.ok <==> forall k | 0 <= k < s.folded :: s'.sent[k].ok;
    assert forall j, k | 0 <= j < k < |s'.sent| :: s'.sent[j].worker != s'.sent[k].worker;
  }

  lemma SearchIsHonest<S(!new), V(!new)>(g: Setting<S, V>, i: nat, ok: bool, longest: Partials, kill: bool)
    requires WellFormedSetting(g) && i < |g.history| && SearchResult(g, i, ok, longest, kill)
    ensures Honest(g, i, ok, kill)
  {
  }

  /** Setting the kill flag weakens what verdicts promise, never breaks it. */
  lemma KillWeakens<S(!new), V(!new)>(g: Setting<S, V>, i: nat, ok: bool, longest: Partials, kill: bool)
    requires WellFormedSetting(g) && i < |g.history|
    ensures SearchResult(g, i, ok, longest, kill) ==> SearchResult(g, i, ok, longest, true)
    ensures Honest(g, i, ok, kill) ==> Honest(g, i, ok, true)
  {
  }

  lemma CollectorKeepsWorkers<S(!new), V(!new)>(g: Setting<S, V>, s: State, s': State)
    requires WellFormedSetting(g) && Inv(g, s)
    requires s'.workers == s.workers && s'.longest == s.longest && s'.sent == s.sent && (s'.kill == s.kill || s'.kill)
    ensures forall i | 0 <= i < |g.history| :: WorkerOk(g, s', i)
  {
    hide SearchResult;
    forall i | 0 <= i < |g.history|
      ensures WorkerOk(g, s', i)
    {
      assert WorkerOk(g, s, i);
      forall ok, longest
        ensures SearchResult(g, i, ok, longest, s.kill) ==> SearchResult(g, i, ok, longest, s'.kill)
      {
        KillWeakens(g, i, ok, longest, s.kill);
      }
    }
  }

  lemma CollectorKeepsSent<S(!new), V(!new)>(g: Setting<S, V>, s: State, s': State, k: nat)
    requires WellFormedSetting(g) && Inv(g, s) && k < |s.sent|
    requires s'.workers == s.workers && s'.sent == s.sent && (s'.kill == s.kill || s'.kill)
    requires s'.folded == s.folded || (s'.folded == s.folded + 1 && !s.kill)
    ensures SentOk(g, s', k)
  {
    assert SentOk(g, s, k);
    KillWeakens(g, s.sent[k].worker, s.sent[k].ok, [], s.kill);
  }

  lemma CollectorKeepsInv<S(!new), V(!new)>(g: Setting<S, V>, s: State, s': State)
    requires WellFormedSetting(g) && Inv(g, s)
    requires Receive(g, s, s') || TimeOut(g, s, s') || Drain(g, s, s') || Conclude(g, s, s')
    ensures Inv(g, s')
  {
    hide WorkerOk, SentOk;
    CollectorKeepsWorkers(g, s, s');
    forall k | 0 <= k < |s'.sent|
      ensures SentOk(g, s', k)
    {
      CollectorKeepsSent(g, s, s', k);
    }
  }

  lemma NextKeepsInv<S(!new), V(!new)>(g: Setting<S, V>, s: State, s': State)
    requires WellFormedSetting(g) && Inv(g, s) && Next(g, s, s')
    ensures Inv(g, s')
  {
    hide Inv, WorkerReturns, WorkerStores, WorkerSends, Receive, TimeOut, Drain, Conclude;
    if i: nat, ok, longest :| WorkerReturns(g, s, s', i, ok, longest) {
      ReturnsKeepsInv(g, s, s', i, ok, longest);
    } else if i: nat :| WorkerStores(s, s', i) {
      StoresKeepsInv(g, s, s', i);
    } else if i: nat :| WorkerSends(s, s', i) {
      SendsKeepsInv(g, s, s', i);
    } else {
      CollectorKeepsInv(g, s, s');
    }
  }

  lemma {:induction false} RunKeepsInv<S(!new), V(!new)>(g: Setting<S, V>, run: seq<State>)
    requires WellFormedSetting(g) && IsRun(g, run)
    ensures Inv(g, run[|run| - 1])
  {
    hide Inv, Next;
    if |run| == 1 {
      InitialInv(g);
    } else {
      var k := |run| - 2;
      RunKeepsInv(g, run[..k + 1]);
      assert Next(g, run[k], run[k + 1]);
      NextKeepsInv(g, run[k], run[k + 1]);
    }
  }

  /** Searches still running are told to stop in exactly two cases: after the timeout, and after a
      refutation when no partial results are wanted; never while the collector is in its loop. */
  lemma KillIsExact<S(!new), V(!new)>(g: Setting<S, V>, run: seq<State>)
    requires WellFormedSetting(g) && IsRun(g, run)
    ensures var s := run[|run| - 1];
            && (s.kill <==>
                s.timedOut || (!g.computeInfo && exists k :: 0 <= k < s.folded <= |s.sent| && !s.sent[k].ok))
            && (s.kill ==> s.stage != Selecting)
  {
    hide WorkerOk, SentOk;
    RunKeepsInv(g, run);
  }

  // ----- what a verdict means -----

  ghost predicate AllLinearizable<S(!new), V(!new)>(g: Setting<S, V>)
    requires WellFormedSetting(g)
  {
    forall i | 0 <= i < |g.history| :: Linearizable(g.m, g.history[i])
  }

  lemma FoldedIsHonest<S(!new), V(!new)>(g: Setting<S, V>, s: State, k: nat)
    requires WellFormedSetting(g) && Inv(g, s) && k < s.folded
    ensures k < |s.sent| && s.sent[k].worker < |g.history|
    ensures s.sent[k].ok ==> Linearizable(g.m, g.history[s.sent[k].worker])
    ensures EqualSimulates(g.m) ==> (s.sent[k].ok <==> Linearizable(g.m, g.history[s.sent[k].worker]))
  {
    hide WorkerOk;
    assert SentOk(g, s, k);
  }

  lemma InvVerdict<S(!new), V(!new)>(g: Setting<S, V>, s: State)
    requires WellFormedSetting(g) && Inv(g, s) && s.stage.Done?
    ensures s.stage.result == (if !s.ok then Illegal else if s.timedOut then Unknown else Ok)
    ensures s.stage.result == Ok ==> AllLinearizable(g) && g.history != []
    ensures s.stage.result == Illegal && EqualSimulates(g.m) ==> !AllLinearizable(g)
    ensures s.timedOut ==> g.timeout
  {
    hide WorkerOk, SentOk;
    if s.stage.result == Ok {
      forall i | 0 <= i < |g.history|
        ensures Linearizable(g.m, g.history[i])
      {
        EveryoneSent(g, s, i);
        var k :| 0 <= k < |s.sent| && s.sent[k].worker == i;
        FoldedIsHonest(g, s, k);
      }
    }
    if s.stage.result == Illegal && EqualSimulates(g.m) {
      var k :| 0 <= k < s.folded && !s.sent[k].ok;
      FoldedIsHonest(g, s, k);
    }
  }

  /** In every run: Ok only if every partition is linearizable, Illegal only if one is not (never
      because a worker was killed), Unknown only if the timeout was taken, and then never Ok. So
      without a timeout the verdict is exact, if the model's `equal` respects its steps. */
  lemma VerdictIsRight<S(!new), V(!new)>(g: Setting<S, V>, run: seq<State>)
    requires WellFormedSetting(g) && IsRun(g, run) && run[|run| - 1].stage.Done?
    ensures var s := run[|run| - 1];
            var r := s.stage.result;
            && (r == Ok ==> AllLinearizable(g))
            && (r == Illegal && EqualSimulates(g.m) ==> !AllLinearizable(g))
            && (r == Unknown ==> s.timedOut) && (s.timedOut ==> r != Ok) && (s.timedOut ==> g.timeout)
            && (!g.timeout && EqualSimulates(g.m) ==> r == if AllLinearizable(g) then Ok else Illegal)
  {
    RunKeepsInv(g, run);
    InvVerdict(g, run[|run| - 1]);
  }

  /** In info mode, every slot read at the end has been written, with legal sequences: so the replay
      that follows does not panic, even after a timeout. */
  lemma SlotsAreWritten<S(!new), V(!new)>(g: Setting<S, V>, run: seq<State>, i: nat)
    requires WellFormedSetting(g) && IsRun(g, run) && run[|run| - 1].stage.Done? && g.computeInfo && i < |g.history|
    ensures i < |run[|run| - 1].longest| && run[|run| - 1].longest[i].Some?
    ensures RecordsAreLegal(g.m, g.history[i], run[|run| - 1].longest[i].value)
    ensures EqualSimulates(g.m) && !run[|run| - 1].kill ==>
              Optimal(g.m, g.history[i], run[|run| - 1].longest[i].value)
  {
    RunKeepsInv(g, run);
    DoneSlot(g, run[|run| - 1], i);
  }

  lemma DoneSlot<S(!new), V(!new)>(g: Setting<S, V>, s: State, i: nat)
    requires WellFormedSetting(g) && Inv(g, s) && s.stage.Done? && g.computeInfo && i < |g.history|
    ensures s.longest[i].Some? && exists ok :: SearchResult(g, i, ok, s.longest[i].value, s.kill)
  {
    hide SentOk, SearchResult;
    EveryoneSent(g, s, i);
    assert WorkerOk(g, s, i);
  }

  // ----- when there is a verdict -----

  /** Without partitions and without a timeout, the collector waits forever. */
  lemma {:induction false} NothingToCheckBlocks<S(!new), V(!new)>(g: Setting<S, V>, run: seq<State>)
    requires WellFormedSetting(g) && IsRun(g, run) && g.history == [] && !g.timeout
    ensures run[|run| - 1].stage == Selecting
  {
    RunKeepsInv(g, run);
  }

  function WorkLeft(w: Worker): nat
  {
    match w
    case Searching => 3
    case Returned(_, _) => 2
    case Stored(_) => 1
    case Finished => 0
  }

  function TotalWork(workers: seq<Worker>): nat
  {
    if workers == [] then 0 else TotalWork(workers[..|workers| - 1]) + WorkLeft(workers[|workers| - 1])
  }

  lemma {:induction false} WorkUpdate(workers: seq<Worker>, i: nat, w: Worker)
    requires i < |workers|
    ensures TotalWork(workers[i := w]) == TotalWork(workers) - WorkLeft(workers[i]) + WorkLeft(w)
  {
    var n := |workers| - 1;
    if i == n {
      assert workers[i := w][..n] == workers[..n];
    } else {
      WorkUpdate(workers[..n], i, w);
      assert workers[i := w][..n] == workers[..n][i := w];
    }
  }

  function StepsLeft<S, V>(g: Setting<S, V>, s: State): int
  {
    TotalWork(s.workers) + (|g.history| - s.count)
    + (match s.stage case Selecting => 2 case Leaving => 1 case Done(_) => 0)
  }

  lemma WorkerStepUsesUp<S, V>(g: Setting<S, V>, s: State, s': State, i: nat, w: Worker)
    requires i < |s.workers| && s'.workers == s.workers[i := w] && WorkLeft(w) < WorkLeft(s.workers[i])
    requires s'.count == s.count && s'.stage == s.stage
    ensures StepsLeft(g, s') < StepsLeft(g, s)
  {
    WorkUpdate(s.workers, i, w);
  }

  /** Every step uses up one of boundedly many: no run is infinite. */
  lemma StepsRunOut<S(!new), V(!new)>(g: Setting<S, V>, s: State, s': State)
    requires WellFormedSetting(g) && Inv(g, s) && Next(g, s, s')
    ensures 0 <= StepsLeft(g, s') < StepsLeft(g, s)
  {
    hide Inv, SearchResult, StepsLeft;
    NextKeepsInv(g, s, s');
    InvCounts(g, s');
    InvCounts(g, s);
    if i: nat, ok, longest :| WorkerReturns(g, s, s', i, ok, longest) {
      WorkerStepUsesUp(g, s, s', i, Returned(ok, longest));
    } else if i: nat :| WorkerStores(s, s', i) {
      WorkerStepUsesUp(g, s, s', i, Stored(s.workers[i].ok));
    } else if i: nat :| WorkerSends(s, s', i) {
      WorkerStepUsesUp(g, s, s', i, Finished);
    } else {
      CollectorStepUsesUp(g, s, s');
    }
  }

  lemma CollectorStepUsesUp<S, V>(g: Setting<S, V>, s: State, s': State)
    requires Receive(g, s, s') || TimeOut(g, s, s') || Drain(g, s, s') || Conclude(g, s, s')
    ensures StepsLeft(g, s') < StepsLeft(g, s)
  {
  }

  lemma InvCounts<S(!new), V(!new)>(g: Setting<S, V>, s: State)
    requires WellFormedSetting(g) && Inv(g, s)
    ensures s.count <= |s.sent| <= |g.history| == |s.workers| == |s.longest|
    ensures StepsLeft(g, s) >= 0
  {
  }

  /** In a state without a verdict, a search is still going or some step can be taken, if and only if
      there is something to check or a timeout. */
  lemma BlocksIffNothingToDo<S(!new), V(!new)>(g: Setting<S, V>, s: State)
    requires WellFormedSetting(g) && Inv(g, s) && !s.stage.Done?
    ensures (exists i | 0 <= i < |s.workers| :: s.workers[i] == Searching) || (exists s' :: Next(g, s, s')) <==>
            g.history != [] || g.timeout
  {
    hide WorkerOk, SentOk;
    if g.history != [] || g.timeout {
      NotStuck(g, s);
    }
  }

  lemma NotStuck<S(!new), V(!new)>(g: Setting<S, V>, s: State)
    requires WellFormedSetting(g) && Inv(g, s) && !s.stage.Done? && (g.history != [] || g.timeout)
    ensures (exists i | 0 <= i < |s.workers| :: s.workers[i] == Searching) || exists s' :: Next(g, s, s')
  {
    hide WorkerOk, SentOk;
    if s.stage == Leaving && (!g.computeInfo || s.count == |g.history|) {
      var s' := s.(stage := Done(if !s.ok then Illegal else if s.timedOut then Unknown else Ok));
      assert Conclude(g, s, s') && Next(g, s, s');
    } else if s.count < |s.sent| {
      if s.stage == Leaving {
        var s' := s.(count := s.count + 1);
        assert Drain(g, s, s') && Next(g, s, s');
      } else {
        var ok := s.ok && s.sent[s.count].ok;
        var giveUp := !ok && !g.computeInfo;
        var s' := s.(count := s.count + 1, folded := s.count + 1, ok := ok, kill := s.kill || giveUp,
                     stage := if giveUp || s.count + 1 >= |g.history| then Leaving else Selecting);
        assert Receive(g, s, s') && Next(g, s, s');
      }
    } else if g.history == [] {
      var s' := s.(timedOut := true, kill := true, stage := Leaving);
      assert TimeOut(g, s, s') && Next(g, s, s');
    } else {
      var i := SomeoneUnsent(g, s);
      if s.workers[i].Returned? {
        var s' := s.(workers := s.workers[i := Stored(s.workers[i].ok)],
            longest := s.longest[i := Some(s.workers[i].longest)]);
        assert WorkerStores(s, s', i) && Next(g, s, s');
      } else if s.workers[i].Stored? {
        var s' := s.(workers := s.workers[i := Finished], sent := s.sent + [Message(i, s.workers[i].ok)]);
        assert WorkerSends(s, s', i) && Next(g, s, s');
      }
    }
  }

  lemma SomeoneUnsent<S(!new), V(!new)>(g: Setting<S, V>, s: State) returns (i: nat)
    requires WellFormedSetting(g) && Inv(g, s) && |s.sent| < |g.history|
    ensures i < |s.workers| && s.workers[i] != Finished
  {
    SendersFinished(g, s);
    var x :| x in Range(|g.history|) && x !in Senders(s.sent);
    i := x;
    assert WorkerOk(g, s, i);
  }
}
