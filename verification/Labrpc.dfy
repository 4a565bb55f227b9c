/** The simulated network and the crash/restart harness around it, as a state machine: requests are
    dropped, delayed and answered, handlers and background threads save to persisters, and any number
    of shutdowns and starts of servers proceed at once, in any interleaving that the locks allow. */
module Labrpc {
  import opened Persister
  import opened Options

  /** A save, tagged with the incarnation that made it. */
  datatype LogEntry = LogEntry(writer: nat, save: Save)

  type Disk = seq<LogEntry>

  /** One life of a server: which persister it was given, and what was on it then. */
  datatype Incarnation = Incarnation(server: int, disk: nat, start: Disk)

  /** What a request learned about its endpoint when it entered the network. */
  datatype Route = Route(name: int, inst: nat, reliable: bool, longReordering: bool)

  /** The thread that processes a request. */
  datatype Waiter =
    | Queued  // not yet looked at
    | Serving(route: Route)  // sent to a live server
    | Waiting(route: Route)  // the handler has been started
    | GotReply(route: Route)  // the handler's reply has been taken
    | GaveUp  // found the server dead while waiting
    | Alive(route: Route)  // the last check found the server alive
    | Refused  // the last check found the server dead
    | Delayed(route: Route)  // the reply will be sent later
    | Failing  // no such server; a failure will be sent later
    | Replied(ok: bool, to: Option<Route>)

  /** The thread that runs the handler; `log` is what its persister held when it returned. */
  datatype Handler = NotStarted | Running(inst: nat) | Finished(inst: nat, log: Disk)

  /** A save made by a handler, and where it went. */
  datatype SavedAt = SavedAt(pos: nat, save: Save)

  datatype Request = Request(endname: int, waiter: Waiter, handler: Handler, saves: seq<SavedAt>)

  datatype Reply = Reply(req: nat, ok: bool)

  /** A call of ShutdownServer or StartServer, and what it does next. */
  datatype HarnessCall =
    | Deleting(server: int)  // shutdown, with the lock: delete the server from the network
    | Copying(server: int)  // shutdown, with the lock: copy the persister and release the lock
    | Renewing(server: int)  // start, with the lock: copy or make the persister and release the lock
    | Booting(server: int)  // start: boot an incarnation on the saved persister
    | Adding(server: int, inst: nat)  // start: add the incarnation to the network
    | Ended(server: int)

  datatype State = State(
    enabled: map<int, bool>, connections: map<int, int>, servers: map<int, nat>, reliable: bool, longReordering: bool,
    incs: seq<Incarnation>, disks: seq<Disk>, saved: map<int, nat>, calls: seq<HarnessCall>, locked: bool,
    reqs: seq<Request>, replies: seq<Reply>, dispatches: seq<nat>)

  const INITIAL := State(map[], map[], map[], true, false, [], [], map[], [], false, [], [], [])

  /** The endpoint is disabled, or its server is not the one the request went to. */
  predicate IsServerDead(s: State, endname: int, route: Route)
  {
    !(endname in s.enabled && s.enabled[endname]) || !(route.name in s.servers && s.servers[route.name] == route.inst)
  }

  // ----- steps -----

  /** What happens to one request; every step is atomic, and steps of different requests interleave. */
  datatype RequestStep =
    | ReadInfo | DropRequest | Dispatch
    | HandlerSave(save: Save) | HandlerReturn
    | TakeReply | PollDead | FinalCheck
    | Refuse | DropReply | DelayReply | SendReply | FailLater

  datatype Step =
    | Enable(endname: int, yes: bool)
    | Connect(endname: int, name: int)
    | SetFlags(reliable: bool, longReordering: bool)
    | Call(endname: int)
    | OnRequest(r: nat, request: RequestStep)
    | BeginShutdown(i: int)
    | BeginStart(i: int)
    | Advance(c: nat)
    | BackgroundSave(inst: nat, save: Save)

  predicate HasDisk(s: State, inst: nat)
  {
    inst < |s.incs| && s.incs[inst].disk < |s.disks|
  }

  predicate RequestEnabled(s: State, q: Request, step: RequestStep)
  {
    match step
    case ReadInfo => q.waiter.Queued?
    case DropRequest => q.waiter.Serving? && !q.waiter.route.reliable
    case Dispatch => q.waiter.Serving?
    case HandlerSave(_) => q.handler.Running? && HasDisk(s, q.handler.inst)
    case HandlerReturn => q.handler.Running? && HasDisk(s, q.handler.inst)
    case TakeReply => q.waiter.Waiting? && q.handler.Finished?
    case PollDead => q.waiter.Waiting?
    case FinalCheck => q.waiter.GotReply? || q.waiter.GaveUp?
    case Refuse => q.waiter.Refused?
    case DropReply => q.waiter.Alive? && !q.waiter.route.reliable
    case DelayReply => q.waiter.Alive? && q.waiter.route.longReordering
    case SendReply => q.waiter.Alive? || q.waiter.Delayed?
    case FailLater => q.waiter.Failing?
  }

  /** A shutdown deletes the server before it copies the persister; a start copies it again, boots
      an incarnation on what is then saved, and only then adds it to the network. */
  predicate CallEnabled(s: State, call: HarnessCall)
  {
    match call
    case Deleting(_) => true
    case Copying(i) => i in s.saved ==> s.saved[i] < |s.disks|
    case Renewing(i) => i in s.saved ==> s.saved[i] < |s.disks|
    case Booting(i) => i in s.saved && s.saved[i] < |s.disks|
    case Adding(_, _) => true
    case Ended(_) => false
  }

  predicate Enabled(s: State, step: Step)
  {
    match step
    case OnRequest(r, request) => r < |s.reqs| && RequestEnabled(s, s.reqs[r], request)
    case BeginShutdown(_) => !s.locked
    case BeginStart(_) => !s.locked
    case Advance(c) => c < |s.calls| && CallEnabled(s, s.calls[c])
    case BackgroundSave(inst, _) => HasDisk(s, inst)
    case _ => true
  }

  /** The request's own record after the step. */
  function Next(s: State, q: Request, step: RequestStep): Request
    requires RequestEnabled(s, q, step)
  {
    match step
    case ReadInfo =>
      var e := q.endname;
      if e in s.enabled && s.enabled[e] && e in s.connections && s.connections[e] in s.servers
      then q.(waiter := Serving(Route(s.connections[e], s.servers[s.connections[e]], s.reliable, s.longReordering)))
      else q.(waiter := Failing)
    case DropRequest => q.(waiter := Replied(false, None))
    case Dispatch => q.(waiter := Waiting(q.waiter.route), handler := Running(q.waiter.route.inst))
    case HandlerSave(save) => q.(saves := q.saves + [SavedAt(|s.disks[s.incs[q.handler.inst].disk]|, save)])
    case HandlerReturn => q.(handler := Finished(q.handler.inst, s.disks[s.incs[q.handler.inst].disk]))
    case TakeReply => q.(waiter := GotReply(q.waiter.route))
    case PollDead => if IsServerDead(s, q.endname, q.waiter.route) then q.(waiter := GaveUp) else q
    case FinalCheck =>
      if q.waiter.GotReply? && !IsServerDead(s, q.endname, q.waiter.route) then q.(waiter := Alive(q.waiter.route))
      else q.(waiter := Refused)
    case Refuse => q.(waiter := Replied(false, None))
    case DropReply => q.(waiter := Replied(false, None))
    case DelayReply => q.(waiter := Delayed(q.waiter.route))
    case SendReply => q.(waiter := Replied(true, Some(q.waiter.route)))
    case FailLater => q.(waiter := Replied(false, None))
  }

  /** The steps that send an answer to the caller. */
  predicate Sends(step: RequestStep)
  {
    step.DropRequest? || step.Refuse? || step.DropReply? || step.SendReply? || step.FailLater?
  }

  function WriteDisk(s: State, inst: nat, save: Save): State
    requires HasDisk(s, inst)
  {
    var d := s.incs[inst].disk;
    s.(disks := s.disks[d := s.disks[d] + [LogEntry(inst, save)]])
  }

  /** Replaces the saved persister of `i` by a fresh one holding `d`. */
  function Supersede(s: State, i: int, d: Disk): State
  {
    s.(disks := s.disks + [d], saved := s.saved[i := |s.disks|])
  }

  /** A new incarnation on the saved persister. */
  function Boot(s: State, i: int): State
    requires i in s.saved && s.saved[i] < |s.disks|
  {
    s.(incs := s.incs + [Incarnation(i, s.saved[i], s.disks[s.saved[i]])])
  }

  function DoRequest(s: State, r: nat, step: RequestStep): State
    requires r < |s.reqs| && RequestEnabled(s, s.reqs[r], step)
  {
    var q := s.reqs[r];
    var written := if step.HandlerSave? then WriteDisk(s, q.handler.inst, step.save) else s;
    written.(reqs := s.reqs[r := Next(s, q, step)],
    replies := if Sends(step) then s.replies + [Reply(r, step.SendReply?)] else s.replies,
    dispatches := if step.Dispatch? then s.dispatches + [r] else s.dispatches)
  }

  /** What the call does to servers and persisters. */
  function CallEffect(s: State, call: HarnessCall): State
    requires CallEnabled(s, call)
  {
    match call
    case Deleting(i) => s.(servers := s.servers - {i})
    case Copying(i) => if i in s.saved then Supersede(s, i, s.disks[s.saved[i]]) else s
    case Renewing(i) => Supersede(s, i, if i in s.saved then s.disks[s.saved[i]] else [])
    case Booting(i) => Boot(s, i)
    case Adding(i, inst) => s.(servers := s.servers[i := inst])
  }

  /** What the call does after that. */
  function NextCall(s: State, call: HarnessCall): HarnessCall
    requires CallEnabled(s, call)
  {
    match call
    case Deleting(i) => Copying(i)
    case Copying(i) => Ended(i)
    case Renewing(i) => Booting(i)
    case Booting(i) => Adding(i, |s.incs|)
    case Adding(i, _) => Ended(i)
  }

  /** The call has the lock of the harness. */
  predicate Holds(call: HarnessCall)
  {
    call.Deleting? || call.Copying? || call.Renewing?
  }

  function DoCall(s: State, c: nat): State
    requires c < |s.calls| && CallEnabled(s, s.calls[c])
  {
    var next := NextCall(s, s.calls[c]);
    CallEffect(s, s.calls[c]).(calls := s.calls[c := next],
    locked := if Holds(s.calls[c]) then Holds(next) else s.locked)
  }

  function Do(s: State, step: Step): State
    requires Enabled(s, step)
  {
    match step
    case Enable(endname, yes) => s.(enabled := s.enabled[endname := yes])
    case Connect(endname, name) => s.(connections := s.connections[endname := name])
    case SetFlags(reliable, longReordering) => s.(reliable := reliable, longReordering := longReordering)
    case Call(endname) => s.(reqs := s.reqs + [Request(endname, Queued, NotStarted, [])])
    case OnRequest(r, request) => DoRequest(s, r, request)
    case BeginShutdown(i) => s.(calls := s.calls + [Deleting(i)], locked := true)
    case BeginStart(i) => s.(calls := s.calls + [Renewing(i)], locked := true)
    case Advance(c) => DoCall(s, c)
    case BackgroundSave(inst, save) => WriteDisk(s, inst, save)
  }

  /** The states a run goes through: any sequence of steps, each enabled when it is taken. */
  ghost predicate IsRun(run: seq<State>, steps: seq<Step>)
  {
    && |run| == |steps| + 1 && run[0] == INITIAL
    && forall k | 0 <= k < |steps| :: Enabled(run[k], steps[k]) && run[k + 1] == Do(run[k], steps[k])
  }
}
