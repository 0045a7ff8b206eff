/** The model manager: one goroutine swaps models, watchers wait for processes to exit, and readers copy the
    resident record, all interleaved step by step. A process is known by its place in `procs`: no process id
    is used twice. */
module Swap {
  import opened Text
  import opened Runs

  datatype Watcher = Unwatched | Watching | Woken | Finished

  datatype Proc = Proc(tier: string, running: bool, signalled: bool, watcher: Watcher)

  datatype Record = Record(tier: string, pid: nat, swapping: bool)

  /** What EnsureLoaded has told its caller. Asking is between its look at the record and its try for the queue. */
  datatype Answer = Asking | Waiting | Loaded(record: Record) | Failed | QueueFull | GaveUp

  datatype Request = Request(tier: string, answer: Answer)

  /** Where the swap goroutine is. */
  datatype Place =
    | Idle | Begun | Marked | Killing | Signalled | Killed
    | Starting | Polling | Healthy | Unhealthy | Discarded | Installed

  /** `request`, `tier` and `pid` belong to the swap in progress. */
  datatype State = State(
    procs: seq<Proc>, resident: Option<Record>,
    place: Place, request: nat, tier: string, pid: nat,
    queue: Option<nat>, requests: seq<Request>)

  datatype Action =
    | Ask(asked: string)
    | Enqueue(k: nat)
    | GiveUp(k: nat)
    | Take(feasible: bool)
    | MarkSwapping
    | LookAtResident
    | SignalOld
    | StopWaiting
    | ClearOld
    | Start(started: bool)
    | Poll(healthy: bool)
    | SignalNew
    | ClearFailed
    | Install
    | Watch
    | Exit(p: nat)
    | Wake(p: nat)
    | WatcherClears(p: nat)

  const START := State([], None, Idle, 0, "", 0, None, [])

  function Answered(s: State, k: nat, answer: Answer): seq<Request> {
    if k < |s.requests| && s.requests[k].answer.Waiting? then s.requests[k := s.requests[k].(answer := answer)]
    else s.requests
  }

  /** The resident, if it serves the tier and no swap is replacing it. */
  predicate Serves(s: State, tier: string) {
    s.resident.Some? && s.resident.value.tier == tier && !s.resident.value.swapping
  }

  /** EnsureLoaded looks at the record. */
  function AskStep(s: State, tier: string): State {
    s.(requests := s.requests + [Request(tier, if Serves(s, tier) then Loaded(s.resident.value) else Asking)])
  }

  /** ... and if that did not serve, tries for the one place in the queue. */
  function EnqueueStep(s: State, k: nat): State {
    if k >= |s.requests| || !s.requests[k].answer.Asking? then s
    else if s.queue.None? then s.(queue := Some(k), requests := s.requests[k := s.requests[k].(answer := Waiting)])
    else s.(requests := s.requests[k := s.requests[k].(answer := QueueFull)])
  }

  function TakeStep(s: State, feasible: bool): State {
    if s.place != Idle || s.queue.None? || s.queue.value >= |s.requests| then s
    else
      var k := s.queue.value;
      if feasible then s.(queue := None, place := Begun, request := k, tier := s.requests[k].tier)
      else s.(queue := None, requests := Answered(s, k, Failed))
  }

  function Signal(s: State, p: nat): seq<Proc> {
    if p < |s.procs| then s.procs[p := s.procs[p].(signalled := true)] else s.procs
  }

  /** A step of the swap goroutine, once it has taken a request. */
  function SwapStep(s: State, a: Action): State {
    match a
    case MarkSwapping =>
      if s.place != Begun then s
      else s.(place := Marked,
              resident := if s.resident.Some? then Some(s.resident.value.(swapping := true)) else None)
    case LookAtResident =>
      if s.place != Marked then s
      else if s.resident.Some? then s.(place := Killing, pid := s.resident.value.pid)
      else s.(place := Starting)
    case SignalOld =>
      if s.place != Killing then s else s.(place := Signalled, procs := Signal(s, s.pid))
    case StopWaiting =>
      if s.place != Signalled then s else s.(place := Killed)
    case ClearOld =>
      if s.place != Killed then s else s.(place := Starting, resident := None)
    case Start(started) =>
      if s.place != Starting then s
      else if started then s.(place := Polling, pid := |s.procs|,
          procs := s.procs + [Proc(s.tier, true, false, Unwatched)])
      else s.(place := Idle, requests := Answered(s, s.request, Failed))
    case Poll(healthy) =>
      if s.place != Polling then s else s.(place := if healthy then Healthy else Unhealthy)
    case SignalNew =>
      if s.place != Unhealthy then s else s.(place := Discarded, procs := Signal(s, s.pid))
    case ClearFailed =>
      if s.place != Discarded then s
      else s.(place := Idle, resident := None, requests := Answered(s, s.request, Failed))
    case Install =>
      if s.place != Healthy then s else s.(place := Installed, resident := Some(Record(s.tier, s.pid, false)))
    case Watch =>
      if s.place != Installed || s.pid >= |s.procs| then s
      else s.(place := Idle, procs := s.procs[s.pid := s.procs[s.pid].(watcher := Watching)],
              requests := Answered(s, s.request, Loaded(Record(s.tier, s.pid, false))))
    case _ => s
  }

  /** A process exits, or its watcher moves. A watcher compares tiers, not processes. */
  function ProcessStep(s: State, a: Action): State {
    match a
    case Exit(p) =>
      if p < |s.procs| then s.(procs := s.procs[p := s.procs[p].(running := false)]) else s
    case Wake(p) =>
      if p < |s.procs| && s.procs[p].watcher.Watching? && !s.procs[p].running
      then s.(procs := s.procs[p := s.procs[p].(watcher := Woken)]) else s
    case WatcherClears(p) =>
      if p < |s.procs| && s.procs[p].watcher.Woken? then
        s.(procs := s.procs[p := s.procs[p].(watcher := Finished)],
           resident := if s.resident.Some? && s.resident.value.tier == s.procs[p].tier then None else s.resident)
      else s
    case _ => s
  }

  /** One step. An action whose turn it is not changes nothing. */
  function Step(s: State, a: Action): State {
    match a
    case Ask(tier) => AskStep(s, tier)
    case Enqueue(k) => EnqueueStep(s, k)
    case GiveUp(k) => s.(requests := Answered(s, k, GaveUp))
    case Take(feasible) => TakeStep(s, feasible)
    case Exit(_) => ProcessStep(s, a)
    case Wake(_) => ProcessStep(s, a)
    case WatcherClears(_) => ProcessStep(s, a)
    case _ => SwapStep(s, a)
  }

  /** A step of a requester, or the taking of a request. */
  predicate ByRequest(a: Action) {
    a.Ask? || a.Enqueue? || a.GiveUp? || a.Take?
  }

  function Run(trace: seq<Action>): State {
    if trace == [] then START else Step(Run(trace[..|trace| - 1]), trace[|trace| - 1])
  }

  // ----- a record in use names no signalled process -----

  predicate Starts(place: Place) {
    place in {Starting, Polling, Healthy, Unhealthy, Discarded}
  }

  /** The record, as far as the swap has come. */
  predicate RecordOk(s: State) {
    && (s.resident.Some? ==>
          s.resident.value.pid < |s.procs| && s.procs[s.resident.value.pid].tier == s.resident.value.tier)
    && (s.resident.Some? && s.place in {Idle, Begun, Installed} ==>
          !s.resident.value.swapping && !s.procs[s.resident.value.pid].signalled)
    && (s.resident.Some? && s.place in {Marked, Killing, Signalled, Killed} ==> s.resident.value.swapping)
    && (s.resident.Some? && s.place in {Killing, Signalled, Killed, Installed} ==> s.resident.value.pid == s.pid)
    && (Starts(s.place) ==> s.resident.None?)
  }

  /** The process the swap is at. */
  predicate ProcessOk(s: State) {
    && (s.place in {Killing, Signalled, Killed, Polling, Healthy, Unhealthy, Discarded, Installed} ==>
         s.pid < |s.procs|)
    && (s.place in {Polling, Healthy, Unhealthy, Installed} ==>
          var p := s.procs[s.pid]; p.tier == s.tier && !p.signalled && p.watcher.Unwatched?)
    && (s.place in {Signalled, Killed, Discarded} ==> s.procs[s.pid].signalled)
  }

  lemma SwapStepOk(s: State, a: Action)
    requires RecordOk(s) && ProcessOk(s)
    ensures RecordOk(SwapStep(s, a)) && ProcessOk(SwapStep(s, a))
  {
    hide Answered;
  }

  lemma ProcessStepOk(s: State, a: Action)
    requires RecordOk(s) && ProcessOk(s)
    ensures RecordOk(ProcessStep(s, a)) && ProcessOk(ProcessStep(s, a))
  {
  }

  lemma RequestStepOk(s: State, a: Action)
    requires RecordOk(s) && ProcessOk(s) && ByRequest(a)
    ensures RecordOk(Step(s, a)) && ProcessOk(Step(s, a))
  {
    hide Answered, Serves;
  }

  lemma StepOk(s: State, a: Action)
    requires RecordOk(s) && ProcessOk(s)
    ensures RecordOk(Step(s, a)) && ProcessOk(Step(s, a))
  {
    hide SwapStep, ProcessStep, AskStep, EnqueueStep, TakeStep, RecordOk, ProcessOk, Answered;
    if ByRequest(a) {
      RequestStepOk(s, a);
    } else {
      SwapStepOk(s, a);
      ProcessStepOk(s, a);
    }
  }

  lemma {:induction false} RunOk(trace: seq<Action>)
    ensures RecordOk(Run(trace)) && ProcessOk(Run(trace))
  {
    hide Step, RecordOk, ProcessOk;
    if trace == [] {
      StartOk();
    } else {
      RunOk(trace[..|trace| - 1]);
      StepOk(Run(trace[..|trace| - 1]), trace[|trace| - 1]);
    }
  }

  lemma StartOk()
    ensures RecordOk(START) && ProcessOk(START)
  {
  }

  lemma AnyPlace(place: Place)
    ensures place in {Idle, Begun, Installed} || place in {Marked, Killing, Signalled, Killed} || Starts(place)
  {
    match place
    case Idle => case Begun => case Marked => case Killing => case Signalled => case Killed =>
    case Starting => case Polling => case Healthy => case Unhealthy => case Discarded => case Installed =>
  }

  /** In every interleaving, a record that is not being swapped names a process that was never signalled, and
      between swaps no record is left marked as swapping. */
  lemma ServedIsUnsignalled(trace: seq<Action>)
    ensures var s := Run(trace);
            && (s.resident.Some? && !s.resident.value.swapping ==>
                  s.resident.value.pid < |s.procs| && !s.procs[s.resident.value.pid].signalled)
            && (s.resident.Some? && s.place == Idle ==> !s.resident.value.swapping)
  {
    hide Run;
    RunOk(trace);
    AnyPlace(Run(trace).place);
  }

  // ----- no process is lost -----

  predicate Pending(w: Watcher) {
    w.Watching? || w.Woken?
  }

  /** No exit watcher of an earlier process of the same tier is still on its way when a record is installed. */
  predicate Fair(s: State, a: Action) {
    a.Install? && s.place == Healthy ==>
      forall p :: 0 <= p < |s.procs| && Pending(s.procs[p].watcher) ==> s.procs[p].tier != s.tier
  }

  predicate AllFair(trace: seq<Action>) {
    trace == [] ||
    var n := |trace| - 1;
    AllFair(trace[..n]) && Fair(Run(trace[..n]), trace[n])
  }

  /** The process the swap goroutine holds without a record. */
  predicate InHand(s: State, p: nat) {
    s.place in {Polling, Healthy, Unhealthy} && s.pid == p
  }

  /** A running process that nobody has told to stop is the resident or in hand; a watcher that may still
      clear the record watches the process the record names. */
  predicate Kept(s: State, p: nat)
    requires p < |s.procs|
  {
    var x := s.procs[p];
    && (x.running && !x.signalled ==>
          (s.resident.Some? && s.resident.value.pid == p) || InHand(s, p))
    && (Pending(x.watcher) && s.resident.Some? && s.resident.value.tier == x.tier ==> s.resident.value.pid == p)
    && (x.watcher.Woken? ==> !x.running)
  }

  predicate AllKept(s: State) {
    forall p :: 0 <= p < |s.procs| ==> Kept(s, p)
  }

  lemma SwapStepKept(s: State, a: Action, p: nat)
    requires RecordOk(s) && ProcessOk(s) && AllKept(s) && Fair(s, a)
    requires p < |SwapStep(s, a).procs|
    ensures Kept(SwapStep(s, a), p)
  {
    hide Answered;
    if p < |s.procs| {
      assert Kept(s, p);
    }
  }

  lemma ProcessStepKept(s: State, a: Action, p: nat)
    requires RecordOk(s) && ProcessOk(s) && AllKept(s)
    requires p < |ProcessStep(s, a).procs|
    ensures Kept(ProcessStep(s, a), p)
  {
    assert Kept(s, p);
    if a.WatcherClears? && a.p < |s.procs| {
      assert Kept(s, a.p);
    }
  }

  lemma RequestStepKept(s: State, a: Action, p: nat)
    requires AllKept(s) && ByRequest(a)
    requires p < |Step(s, a).procs|
    ensures Kept(Step(s, a), p)
  {
    hide Answered, Serves;
    assert Kept(s, p);
  }

  lemma StepKept(s: State, a: Action)
    requires RecordOk(s) && ProcessOk(s) && AllKept(s) && Fair(s, a)
    ensures AllKept(Step(s, a))
  {
    hide SwapStep, ProcessStep, AskStep, EnqueueStep, TakeStep, RecordOk, ProcessOk, Kept, Fair, Answered;
    forall p | 0 <= p < |Step(s, a).procs|
      ensures Kept(Step(s, a), p)
    {
      if ByRequest(a) {
        RequestStepKept(s, a, p);
      } else if a.Exit? || a.Wake? || a.WatcherClears? {
        ProcessStepKept(s, a, p);
      } else {
        SwapStepKept(s, a, p);
      }
    }
  }

  lemma {:induction false} RunKept(trace: seq<Action>)
    requires AllFair(trace)
    ensures AllKept(Run(trace))
  {
    hide Step, RecordOk, ProcessOk, AllKept, Fair;
    if trace == [] {
      NothingToKeep();
    } else {
      RunKept(trace[..|trace| - 1]);
      RunOk(trace[..|trace| - 1]);
      StepKept(Run(trace[..|trace| - 1]), trace[|trace| - 1]);
    }
  }

  lemma NothingToKeep()
    ensures AllKept(START)
  {
  }

  /** If watchers are done before the next install of their tier, every running process that was not signalled
      is the resident or the one being started, so there is at most one. */
  lemma NoProcessIsLost(trace: seq<Action>, p: nat, q: nat)
    requires AllFair(trace)
    requires p < |Run(trace).procs| && Run(trace).procs[p].running && !Run(trace).procs[p].signalled
    ensures (Run(trace).resident.Some? && Run(trace).resident.value.pid == p) || InHand(Run(trace), p)
    ensures q < |Run(trace).procs| && Run(trace).procs[q].running && !Run(trace).procs[q].signalled ==> p == q
  {
    var s := Run(trace);
    RunOk(trace);
    RunKept(trace);
    hide Run;
    assert Kept(s, p);
    if q < |s.procs| {
      assert Kept(s, q);
    }
  }

  /** A running process that nobody has told to stop is named by the record or in hand. */
  predicate Tracked(s: State, p: nat)
    requires p < |s.procs|
  {
    s.procs[p].running && !s.procs[p].signalled ==> (s.resident.Some? && s.resident.value.pid == p) || InHand(s, p)
  }

  predicate AllTracked(s: State) {
    forall p :: 0 <= p < |s.procs| ==> Tracked(s, p)
  }

  /** A watcher about to clear the record of another process, still running, of the same tier. */
  predicate StaleWatcher(s: State, a: Action) {
    && a.WatcherClears? && a.p < |s.procs| && s.procs[a.p].watcher.Woken?
    && s.resident.Some? && s.resident.value.tier == s.procs[a.p].tier && s.resident.value.pid < |s.procs|
    && s.procs[s.resident.value.pid].running && !s.procs[s.resident.value.pid].signalled
  }

  lemma SwapStepTracks(s: State, a: Action, p: nat)
    requires RecordOk(s) && ProcessOk(s) && AllTracked(s) && p < |SwapStep(s, a).procs|
    ensures Tracked(SwapStep(s, a), p)
  {
    hide Answered;
    if p < |s.procs| {
      assert Tracked(s, p);
    }
  }

  lemma ProcessStepTracks(s: State, a: Action, p: nat)
    requires RecordOk(s) && ProcessOk(s) && AllTracked(s) && p < |ProcessStep(s, a).procs|
    ensures !StaleWatcher(s, a) ==> Tracked(ProcessStep(s, a), p)
  {
    assert Tracked(s, p);
  }

  lemma RequestStepTracks(s: State, a: Action, p: nat)
    requires AllTracked(s) && ByRequest(a) && p < |Step(s, a).procs|
    ensures Tracked(Step(s, a), p)
  {
    hide Answered, Serves;
    assert Tracked(s, p);
  }

  lemma StaleWatcherLoses(s: State, a: Action)
    requires RecordOk(s) && ProcessOk(s) && StaleWatcher(s, a)
    ensures !AllTracked(Step(s, a))
  {
    assert !Tracked(Step(s, a), s.resident.value.pid);
  }

  /** Exactly one kind of step loses a running process: a watcher that finds its own tier, but another process,
      in the record. */
  lemma LostExactlyByStaleWatcher(s: State, a: Action)
    requires RecordOk(s) && ProcessOk(s) && AllTracked(s)
    ensures AllTracked(Step(s, a)) <==> !StaleWatcher(s, a)
  {
    if StaleWatcher(s, a) {
      StaleWatcherLoses(s, a);
    } else {
      hide SwapStep, ProcessStep, AskStep, EnqueueStep, TakeStep, RecordOk, ProcessOk, Tracked, StaleWatcher, Answered;
      forall p | 0 <= p < |Step(s, a).procs|
        ensures Tracked(Step(s, a), p)
      {
        if ByRequest(a) {
          RequestStepTracks(s, a, p);
        } else if a.Exit? || a.Wake? || a.WatcherClears? {
          ProcessStepTracks(s, a, p);
        } else {
          SwapStepTracks(s, a, p);
        }
      }
    }
  }

  // ----- requests -----

  predicate RequestOk(s: State, k: nat)
    requires k < |s.requests|
  {
    var r := s.requests[k];
    && (r.answer.Loaded? ==> r.answer.record.tier == r.tier && !r.answer.record.swapping)
    && (r.answer.Waiting? ==> s.queue == Some(k) || (s.place != Idle && s.request == k))
    && (r.answer.Asking? ==> s.queue != Some(k) && (s.place != Idle ==> s.request != k))
  }

  predicate RequestsOk(s: State) {
    && (forall k :: 0 <= k < |s.requests| ==> RequestOk(s, k))
    && (s.queue.Some? ==> s.queue.value < |s.requests|)
    && (s.place != Idle ==> s.request < |s.requests| && s.tier == s.requests[s.request].tier)
  }

  lemma StepRequests(s: State, a: Action)
    requires RequestsOk(s) && ProcessOk(s)
    ensures var t := Step(s, a);
            && |t.requests| >= |s.requests|
            && (t.queue.Some? ==> t.queue.value < |t.requests|)
            && (t.place != Idle ==> t.request < |t.requests| && t.tier == t.requests[t.request].tier)
  {
    hide ProcessStep, RequestOk, Serves;
    ProcessStepKeepsRequests(s, a);
  }

  lemma ProcessStepKeepsRequests(s: State, a: Action)
    ensures var t := ProcessStep(s, a);
            t.requests == s.requests && t.queue == s.queue && t.place == s.place && t.request == s.request
                && t.tier == s.tier
  {
  }

  lemma StepRequest(s: State, a: Action, k: nat)
    requires RequestsOk(s) && ProcessOk(s) && k < |Step(s, a).requests|
    ensures RequestOk(Step(s, a), k)
  {
    hide ProcessStep;
    ProcessStepKeepsRequests(s, a);
    if k < |s.requests| {
      assert RequestOk(s, k);
    }
  }

  lemma {:induction false} RunRequests(trace: seq<Action>)
    ensures RequestsOk(Run(trace))
  {
    hide Step, RequestOk, ProcessOk;
    if trace == [] {
    } else {
      var s, a := Run(trace[..|trace| - 1]), trace[|trace| - 1];
      RunRequests(trace[..|trace| - 1]);
      RunOk(trace[..|trace| - 1]);
      StepRequests(s, a);
      forall k | 0 <= k < |Step(s, a).requests|
        ensures RequestOk(Step(s, a), k)
      {
        StepRequest(s, a, k);
      }
    }
  }

  /** EnsureLoaded answers with the tier it was asked for, and a request without an answer is the one in the
      queue or the one being served: none is forgotten. */
  lemma AnswersFit(trace: seq<Action>, k: nat)
    requires k < |Run(trace).requests|
    ensures var s := Run(trace);
            var r := s.requests[k];
            && (r.answer.Loaded? ==> r.answer.record.tier == r.tier && !r.answer.record.swapping)
            && (r.answer.Waiting? ==> s.queue == Some(k) || (s.place != Idle && s.request == k))
  {
    RunRequests(trace);
    assert RequestOk(Run(trace), k);
  }

  /** What a look at the record tells a caller of EnsureLoaded, whatever is queued and wherever the swap is: the
      record, exactly if there is one for its tier that is not being replaced. The process of that record serves the
      tier and was never signalled, and no swap is queued for the caller. */
  lemma AskedAtOnce(trace: seq<Action>, tier: string)
    ensures var s, t := Run(trace), Run(trace + [Ask(tier)]);
            var k := |s.requests|;
            && |t.requests| == k + 1 && t.requests[..k] == s.requests && t.requests[k].tier == tier
            && t == s.(requests := t.requests)
            && t.requests[k].answer == (match s.resident
                                        case Some(r) =>
                                          if r.tier == tier && !r.swapping then Loaded(r) else Asking
                                        case None => Asking)
            && (t.requests[k].answer.Loaded? ==>
                  var pid := t.requests[k].answer.record.pid;
                  pid < |t.procs| && t.procs[pid].tier == tier && !t.procs[pid].signalled)
  {
    hide Run, RequestOk;
    var s := Run(trace);
    RunSnoc(trace, Ask(tier));
    ServedIsUnsignalled(trace);
    RunOk(trace);
    var request := Request(tier, if Serves(s, tier) then Loaded(s.resident.value) else Asking);
    assert (s.requests + [request])[..|s.requests|] == s.requests;
  }

  /** What must have happened for request `k` to be answered so. A record it was given is that of a process started for
      its tier. */
  ghost predicate HasCause(trace: seq<Action>, s: State, k: nat, r: Request) {
    match r.answer
    case Asking => Ask(r.tier) in trace
    case Waiting => Enqueue(k) in trace
    case QueueFull => Enqueue(k) in trace
    case GaveUp => GiveUp(k) in trace
    case Failed => Take(false) in trace || Start(false) in trace || (Poll(false) in trace && ClearFailed in trace)
    case Loaded(record) =>
      record.tier == r.tier && !record.swapping && record.pid < |s.procs| && s.procs[record.pid].tier == r.tier
  }

  ghost predicate Caused(trace: seq<Action>, s: State) {
    && (forall k: nat :: k < |s.requests| ==> HasCause(trace, s, k, s.requests[k]))
    && (s.place in {Unhealthy, Discarded} ==> Poll(false) in trace)
  }

  lemma CausedLater(trace: seq<Action>, s: State, a: Action)
    requires Caused(trace, s)
    ensures Caused(trace + [a], s) && a in trace + [a]
  {
    var more := trace + [a];
    assert forall b :: b in trace ==> b in more;
    assert more[|trace|] == a;
  }

  lemma RequestStepCaused(trace: seq<Action>, s: State, a: Action, k: nat)
    requires Caused(trace, s) && RecordOk(s) && a in trace && ByRequest(a) && k < |Step(s, a).requests|
    ensures HasCause(trace, Step(s, a), k, Step(s, a).requests[k])
  {
    if k < |s.requests| {
      assert HasCause(trace, s, k, s.requests[k]);
    }
    hide Caused;
  }

  lemma SwapStepCaused(trace: seq<Action>, s: State, a: Action, k: nat)
    requires Caused(trace, s) && RequestsOk(s) && ProcessOk(s) && a in trace && k < |SwapStep(s, a).requests|
    ensures HasCause(trace, SwapStep(s, a), k, SwapStep(s, a).requests[k])
  {
    assert HasCause(trace, s, k, s.requests[k]);
    assert s.place in {Unhealthy, Discarded} ==> Poll(false) in trace;
    hide Caused, RequestOk;
  }

  lemma ProcessStepCaused(trace: seq<Action>, s: State, a: Action, k: nat)
    requires Caused(trace, s) && k < |ProcessStep(s, a).requests|
    ensures HasCause(trace, ProcessStep(s, a), k, ProcessStep(s, a).requests[k])
  {
    assert HasCause(trace, s, k, s.requests[k]);
    hide Caused;
  }

  lemma StepCaused(trace: seq<Action>, s: State, a: Action)
    requires Caused(trace, s) && RecordOk(s) && ProcessOk(s) && RequestsOk(s)
    ensures Caused(trace + [a], Step(s, a))
  {
    var more := trace + [a];
    CausedLater(trace, s, a);
    assert Step(s, a).place in {Unhealthy, Discarded} ==> Poll(false) in more;
    hide SwapStep, ProcessStep, AskStep, EnqueueStep, TakeStep, RecordOk, ProcessOk, RequestsOk, HasCause, Answered;
    forall k: nat | k < |Step(s, a).requests|
      ensures HasCause(more, Step(s, a), k, Step(s, a).requests[k])
    {
      if ByRequest(a) {
        RequestStepCaused(more, s, a, k);
      } else if a.Exit? || a.Wake? || a.WatcherClears? {
        ProcessStepCaused(more, s, a, k);
      } else {
        SwapStepCaused(more, s, a, k);
      }
    }
  }

  lemma {:induction false} RunCaused(trace: seq<Action>)
    ensures Caused(trace, Run(trace))
  {
    hide Step, RecordOk, ProcessOk, RequestsOk, HasCause;
    if trace != [] {
      var n := |trace| - 1;
      RunCaused(trace[..n]);
      RunOk(trace[..n]);
      RunRequests(trace[..n]);
      assert trace[..n] + [trace[n]] == trace;
      StepCaused(trace[..n], Run(trace[..n]), trace[n]);
    }
  }

  /** In every interleaving an answer comes from something that happened. */
  lemma AnswerHasCause(trace: seq<Action>, k: nat)
    requires k < |Run(trace).requests|
    ensures HasCause(trace, Run(trace), k, Run(trace).requests[k])
  {
    RunCaused(trace);
    hide Run, HasCause;
  }

  predicate Final(r: Request) {
    !r.answer.Asking? && !r.answer.Waiting?
  }

  lemma FinalStays(s: State, a: Action, k: nat)
    requires k < |s.requests| && Final(s.requests[k])
    ensures k < |Step(s, a).requests| && Step(s, a).requests[k] == s.requests[k]
  {
    hide ProcessStep, Serves;
    ProcessStepKeepsRequests(s, a);
  }

  /** An answer, once given, stays, whatever happens next. */
  lemma {:induction false} AnswerIsFinal(trace: seq<Action>, k: nat, more: seq<Action>)
    requires k < |Run(trace).requests| && Final(Run(trace).requests[k])
    ensures k < |Run(trace + more).requests| && Run(trace + more).requests[k] == Run(trace).requests[k]
    decreases |more|
  {
    hide Step;
    if more == [] {
      assert trace + more == trace;
    } else {
      var n := |more| - 1;
      AnswerIsFinal(trace, k, more[..n]);
      assert trace + more == (trace + more[..n]) + [more[n]];
      RunSnoc(trace + more[..n], more[n]);
      FinalStays(Run(trace + more[..n]), more[n], k);
    }
  }

  /** A caller that waits can give up at any time. Nobody else notices: the swap goes on for nobody. */
  lemma GivesUp(trace: seq<Action>, k: nat)
    requires k < |Run(trace).requests| && Run(trace).requests[k].answer.Waiting?
    ensures var s, t := Run(trace), Run(trace + [GiveUp(k)]);
            t == s.(requests := s.requests[k := Request(s.requests[k].tier, GaveUp)])
  {
    hide Run;
    RunSnoc(trace, GiveUp(k));
  }

  /** What the queue then tells it: it has the one place if nobody else had, and is refused exactly if another request
      has it. Nothing else changes. */
  lemma QueuedOrRefused(trace: seq<Action>, k: nat)
    requires k < |Run(trace).requests| && Run(trace).requests[k].answer.Asking?
    ensures var s, t := Run(trace), Run(trace + [Enqueue(k)]);
            && t == s.(queue := t.queue, requests := t.requests)
            && t.requests == s.requests[k := Request(s.requests[k].tier, if s.queue.None? then Waiting else QueueFull)]
            && (if s.queue.None? then t.queue == Some(k)
                else t.queue == s.queue && s.queue.value != k && s.queue.value < |s.requests|)
  {
    hide Run, ProcessOk;
    RunSnoc(trace, Enqueue(k));
    RunRequests(trace);
    assert RequestOk(Run(trace), k);
  }

  lemma RunSnoc(trace: seq<Action>, a: Action)
    ensures Run(trace + [a]) == Step(Run(trace), a)
  {
    assert (trace + [a])[..|trace|] == trace;
  }

  // ----- a late watcher -----

  lemma RunMore(trace: seq<Action>, a: Action, b: Action, c: Action, d: Action)
    ensures Run(trace + [a, b, c, d]) == Step(Step(Step(Step(Run(trace), a), b), c), d)
  {
    hide Step;
    var t := trace + [a, b, c, d];
    assert t[..|trace| + 3] == trace + [a, b, c];
    assert (trace + [a, b, c])[..|trace| + 2] == trace + [a, b];
    assert (trace + [a, b])[..|trace| + 1] == trace + [a];
    assert (trace + [a])[..|trace|] == trace;
    assert Run(trace + [a]) == Step(Run(trace), a);
    assert Run(trace + [a, b]) == Step(Run(trace + [a]), b);
    assert Run(trace + [a, b, c]) == Step(Run(trace + [a, b]), c);
  }

  /** A load, with a second request for the tier that looks at the record before the model is there. */
  function FirstLoad(tier: string): seq<Action> {
    [Ask(tier), Enqueue(0), Take(true), MarkSwapping]
    + [LookAtResident, Start(true), Ask(tier), Poll(true)]
    + [Install, Watch, Enqueue(1), Take(true)]
  }

  /** That request has the model loaded again. */
  function Reload(tier: string): seq<Action> {
    FirstLoad(tier)
    + [MarkSwapping, LookAtResident, SignalOld, Exit(0)]
    + [StopWaiting, ClearOld, Start(true), Poll(true)]
  }

  /** The first process's watcher gets to the record only now, and then the tier is asked for again. */
  function LateWatcher(tier: string): seq<Action> {
    Reload(tier)
    + [Install, Watch, Wake(0), WatcherClears(0)]
    + [Ask(tier), Enqueue(2), Take(true), MarkSwapping]
    + [LookAtResident, Start(true), Poll(true), GiveUp(2)]
  }

  function FirstAnswered(tier: string): Request {
    Request(tier, Loaded(Record(tier, 0, false)))
  }

  function SecondAnswered(tier: string): Request {
    Request(tier, Loaded(Record(tier, 1, false)))
  }

  lemma Asked(tier: string)
    ensures Run([Ask(tier), Enqueue(0), Take(true), MarkSwapping]) ==
            State([], None, Marked, 0, tier, 0, None, [Request(tier, Waiting)])
  {
    hide Run;
    RunNothing();
    RunMore([], Ask(tier), Enqueue(0), Take(true), MarkSwapping);
    var first := [Ask(tier), Enqueue(0), Take(true), MarkSwapping];
    assert [] + first == first;
    assert Step(START, Ask(tier)) == START.(requests := [Request(tier, Asking)]);
    var s2 := START.(queue := Some(0), requests := [Request(tier, Waiting)]);
    assert Step(Step(START, Ask(tier)), Enqueue(0)) == s2;
    assert Step(s2, Take(true)) == s2.(queue := None, place := Begun, tier := tier);
  }

  lemma Launching(tier: string)
    ensures Run([Ask(tier), Enqueue(0), Take(true), MarkSwapping]
            + [LookAtResident, Start(true), Ask(tier), Poll(true)]) ==
            State([Proc(tier, true, false, Unwatched)], None, Healthy, 0, tier, 0, None,
                  [Request(tier, Waiting), Request(tier, Asking)])
  {
    hide Run;
    Asked(tier);
    var first := [Ask(tier), Enqueue(0), Take(true), MarkSwapping];
    RunMore(first, LookAtResident, Start(true), Ask(tier), Poll(true));
    var s1 := Step(Run(first), LookAtResident);
    assert s1 == Run(first).(place := Starting);
    var s2 := s1.(place := Polling, procs := [Proc(tier, true, false, Unwatched)]);
    assert Step(s1, Start(true)) == s2;
    assert Step(s2, Ask(tier)) == s2.(requests := [Request(tier, Waiting), Request(tier, Asking)]);
  }

  /** Between the look at the record and the try for the queue a swap can finish: the request is then queued although
      the record serves its tier, and the model that serves it is stopped and started again. */
  lemma QueuedThoughServed(tier: string)
    ensures var launched := [Ask(tier), Enqueue(0), Take(true), MarkSwapping]
                            + [LookAtResident, Start(true), Ask(tier), Poll(true)];
            && Serves(Run(launched + [Install] + [Watch]), tier)
            && Run(launched + [Install] + [Watch] + [Enqueue(1)]).queue == Some(1)
            && Run(launched + [Install] + [Watch] + [Enqueue(1)]).resident ==
                 Run(launched + [Install] + [Watch]).resident
  {
    hide Run;
    Launching(tier);
    var launched := [Ask(tier), Enqueue(0), Take(true), MarkSwapping]
                    + [LookAtResident, Start(true), Ask(tier), Poll(true)];
    RunSnoc(launched, Install);
    RunSnoc(launched + [Install], Watch);
    RunSnoc(launched + [Install] + [Watch], Enqueue(1));
    InstalledThen(tier);
  }

  lemma InstalledThen(tier: string)
    ensures var s := State([Proc(tier, true, false, Unwatched)], None, Healthy, 0, tier, 0, None,
                           [Request(tier, Waiting), Request(tier, Asking)]);
            Step(Step(s, Install), Watch) ==
            State([Proc(tier, true, false, Watching)], Some(Record(tier, 0, false)), Idle, 0, tier, 0, None,
                  [FirstAnswered(tier), Request(tier, Asking)])
  {
  }

  lemma FirstLoaded(tier: string)
    ensures Run(FirstLoad(tier)) ==
            State([Proc(tier, true, false, Watching)], Some(Record(tier, 0, false)), Begun, 1, tier, 0, None,
                  [FirstAnswered(tier), Request(tier, Waiting)])
  {
    hide Run;
    Launching(tier);
    InstalledThen(tier);
    var launched := [Ask(tier), Enqueue(0), Take(true), MarkSwapping]
                    + [LookAtResident, Start(true), Ask(tier), Poll(true)];
    RunMore(launched, Install, Watch, Enqueue(1), Take(true));
    var s := Step(Step(Run(launched), Install), Watch);
    var requests := [FirstAnswered(tier), Request(tier, Waiting)];
    assert Step(s, Enqueue(1)) == s.(queue := Some(1), requests := requests);
  }

  lemma RunNothing()
    ensures Run([]) == START
  {
  }

  lemma Stopped(tier: string)
    ensures Run(FirstLoad(tier) + [MarkSwapping, LookAtResident, SignalOld, Exit(0)]) ==
            State([Proc(tier, false, true, Watching)], Some(Record(tier, 0, true)), Signalled, 1, tier, 0, None,
                  [FirstAnswered(tier), Request(tier, Waiting)])
  {
    hide Run;
    FirstLoaded(tier);
    var t0 := FirstLoad(tier);
    RunMore(t0, MarkSwapping, LookAtResident, SignalOld, Exit(0));
    var s := Run(t0);
    var s2 := s.(place := Killing, resident := Some(Record(tier, 0, true)));
    assert Step(Step(s, MarkSwapping), LookAtResident) == s2;
    var s3 := s2.(place := Signalled, procs := [Proc(tier, true, true, Watching)]);
    assert Step(s2, SignalOld) == s3;
    assert Step(s3, Exit(0)) == s3.(procs := [Proc(tier, false, true, Watching)]);
  }

  lemma Reloaded(tier: string)
    ensures Run(Reload(tier)) ==
            State([Proc(tier, false, true, Watching), Proc(tier, true, false, Unwatched)], None,
                  Healthy, 1, tier, 1, None, [FirstAnswered(tier), Request(tier, Waiting)])
  {
    hide Run;
    Stopped(tier);
    var t1 := FirstLoad(tier) + [MarkSwapping, LookAtResident, SignalOld, Exit(0)];
    RunMore(t1, StopWaiting, ClearOld, Start(true), Poll(true));
    var s := Run(t1);
    var s2 := s.(place := Starting, resident := None);
    assert Step(Step(s, StopWaiting), ClearOld) == s2;
    var procs := [Proc(tier, false, true, Watching), Proc(tier, true, false, Unwatched)];
    assert Step(s2, Start(true)) == s2.(place := Polling, pid := 1, procs := procs);
  }

  lemma WatcherWasLate(tier: string)
    ensures Run(Reload(tier) + [Install, Watch, Wake(0), WatcherClears(0)]) ==
            State([Proc(tier, false, true, Finished), Proc(tier, true, false, Watching)], None, Idle, 1, tier, 1, None,
                  [FirstAnswered(tier), SecondAnswered(tier)])
  {
    hide Run, Step;
    Reloaded(tier);
    RunMore(Reload(tier), Install, Watch, Wake(0), WatcherClears(0));
    SecondInstalled(tier);
    FirstWatcherClears(tier);
  }

  lemma SecondInstalled(tier: string)
    ensures var s := State([Proc(tier, false, true, Watching), Proc(tier, true, false, Unwatched)], None,
                           Healthy, 1, tier, 1, None, [FirstAnswered(tier), Request(tier, Waiting)]);
            Step(Step(s, Install), Watch) ==
            State([Proc(tier, false, true, Watching), Proc(tier, true, false, Watching)], Some(Record(tier, 1, false)),
                  Idle, 1, tier, 1, None, [FirstAnswered(tier), SecondAnswered(tier)])
  {
  }

  lemma FirstWatcherClears(tier: string)
    ensures var s := State([Proc(tier, false, true, Watching), Proc(tier, true, false, Watching)],
                           Some(Record(tier, 1, false)), Idle, 1, tier, 1, None,
                           [FirstAnswered(tier), SecondAnswered(tier)]);
            Step(Step(s, Wake(0)), WatcherClears(0)) ==
            State([Proc(tier, false, true, Finished), Proc(tier, true, false, Watching)], None,
                  Idle, 1, tier, 1, None, [FirstAnswered(tier), SecondAnswered(tier)])
  {
  }

  lemma AskedAgain(tier: string)
    ensures var s := Run(Reload(tier) + [Install, Watch, Wake(0), WatcherClears(0)]
                         + [Ask(tier), Enqueue(2), Take(true), MarkSwapping]);
            && s.procs == [Proc(tier, false, true, Finished), Proc(tier, true, false, Watching)]
            && s.resident == None && s.place == Marked && s.tier == tier
  {
    hide Run;
    WatcherWasLate(tier);
    var t := Reload(tier) + [Install, Watch, Wake(0), WatcherClears(0)];
    RunMore(t, Ask(tier), Enqueue(2), Take(true), MarkSwapping);
    var s := Run(t);
    var s1 := s.(requests := s.requests + [Request(tier, Asking)]);
    assert Step(s, Ask(tier)) == s1;
    var s2 := s.(queue := Some(2), requests := s.requests + [Request(tier, Waiting)]);
    assert Step(s1, Enqueue(2)) == s2;
    assert Step(s2, Take(true)) == s2.(queue := None, place := Begun, request := 2);
  }

  /** Without that condition a process can be lost: the first process's watcher clears the record of the
      second, which goes on running, unsignalled and unknown, beside a third. */
  lemma LateWatcherLosesProcess(tier: string)
    ensures var s := Run(LateWatcher(tier));
            && |s.procs| == 3 && s.resident == None && s.place == Healthy && s.pid == 2
            && s.procs[1].running && !s.procs[1].signalled
            && s.procs[2].running && !s.procs[2].signalled
  {
    hide Run;
    AskedAgain(tier);
    var t := Reload(tier) + [Install, Watch, Wake(0), WatcherClears(0)]
        + [Ask(tier), Enqueue(2), Take(true), MarkSwapping];
    RunMore(t, LookAtResident, Start(true), Poll(true), GiveUp(2));
    var s := Run(t);
    var s1 := Step(s, LookAtResident);
    assert s1 == s.(place := Starting);
    assert Step(s1, Start(true)) ==
             s1.(place := Polling, pid := 2, procs := s.procs + [Proc(tier, true, false, Unwatched)]);
  }

  // ----- the object -----

  lemma StoppedIs(s: State)
    requires RecordOk(s) && ProcessOk(s) && s.place == Begun
    ensures s.resident.Some? ==> s.resident.value.pid < |s.procs|
    ensures Steps(Step, s, [MarkSwapping, LookAtResident, SignalOld, StopWaiting, ClearOld]) ==
            if s.resident.None? then s.(place := Starting)
            else s.(place := Starting, resident := None, pid := s.resident.value.pid,
                    procs := Signal(s, s.resident.value.pid))
  {
    ResidentIsThere(s);
    hide Step, RecordOk, ProcessOk;
    FiveSteps(Step, s, MarkSwapping, LookAtResident, SignalOld, StopWaiting, ClearOld);
    MarkedIs(s);
    NothingToStop(s.(place := Starting));
  }

  lemma ResidentIsThere(s: State)
    requires RecordOk(s)
    ensures s.resident.Some? ==> s.resident.value.pid < |s.procs|
  {
  }

  lemma MarkedIs(s: State)
    requires s.place == Begun
    ensures s.resident.None? ==> Step(Step(s, MarkSwapping), LookAtResident) == s.(place := Starting)
    ensures s.resident.Some? ==>
              Step(Step(Step(Step(Step(s, MarkSwapping), LookAtResident), SignalOld), StopWaiting), ClearOld) ==
              s.(place := Starting, resident := None, pid := s.resident.value.pid,
                  procs := Signal(s, s.resident.value.pid))
  {
    hide Signal;
    var marked := Step(s, MarkSwapping);
    if s.resident.Some? {
      var r := s.resident.value;
      assert marked == s.(place := Marked, resident := Some(r.(swapping := true)));
      KillsMarked(marked, r.pid);
      SignalReads(s, marked, r.pid);
    } else {
      assert marked == s.(place := Marked);
    }
  }

  lemma KillsMarked(s: State, pid: nat)
    requires s.place == Marked && s.resident.Some? && s.resident.value.pid == pid
    ensures Step(Step(Step(Step(s, LookAtResident), SignalOld), StopWaiting), ClearOld) ==
            s.(place := Starting, resident := None, pid := pid, procs := Signal(s, pid))
  {
    hide Signal;
    var killing := s.(place := Killing, pid := pid);
    assert Step(s, LookAtResident) == killing;
    SignalReads(s, killing, pid);
    var signalled := killing.(place := Signalled, procs := Signal(s, pid));
    assert Step(killing, SignalOld) == signalled;
    assert Step(signalled, StopWaiting) == signalled.(place := Killed);
  }

  lemma SignalReads(s: State, t: State, p: nat)
    requires t.procs == s.procs
    ensures Signal(t, p) == Signal(s, p)
  {
  }

  lemma NothingToStop(s: State)
    requires s.place == Starting
    ensures Step(s, SignalOld) == Step(s, StopWaiting) == Step(s, ClearOld) == s
  {
  }

  lemma DiscardedIs(s: State)
    requires ProcessOk(s) && s.place == Unhealthy
    ensures s.pid < |s.procs| && Signal(s, s.pid) == s.procs[s.pid := s.procs[s.pid].(signalled := true)]
    ensures Step(Step(s, SignalNew), ClearFailed) ==
            s.(place := Idle, resident := None, procs := Signal(s, s.pid), requests := Answered(s, s.request, Failed))
  {
  }

  lemma AdoptedIs(s: State)
    requires ProcessOk(s) && s.place == Healthy
    ensures s.pid < |s.procs|
    ensures Step(Step(s, Install), Watch) ==
            s.(place := Idle, resident := Some(Record(s.tier, s.pid, false)),
               procs := s.procs[s.pid := s.procs[s.pid].(watcher := Watching)],
               requests := Answered(s, s.request, Loaded(Record(s.tier, s.pid, false))))
  {
  }

  /** Answering a request looks at the requests alone. */
  lemma AnswerReads(s: State, t: State, k: nat, answer: Answer)
    requires t.requests == s.requests
    ensures Answered(t, k, answer) == Answered(s, k, answer)
  {
  }

  lemma IdleStays(s: State, healthy: bool)
    requires s.place == Idle
    ensures Step(s, Poll(healthy)) == Step(s, SignalNew) == Step(s, ClearFailed) == Step(s, Install) ==
              Step(s, Watch) == s
  {
  }

  lemma SignalsLast(s: State, before: seq<Proc>, p: Proc)
    requires s.procs == before + [p]
    ensures Signal(s, |before|) == before + [p.(signalled := true)]
  {
  }

  lemma HealthyIsKept(s: State)
    requires s.place == Healthy
    ensures Step(s, SignalNew) == Step(s, ClearFailed) == s
  {
  }

  lemma Launched(s: State, healthy: bool)
    requires s.place == Starting && ProcessOk(s)
    ensures Step(s, Start(false)) == s.(place := Idle, requests := Answered(s, s.request, Failed))
    ensures Step(Step(s, Start(true)), Poll(healthy)) ==
            s.(place := if healthy then Healthy else Unhealthy, pid := |s.procs|,
               procs := s.procs + [Proc(s.tier, true, false, Unwatched)])
    ensures ProcessOk(Step(Step(s, Start(true)), Poll(healthy)))
  {
    hide Answered;
  }

  /** Only request `k` changes, and gets that answer if it still waits for one. */
  ghost predicate Settled(before: seq<Request>, after: seq<Request>, k: nat, answer: Answer) {
    && |after| == |before|
    && (forall i :: 0 <= i < |before| && i != k ==> after[i] == before[i])
    && (k < |before| ==>
          after[k] == if before[k].answer == Waiting then Request(before[k].tier, answer) else before[k])
  }

  lemma AnswerSettles(s: State, k: nat, answer: Answer)
    ensures Settled(s.requests, Answered(s, k, answer), k, answer)
  {
  }

  /** The manager. `place`, `request`, `tier` and `pid` are what the swap goroutine has in its own variables. */
  class Manager {
    var procs: seq<Proc>
    var resident: Option<Record>
    var queue: Option<nat>
    var requests: seq<Request>
    var place: Place
    var request: nat
    var tier: string
    var pid: nat

    function View(): State
      reads this
    {
      State(procs, resident, place, request, tier, pid, queue, requests)
    }

    constructor ()
      ensures View() == START
    {
      procs, resident, queue, requests, place, request, tier, pid := [], None, None, [], Idle, 0, "", 0;
    }

    /** EnsureLoaded up to the point where it waits. */
    method EnsureLoaded(tier: string) returns (k: nat)
      modifies this
      ensures View() == Steps(Step, old(View()), [Ask(tier), Enqueue(k)]) && k == |old(requests)|
      ensures |requests| == k + 1 && requests[..k] == old(requests) && requests[k].tier == tier
      ensures requests[k].answer == match old(resident)
                                    case Some(r) =>
                                      if r.tier == tier && !r.swapping then Loaded(r)
                                      else if old(queue) == None then Waiting else QueueFull
                                    case None => if old(queue) == None then Waiting else QueueFull
      ensures queue == if requests[k].answer == Waiting then Some(k) else old(queue)
    {
      k := |requests|;
      TwoSteps(Step, View(), Ask(tier), Enqueue(k));
      if resident.Some? && resident.value.tier == tier && !resident.value.swapping {
        requests := requests + [Request(tier, Loaded(resident.value))];
      } else if queue.None? {
        queue := Some(k);
        requests := requests + [Request(tier, Waiting)];
      } else {
        requests := requests + [Request(tier, QueueFull)];
      }
    }

    method TakeRequest(feasible: bool)
      requires place == Idle && queue.Some? && queue.value < |requests|
      modifies this
      ensures View() == Step(old(View()), Take(feasible))
      ensures queue == None && resident == old(resident) && procs == old(procs)
      ensures feasible ==>
                place == Begun && Some(request) == old(queue) && tier == requests[request].tier
                    && requests == old(requests)
      ensures !feasible ==> place == Idle && Settled(old(requests), requests, old(queue).value, Failed)
    {
      var k := queue.value;
      queue := None;
      if !feasible {
        AnswerSettles(View(), k, Failed);
        requests := Answered(View(), k, Failed);
        return;
      }
      place, request, tier := Begun, k, requests[k].tier;
    }

    /** Mark the resident, stop it, forget it. */
    method StopResident()
      requires RecordOk(View()) && ProcessOk(View()) && place == Begun
      modifies this
      ensures View() == Steps(Step, old(View()), [MarkSwapping, LookAtResident, SignalOld, StopWaiting, ClearOld])
      ensures place == Starting && resident == None
      ensures procs == if old(resident).Some? then Signal(old(View()), old(resident).value.pid) else old(procs)
    {
      StoppedIs(View());
      hide Step, RecordOk, ProcessOk;
      if resident.Some? {
        resident := Some(resident.value.(swapping := true));
      }
      place := Marked;
      var r := resident;
      if r.Some? {
        place, pid := Killing, r.value.pid;
        procs := procs[r.value.pid := procs[r.value.pid].(signalled := true)];
        place := Signalled;
        place := Killed;
        resident := None;
      }
      place := Starting;
    }

    /** An unhealthy new process is stopped and forgotten. */
    method Discard()
      requires ProcessOk(View()) && place == Unhealthy
      modifies this
      ensures View() == Step(Step(old(View()), SignalNew), ClearFailed) && tier == old(tier)
      ensures place == Idle && resident == None && procs == Signal(old(View()), old(pid))
      ensures Settled(old(requests), requests, request, Failed) && request == old(request)
    {
      ghost var s := View();
      DiscardedIs(s);
      hide Step, Answered, Signal, ProcessOk;
      procs := procs[pid := procs[pid].(signalled := true)];
      place := Discarded;
      resident := None;
      AnswerReads(s, View(), request, Failed);
      AnswerSettles(s, request, Failed);
      requests := Answered(View(), request, Failed);
      place := Idle;
    }

    /** A healthy new process becomes the resident, and gets its watcher. */
    method Adopt() returns (loaded: Record)
      requires ProcessOk(View()) && place == Healthy
      modifies this
      ensures View() == Step(Step(old(View()), Install), Watch)
      ensures place == Idle && resident == Some(loaded) && loaded == Record(old(tier), old(pid), false)
      ensures procs == old(procs)[old(pid) := old(procs)[old(pid)].(watcher := Watching)] && tier == old(tier)
      ensures Settled(old(requests), requests, request, Loaded(loaded)) && request == old(request)
    {
      ghost var s := View();
      AdoptedIs(s);
      hide Step, Answered, ProcessOk;
      loaded := Record(tier, pid, false);
      resident := Some(loaded);
      place := Installed;
      procs := procs[pid := procs[pid].(watcher := Watching)];
      AnswerReads(s, View(), request, Loaded(loaded));
      AnswerSettles(s, request, Loaded(loaded));
      requests := Answered(View(), request, Loaded(loaded));
      place := Idle;
    }

    /** Start the new model and, once it is healthy, make it the resident. */
    method StartModel(started: bool, healthy: bool) returns (loaded: Option<Record>)
      requires ProcessOk(View()) && place == Starting && resident == None
      modifies this
      ensures View() ==
                Steps(Step, old(View()), [Start(started), Poll(healthy), SignalNew, ClearFailed, Install, Watch])
      ensures place == Idle && resident == loaded
      ensures loaded.Some? <==> started && healthy
      ensures loaded.Some? ==> loaded.value == Record(tier, |old(procs)|, false)
      ensures procs == if !started then old(procs)
                       else old(procs) + [Proc(tier, true, !healthy, if healthy then Watching else Unwatched)]
      ensures Settled(old(requests), requests, request, if loaded.Some? then Loaded(loaded.value) else Failed)
    {
      hide *;
      ghost var s := View();
      SixSteps(Step, s, Start(started), Poll(healthy), SignalNew, ClearFailed, Install, Watch);
      ViewOf();
      Launched(s, healthy);
      if !started {
        IdleStays(Step(s, Start(false)), healthy);
        AnswerSettles(View(), request, Failed);
        requests := Answered(View(), request, Failed);
        place := Idle;
        ViewOf();
        return None;
      }
      procs := procs + [Proc(tier, true, false, Unwatched)];
      place, pid := Polling, |procs| - 1;
      if !healthy {
        place := Unhealthy;
        ViewOf();
        SignalsLast(View(), s.procs, Proc(tier, true, false, Unwatched));
        Discard();
        ViewOf();
        IdleStays(View(), healthy);
        return None;
      }
      place := Healthy;
      ViewOf();
      HealthyIsKept(View());
      var r := Adopt();
      return Some(r);
    }

    lemma ViewOf()
      ensures View() == State(procs, resident, place, request, tier, pid, queue, requests)
    {
    }

    /** A watcher whose process has exited. */
    method WatcherDone(p: nat)
      requires p < |procs| && procs[p].watcher.Woken?
      modifies this
      ensures View() == Step(old(View()), WatcherClears(p))
      ensures resident == match old(resident)
                          case Some(r) => if r.tier == old(procs)[p].tier then None else old(resident)
                          case None => None
    {
      if resident.Some? && resident.value.tier == procs[p].tier {
        resident := None;
      }
      procs := procs[p := procs[p].(watcher := Finished)];
    }
  }

  /** The pause between two polls, in milliseconds. */
  const PAUSE: int := 500

  /** `pollHealth`: `clock`, `answered` and `cancelled` are what each turn of the loop reads. Healthy exactly if some
      poll that starts before the deadline is answered and no pause before it was cancelled. */
  method PollHealth(clock: nat -> int, answered: nat -> bool, cancelled: nat -> bool, deadline: int)
         returns (healthy: bool)
    requires forall i: nat :: clock(i) + PAUSE <= clock(i + 1)
    ensures healthy <==> exists i: nat :: clock(i) < deadline && answered(i) && forall j: nat :: j < i ==> !cancelled(j)
  {
    var i: nat := 0;
    while clock(i) < deadline
      invariant forall j: nat :: j < i ==> !answered(j) && !cancelled(j)
      decreases deadline - clock(i)
    {
      if answered(i) {
        return true;
      }
      if cancelled(i) {
        return false;
      }
      i := i + 1;
    }
    forall k: nat | clock(k) < deadline
      ensures k < i
    {
      ClockRuns(clock, i, k);
    }
    return false;
  }

  lemma {:induction false} ClockRuns(clock: nat -> int, i: nat, k: nat)
    requires forall i: nat :: clock(i) + PAUSE <= clock(i + 1)
    ensures i <= k ==> clock(i) <= clock(k)
  {
    if i < k {
      ClockRuns(clock, i, k - 1);
      assert clock(k - 1) + PAUSE <= clock(k - 1 + 1);
    }
  }
}
