/** Many requesters and one reader on the pipe of a language server: request and readLoop, step by step. */
module Session {
  import opened Text
  import opened Runs
  import Framing

  /** A message from the server; `id` is 0 for a notification. */
  datatype Response = Response(id: int, payload: string)

  datatype Outcome = Got(response: Response) | SendFailed | TimedOut | Cancelled | Crashed

  /** How far a request has come. Done is before its deferred clean-up, Returned after it. */
  datatype Stage = Numbered | Registered | Sending | Waiting | Done(outcome: Outcome) | Returned(outcome: Outcome)

  /** A request and its channel, which has room for one response. */
  datatype Call = Call(id: int, stage: Stage, channel: Option<Response>)

  datatype Reader = Reading | Routing(response: Response) | Delivering(response: Response, call: nat) | Stopped

  /** The session's mutex. It is held across a write to stdin, by a request or for a notification; `rest` is
      what the pipe has not taken yet. The other critical sections do not block, so each is one step. */
  datatype Mutex = Free | Held(writer: Option<nat>, rest: string)

  /** `answered` are the ids the server has answered, `dropped` those whose answer found nobody waiting; `stdin`
      is all the pipe has taken, `sent` are the bodies written to it, `torn` is whether a write has stopped short. */
  datatype State = State(
    nextID: int, calls: seq<Call>, pending: map<int, nat>, reader: Reader, mutex: Mutex,
    stdin: string, sent: seq<string>, torn: bool, answered: set<int>, dropped: set<int>)

  datatype Action =
    | Number
    | Register(k: nat)
    | MarshalFails(k: nat)
    | BeginSend(k: nat, body: string)
    | BeginNotify(body: string)
    | Write(n: nat)
    | EndWrite(ok: bool)
    | Receive(k: nat)
    | Timeout(k: nat)
    | Cancel(k: nat)
    | SeeCrash(k: nat)
    | Unregister(k: nat)
    | Read(response: Response)
    | ReadError
    | LookUp
    | Deliver

  const START := State(0, [], map[], Reading, Free, "", [], false, {}, {})

  predicate At(s: State, k: nat, stage: Stage) {
    k < |s.calls| && s.calls[k].stage == stage
  }

  function WithStage(s: State, k: nat, stage: Stage): State
    requires k < |s.calls|
  {
    s.(calls := s.calls[k := s.calls[k].(stage := stage)])
  }

  /** One step. An action whose turn it is not changes nothing. */
  function Step(s: State, a: Action): State {
    match a
    case BeginSend(_, _) => WriterStep(s, a)
    case BeginNotify(_) => WriterStep(s, a)
    case Write(_) => WriterStep(s, a)
    case EndWrite(_) => WriterStep(s, a)
    case Read(_) => ReaderStep(s, a)
    case ReadError => ReaderStep(s, a)
    case LookUp => ReaderStep(s, a)
    case Deliver => ReaderStep(s, a)
    case _ => RequesterStep(s, a)
  }

  function RequesterStep(s: State, a: Action): State {
    match a
    case Number =>
      s.(nextID := s.nextID + 1, calls := s.calls + [Call(s.nextID + 1, Numbered, None)])
    case Register(k) =>
      if At(s, k, Numbered) && s.mutex.Free? then
        WithStage(s, k, Registered).(pending := s.pending[s.calls[k].id := k])
      else s
    case MarshalFails(k) => if At(s, k, Registered) then WithStage(s, k, Done(SendFailed)) else s
    case Receive(k) =>
      if At(s, k, Waiting) && s.calls[k].channel.Some? then
        s.(calls := s.calls[k := s.calls[k].(stage := Done(Got(s.calls[k].channel.value)), channel := None)])
      else s
    case Timeout(k) => if At(s, k, Waiting) then WithStage(s, k, Done(TimedOut)) else s
    case Cancel(k) => if At(s, k, Waiting) then WithStage(s, k, Done(Cancelled)) else s
    case SeeCrash(k) =>
      if At(s, k, Waiting) && s.reader.Stopped? then WithStage(s, k, Done(Crashed)) else s
    case Unregister(k) =>
      if k < |s.calls| && s.calls[k].stage.Done? && s.mutex.Free? then
        WithStage(s, k, Returned(s.calls[k].stage.outcome)).(pending := s.pending - {s.calls[k].id})
      else s
    case _ => s
  }

  /** `send` holds the mutex while the pipe takes the frame, in as many pieces as it likes. */
  function WriterStep(s: State, a: Action): State {
    match a
    case BeginSend(k, body) =>
      if At(s, k, Registered) && s.mutex.Free? then
        WithStage(s, k, Sending).(mutex := Held(Some(k), Framing.Frame(body)), sent := s.sent + [body])
      else s
    case BeginNotify(body) =>
      if s.mutex.Free? then s.(mutex := Held(None, Framing.Frame(body)), sent := s.sent + [body]) else s
    case Write(n) =>
      if s.mutex.Held? && n <= |s.mutex.rest| then
        s.(stdin := s.stdin + s.mutex.rest[..n], mutex := s.mutex.(rest := s.mutex.rest[n..]))
      else s
    case EndWrite(ok) =>
      if s.mutex.Held? && (ok ==> s.mutex.rest == "") then
        var t := s.(mutex := Free, torn := s.torn || s.mutex.rest != "");
        if s.mutex.writer.Some? && At(s, s.mutex.writer.value, Sending) then
          WithStage(t, s.mutex.writer.value, if ok then Waiting else Done(SendFailed))
        else t
      else s
    case _ => s
  }

  function ReaderStep(s: State, a: Action): State {
    match a
    case Read(response) =>
      if !s.reader.Reading? || response.id == 0 then s
      else s.(reader := Routing(response), answered := s.answered + {response.id})
    case ReadError =>
      if s.reader.Reading? then s.(reader := Stopped) else s
    case LookUp =>
      if !s.reader.Routing? || s.mutex.Held? then s
      else
        var response := s.reader.response;
        if response.id in s.pending then s.(reader := Delivering(response, s.pending[response.id]))
        else s.(reader := Reading, dropped := s.dropped + {response.id})
    case Deliver =>
      if s.reader.Delivering? && !Blocked(s) && s.reader.call < |s.calls| then
        var k := s.reader.call;
        s.(reader := Reading, calls := s.calls[k := s.calls[k].(channel := Some(s.reader.response))])
      else s
    case _ => s
  }

  /** The reader waits for room in a channel that is full. */
  predicate Blocked(s: State) {
    s.reader.Delivering? && s.reader.call < |s.calls| && s.calls[s.reader.call].channel.Some?
  }

  function Run(trace: seq<Action>): State {
    if trace == [] then START else Step(Run(trace[..|trace| - 1]), trace[|trace| - 1])
  }

  /** The server answers no id twice. */
  predicate Fair(s: State, a: Action) {
    a.Read? && s.reader.Reading? && a.response.id != 0 ==> a.response.id !in s.answered
  }

  predicate AllFair(trace: seq<Action>) {
    trace == [] ||
    var n := |trace| - 1;
    AllFair(trace[..n]) && Fair(Run(trace[..n]), trace[n])
  }

  /** ... and answers only what it has been sent. */
  predicate Honest(s: State, a: Action) {
    && Fair(s, a)
    && (a.Read? && a.response.id != 0 ==>
          1 <= a.response.id <= |s.calls| && Sent(s.calls[a.response.id - 1].stage))
  }

  predicate AllHonest(trace: seq<Action>) {
    trace == [] ||
    var n := |trace| - 1;
    AllHonest(trace[..n]) && Honest(Run(trace[..n]), trace[n])
  }

  // ----- what every interleaving keeps -----

  /** From registration to clean-up. */
  predicate Open(stage: Stage) {
    stage.Registered? || stage.Sending? || stage.Waiting? || stage.Done?
  }

  predicate Sent(stage: Stage) {
    stage.Sending? || stage.Waiting? || stage.Done? || stage.Returned?
  }

  predicate GotAnswer(stage: Stage) {
    (stage.Done? || stage.Returned?) && stage.outcome.Got?
  }

  /** Ids count up from 1, a call is pending exactly from its registration to its clean-up, holds the mutex exactly
      while it sends, and holds no response but its own. */
  predicate CallOk(s: State, k: nat)
    requires k < |s.calls|
  {
    var c := s.calls[k];
    && c.id == k + 1
    && (c.id in s.pending <==> Open(c.stage))
    && (c.id in s.pending ==> s.pending[c.id] == k)
    && (c.stage.Sending? <==> s.mutex.Held? && s.mutex.writer == Some(k))
    && (c.channel.Some? ==> c.channel.value.id == c.id)
    && (GotAnswer(c.stage) ==> c.stage.outcome.response.id == c.id)
  }

  predicate ReaderOk(s: State) {
    && (s.reader.Delivering? ==> s.reader.call < |s.calls| && s.reader.response.id == s.reader.call + 1)
    && (s.reader.Routing? ==> s.reader.response.id != 0)
    && (s.mutex.Held? && s.mutex.writer.Some? ==> s.mutex.writer.value < |s.calls|)
  }

  predicate AllOk(s: State) {
    && s.nextID == |s.calls|
    && (forall id :: id in s.pending ==> 1 <= id <= |s.calls|)
    && (forall k :: 0 <= k < |s.calls| ==> CallOk(s, k))
    && ReaderOk(s)
  }

  lemma RequesterCall(s: State, a: Action, k: nat)
    requires AllOk(s) && k < |RequesterStep(s, a).calls|
    ensures CallOk(RequesterStep(s, a), k)
  {
    if k < |s.calls| {
      assert CallOk(s, k);
    }
    match a
    case Register(j) =>
      if j < |s.calls| { assert CallOk(s, j); }
    case Unregister(j) =>
      if j < |s.calls| { assert CallOk(s, j); }
    case _ =>
  }

  lemma WriterCall(s: State, a: Action, k: nat)
    requires AllOk(s) && k < |WriterStep(s, a).calls|
    ensures CallOk(WriterStep(s, a), k)
  {
    hide Framing.Frame;
    assert CallOk(s, k);
  }

  lemma ReaderCall(s: State, a: Action, k: nat)
    requires AllOk(s) && k < |ReaderStep(s, a).calls|
    ensures CallOk(ReaderStep(s, a), k)
  {
    assert CallOk(s, k);
  }

  lemma StepCall(s: State, a: Action, k: nat)
    requires AllOk(s) && k < |Step(s, a).calls|
    ensures CallOk(Step(s, a), k)
  {
    hide RequesterStep, WriterStep, ReaderStep, AllOk, CallOk;
    if Step(s, a) == RequesterStep(s, a) {
      RequesterCall(s, a, k);
    } else if Step(s, a) == WriterStep(s, a) {
      WriterCall(s, a, k);
    } else {
      ReaderCall(s, a, k);
    }
  }

  lemma StepPending(s: State, a: Action)
    requires AllOk(s)
    ensures var t := Step(s, a);
            t.nextID == |t.calls| >= |s.calls| && forall id :: id in t.pending ==> 1 <= id <= |t.calls|
  {
    match a
    case Register(j) =>
      if j < |s.calls| { assert CallOk(s, j); }
    case _ =>
  }

  lemma StepReader(s: State, a: Action)
    requires AllOk(s)
    ensures ReaderOk(Step(s, a))
  {
    StepPending(s, a);
    if a.LookUp? && s.reader.Routing? && s.reader.response.id in s.pending {
      assert CallOk(s, s.reader.response.id - 1);
    }
  }

  lemma StepOk(s: State, a: Action)
    requires AllOk(s)
    ensures AllOk(Step(s, a))
  {
    StepPending(s, a);
    StepReader(s, a);
    forall k | 0 <= k < |Step(s, a).calls|
      ensures CallOk(Step(s, a), k)
    {
      StepCall(s, a, k);
    }
    hide Step, CallOk, ReaderOk;
  }

  // ----- where an answer is -----

  predicate InReader(s: State, id: int) {
    (s.reader.Routing? || s.reader.Delivering?) && s.reader.response.id == id
  }

  predicate InCall(s: State, id: int) {
    1 <= id <= |s.calls| && (s.calls[id - 1].channel.Some? || GotAnswer(s.calls[id - 1].stage))
  }

  /** An answer read from the server is in exactly one place: with the reader, with its call, or dropped. */
  predicate InOnePlace(s: State, id: int) {
    && (id in s.answered <==> InReader(s, id) || InCall(s, id) || id in s.dropped)
    && !(InReader(s, id) && InCall(s, id))
    && !(InReader(s, id) && id in s.dropped)
    && !(InCall(s, id) && id in s.dropped)
  }

  ghost predicate Conserved(s: State) {
    forall id :: InOnePlace(s, id)
  }

  lemma InCallAfter(s: State, a: Action, id: int)
    requires AllOk(s)
    ensures InCall(Step(s, a), id) <==>
            InCall(s, id) || (a.Deliver? && s.reader.Delivering? && !Blocked(s) && s.reader.response.id == id)
  {
    StepPending(s, a);
  }

  lemma StepPlace(s: State, a: Action, id: int)
    requires AllOk(s) && Fair(s, a) && InOnePlace(s, id)
    requires s.reader.Delivering? ==> InOnePlace(s, s.reader.response.id)
    ensures InOnePlace(Step(s, a), id)
  {
    InCallAfter(s, a, id);
    NotBlocked(s);
    hide InCall;
  }

  lemma NotBlocked(s: State)
    requires AllOk(s) && (s.reader.Delivering? ==> InOnePlace(s, s.reader.response.id))
    ensures !Blocked(s)
  {
  }

  lemma StepConserved(s: State, a: Action)
    requires AllOk(s) && Fair(s, a) && Conserved(s)
    ensures Conserved(Step(s, a))
  {
    forall id
      ensures InOnePlace(Step(s, a), id)
    {
      assert InOnePlace(s, id);
      StepPlace(s, a, id);
    }
    hide Step, AllOk, InOnePlace;
  }

  lemma {:induction false} RunOk(trace: seq<Action>)
    ensures AllOk(Run(trace))
  {
    hide Step, AllOk;
    if trace == [] {
      StartOk();
    } else {
      RunOk(trace[..|trace| - 1]);
      StepOk(Run(trace[..|trace| - 1]), trace[|trace| - 1]);
    }
  }

  lemma StartOk()
    ensures AllOk(START) && Conserved(START)
  {
  }

  lemma {:induction false} RunConserved(trace: seq<Action>)
    requires AllFair(trace)
    ensures Conserved(Run(trace))
  {
    hide Step, AllOk, Conserved, Fair;
    if trace == [] {
      StartOk();
    } else {
      RunConserved(trace[..|trace| - 1]);
      RunOk(trace[..|trace| - 1]);
      StepConserved(Run(trace[..|trace| - 1]), trace[|trace| - 1]);
    }
  }

  /** Whoever receives a response receives one with its own id, just as it was read; ids are distinct and never 0. This
      needs nothing of the server. */
  lemma OwnResponses(trace: seq<Action>, k: nat)
    requires k < |Run(trace).calls|
    ensures var c := Run(trace).calls[k];
            && c.id == k + 1
            && (GotAnswer(c.stage) ==>
                  c.stage.outcome.response.id == c.id && Read(c.stage.outcome.response) in trace)
  {
    RunOk(trace);
    OutcomeHasCause(trace, k);
    assert CallOk(Run(trace), k);
    hide Run;
  }

  /** The pending ids are those of the calls registered and not yet returned. */
  lemma PendingExactly(trace: seq<Action>)
    ensures var s := Run(trace);
            forall id :: id in s.pending <==>
                  exists k :: 0 <= k < |s.calls| && s.calls[k].id == id && Open(s.calls[k].stage)
  {
    var s := Run(trace);
    RunOk(trace);
    hide Run;
    forall id
      ensures id in s.pending <==> exists k :: 0 <= k < |s.calls| && s.calls[k].id == id && Open(s.calls[k].stage)
    {
      if id in s.pending {
        assert CallOk(s, id - 1);
        assert s.calls[id - 1].id == id;
      }
      if k :| 0 <= k < |s.calls| && s.calls[k].id == id && Open(s.calls[k].stage) {
        assert CallOk(s, k);
      }
    }
  }

  // ----- why a request ends -----

  /** What must have happened for call `k` to end so: for an answer, that very response has been read. */
  ghost predicate HasCause(trace: seq<Action>, k: nat, outcome: Outcome) {
    match outcome
    case Got(r) => r.id == k + 1 && Read(r) in trace && Receive(k) in trace
    case SendFailed => MarshalFails(k) in trace || (EndWrite(false) in trace && exists b :: BeginSend(k, b) in trace)
    case TimedOut => Timeout(k) in trace
    case Cancelled => Cancel(k) in trace
    case Crashed => SeeCrash(k) in trace && ReadError in trace
  }

  ghost predicate CallCaused(trace: seq<Action>, s: State, k: nat)
    requires k < |s.calls|
  {
    var c := s.calls[k];
    && (c.channel.Some? ==> Read(c.channel.value) in trace && c.channel.value.id == k + 1)
    && (c.stage.Sending? ==> exists b :: BeginSend(k, b) in trace)
    && (c.stage.Done? || c.stage.Returned? ==> HasCause(trace, k, c.stage.outcome))
  }

  ghost predicate Caused(trace: seq<Action>, s: State) {
    && (forall k: nat :: k < |s.calls| ==> CallCaused(trace, s, k))
    && (s.reader.Routing? || s.reader.Delivering? ==> Read(s.reader.response) in trace)
    && (s.reader.Delivering? ==> s.reader.response.id == s.reader.call + 1)
    && (s.reader.Stopped? ==> ReadError in trace)
  }

  lemma CausedLater(trace: seq<Action>, s: State, a: Action)
    requires Caused(trace, s)
    ensures Caused(trace + [a], s) && a in trace + [a]
  {
    var more := trace + [a];
    assert forall b :: b in trace ==> b in more;
    assert more[|trace|] == a;
    forall k: nat | k < |s.calls|
      ensures CallCaused(more, s, k)
    {
      assert CallCaused(trace, s, k);
      if s.calls[k].stage.Sending? {
        var b :| BeginSend(k, b) in trace;
        assert BeginSend(k, b) in more;
      }
      if (s.calls[k].stage.Done? || s.calls[k].stage.Returned?) && s.calls[k].stage.outcome.SendFailed?
         && MarshalFails(k) !in trace {
        var b :| BeginSend(k, b) in trace;
        assert BeginSend(k, b) in more;
      }
    }
    hide CallCaused;
  }

  lemma RequesterCaused(trace: seq<Action>, s: State, a: Action, k: nat)
    requires Caused(trace, s) && AllOk(s) && a in trace && k < |RequesterStep(s, a).calls|
    ensures CallCaused(trace, RequesterStep(s, a), k)
  {
    if k < |s.calls| {
      assert CallCaused(trace, s, k) && CallOk(s, k);
    }
    CausedReader(trace, s);
    hide Caused, AllOk, CallOk;
  }

  lemma WriterCaused(trace: seq<Action>, s: State, a: Action, k: nat)
    requires Caused(trace, s) && AllOk(s) && a in trace && k < |WriterStep(s, a).calls|
    ensures CallCaused(trace, WriterStep(s, a), k)
  {
    hide Framing.Frame;
    assert CallCaused(trace, s, k) && CallOk(s, k);
    hide Caused, AllOk, CallOk;
  }

  lemma ReaderCaused(trace: seq<Action>, s: State, a: Action, k: nat)
    requires Caused(trace, s) && AllOk(s) && k < |ReaderStep(s, a).calls|
    ensures CallCaused(trace, ReaderStep(s, a), k)
  {
    assert CallCaused(trace, s, k);
    CausedReader(trace, s);
    hide Caused, AllOk;
  }

  lemma CausedReader(trace: seq<Action>, s: State)
    requires Caused(trace, s)
    ensures s.reader.Routing? || s.reader.Delivering? ==> Read(s.reader.response) in trace
    ensures s.reader.Delivering? ==> s.reader.response.id == s.reader.call + 1
    ensures s.reader.Stopped? ==> ReadError in trace
  {
  }

  lemma ReaderStaysCaused(trace: seq<Action>, s: State, a: Action)
    requires Caused(trace, s) && AllOk(s) && a in trace
    ensures var t := Step(s, a);
            && (t.reader.Routing? || t.reader.Delivering? ==> Read(t.reader.response) in trace)
            && (t.reader.Delivering? ==> t.reader.response.id == t.reader.call + 1)
            && (t.reader.Stopped? ==> ReadError in trace)
  {
    StepReader(s, a);
    CausedReader(trace, s);
    hide Caused, AllOk, CallOk, Framing.Frame;
  }

  lemma StepCaused(trace: seq<Action>, s: State, a: Action)
    requires Caused(trace, s) && AllOk(s)
    ensures Caused(trace + [a], Step(s, a))
  {
    CausedLater(trace, s, a);
    ReaderStaysCaused(trace + [a], s, a);
    hide CallCaused, AllOk, RequesterStep, WriterStep, ReaderStep;
    forall k: nat | k < |Step(s, a).calls|
      ensures CallCaused(trace + [a], Step(s, a), k)
    {
      if Step(s, a) == RequesterStep(s, a) {
        RequesterCaused(trace + [a], s, a, k);
      } else if Step(s, a) == WriterStep(s, a) {
        WriterCaused(trace + [a], s, a, k);
      } else {
        ReaderCaused(trace + [a], s, a, k);
      }
    }
  }

  lemma {:induction false} RunCaused(trace: seq<Action>)
    ensures Caused(trace, Run(trace))
  {
    hide Step, AllOk, CallCaused;
    if trace != [] {
      var n := |trace| - 1;
      RunCaused(trace[..n]);
      RunOk(trace[..n]);
      assert trace[..n] + [trace[n]] == trace;
      StepCaused(trace[..n], Run(trace[..n]), trace[n]);
    }
  }

  /** In every interleaving a request ends as something that happened makes it end. An answer it got is a response that
      was read, with its payload. */
  lemma OutcomeHasCause(trace: seq<Action>, k: nat)
    requires k < |Run(trace).calls|
    ensures var c := Run(trace).calls[k]; c.stage.Done? || c.stage.Returned? ==> HasCause(trace, k, c.stage.outcome)
  {
    RunCaused(trace);
    assert CallCaused(trace, Run(trace), k);
    hide Run, HasCause;
  }

  predicate Ended(s: State, k: nat, outcome: Outcome) {
    At(s, k, Done(outcome)) || At(s, k, Returned(outcome))
  }

  lemma EndedStays(s: State, a: Action, k: nat, outcome: Outcome)
    requires AllOk(s) && Ended(s, k, outcome)
    ensures Ended(Step(s, a), k, outcome)
  {
    assert CallOk(s, k);
    hide AllOk, CallOk, Framing.Frame;
  }

  /** Whatever happens next, the request keeps that outcome. */
  lemma {:induction false} OutcomeIsFinal(trace: seq<Action>, k: nat, outcome: Outcome, more: seq<Action>)
    requires Ended(Run(trace), k, outcome)
    ensures Ended(Run(trace + more), k, outcome)
    decreases |more|
  {
    hide Ended, Step, AllOk;
    if more == [] {
      assert trace + more == trace;
    } else {
      var n := |more| - 1;
      OutcomeIsFinal(trace, k, outcome, more[..n]);
      assert trace + more == (trace + more[..n]) + [more[n]];
      RunSnoc(trace + more[..n], more[n]);
      RunOk(trace + more[..n]);
      EndedStays(Run(trace + more[..n]), more[n], k, outcome);
    }
  }

  /** It returns it once the mutex is free, and its id is pending no more. */
  lemma ReturnsItsOutcome(trace: seq<Action>, k: nat, outcome: Outcome)
    requires At(Run(trace), k, Done(outcome)) && Run(trace).mutex.Free?
    ensures At(Run(trace + [Unregister(k)]), k, Returned(outcome)) && k + 1 !in Run(trace + [Unregister(k)]).pending
  {
    RunOk(trace);
    RunSnoc(trace, Unregister(k));
    assert CallOk(Run(trace), k);
    hide Run, AllOk;
  }

  // ----- what the reader waits for -----

  /** If no id is answered twice, the reader never meets a full channel. It waits for the mutex then and for
      nothing else: exactly while it has a message to route and a write to stdin is under way. */
  lemma ReaderWaitsExactly(trace: seq<Action>)
    requires AllFair(trace)
    ensures var s := Run(trace);
            && !Blocked(s)
            && (s.reader.Routing? ==> (Step(s, LookUp) == s <==> s.mutex.Held?))
            && (s.reader.Delivering? ==> Step(s, Deliver).reader.Reading?)
  {
    hide Run;
    var s := Run(trace);
    RunOk(trace);
    RunConserved(trace);
    assert s.reader.Delivering? ==> InOnePlace(s, s.reader.response.id);
    NotBlocked(s);
    hide CallOk, InOnePlace, Conserved;
  }

  predicate Waits(s: State) {
    s.reader.Routing? && s.mutex.Held?
  }

  /** A reader that waits for the mutex goes on exactly when the write in its way ends. */
  lemma WriteHoldsReader(s: State, a: Action)
    requires Waits(s)
    ensures Step(s, a).reader == s.reader
    ensures !Waits(Step(s, a)) <==> a.EndWrite? && (a.ok ==> s.mutex.rest == "")
  {
  }

  predicate NoEndWrite(more: seq<Action>) {
    forall i :: 0 <= i < |more| ==> !more[i].EndWrite?
  }

  /** While that write does not end, whatever else happens, the reader reads and delivers nothing. */
  lemma {:induction false} ReaderHeld(trace: seq<Action>, more: seq<Action>)
    requires Waits(Run(trace)) && NoEndWrite(more)
    ensures Waits(Run(trace + more)) && Run(trace + more).reader == Run(trace).reader
    decreases |more|
  {
    hide Waits, Step;
    if more == [] {
      assert trace + more == trace;
    } else {
      var n := |more| - 1;
      ReaderHeld(trace, more[..n]);
      assert trace + more == (trace + more[..n]) + [more[n]];
      RunSnoc(trace + more[..n], more[n]);
      WriteHoldsReader(Run(trace + more[..n]), more[n]);
    }
  }

  /** So a request can time out although its answer has been read, with a server that answers everything once: whenever
      that answer comes while another request is about to be written. */
  lemma AnswerWaitsBehindWrite(trace: seq<Action>, k: nat, j: nat, r: Response, body: string)
    requires AllHonest(trace)
    requires var s := Run(trace);
             && s.reader.Reading? && s.mutex.Free? && At(s, k, Waiting) && At(s, j, Registered)
             && r.id == k + 1 && r.id !in s.answered
    ensures var late := trace + [Read(r)] + [BeginSend(j, body)] + [Timeout(k)];
            AllHonest(late) && Waits(Run(late)) && Run(late).reader == Routing(r) && At(Run(late), k, Done(TimedOut))
  {
    hide Run, AllHonest, Honest;
    RunSnoc(trace, Read(r));
    RunSnoc(trace + [Read(r)], BeginSend(j, body));
    RunSnoc(trace + [Read(r)] + [BeginSend(j, body)], Timeout(k));
    HonestRead(Run(trace), k, r);
    NotARead(Run(trace + [Read(r)]), BeginSend(j, body));
    NotARead(Run(trace + [Read(r)] + [BeginSend(j, body)]), Timeout(k));
    HonestSnoc(trace, Read(r));
    HonestSnoc(trace + [Read(r)], BeginSend(j, body));
    HonestSnoc(trace + [Read(r)] + [BeginSend(j, body)], Timeout(k));
  }

  lemma HonestRead(s: State, k: nat, r: Response)
    requires At(s, k, Waiting) && r.id == k + 1 && r.id !in s.answered
    ensures Honest(s, Read(r))
  {
  }

  lemma NotARead(s: State, a: Action)
    requires !a.Read?
    ensures Honest(s, a)
  {
  }

  lemma HonestSnoc(trace: seq<Action>, a: Action)
    requires AllHonest(trace) && Honest(Run(trace), a)
    ensures AllHonest(trace + [a])
  {
    assert (trace + [a])[..|trace|] == trace;
  }

  // ----- what the server is sent -----

  /** Unless a write has stopped short, stdin holds the frames of all bodies, but for what the writer still has. */
  predicate Streams(s: State) {
    s.torn || s.stdin + (if s.mutex.Held? then s.mutex.rest else "") == Framing.Frames(s.sent)
  }

  lemma WriterStreams(s: State, a: Action)
    requires Streams(s)
    ensures Streams(WriterStep(s, a))
  {
    hide Framing.Frames, Framing.Frame;
    match a
    case BeginSend(_, body) => FramesSnoc(s.sent, body);
    case BeginNotify(body) => FramesSnoc(s.sent, body);
    case Write(n) =>
      if s.mutex.Held? && n <= |s.mutex.rest| {
        assert s.mutex.rest[..n] + s.mutex.rest[n..] == s.mutex.rest;
        assert s.stdin + s.mutex.rest == (s.stdin + s.mutex.rest[..n]) + s.mutex.rest[n..];
      }
    case _ =>
  }

  lemma OthersDoNotWrite(s: State, a: Action)
    ensures var t := RequesterStep(s, a);
            t.mutex == s.mutex && t.stdin == s.stdin && t.sent == s.sent && t.torn == s.torn
    ensures var t := ReaderStep(s, a); t.mutex == s.mutex && t.stdin == s.stdin && t.sent == s.sent && t.torn == s.torn
  {
  }

  lemma StepStreams(s: State, a: Action)
    requires Streams(s)
    ensures Streams(Step(s, a))
  {
    hide RequesterStep, WriterStep, ReaderStep, Framing.Frames;
    WriterStreams(s, a);
    OthersDoNotWrite(s, a);
  }

  lemma {:induction false} FramesSnoc(bodies: seq<string>, body: string)
    ensures Framing.Frames(bodies + [body]) == Framing.Frames(bodies) + Framing.Frame(body)
    ensures Framing.Frames(bodies) + "" == Framing.Frames(bodies)
  {
    hide Framing.Frame;
    if bodies == [] {
      assert [] + [body] == [body];
      assert Framing.Frames([body]) == Framing.Frame(body) + Framing.Frames([]);
    } else {
      assert (bodies + [body])[1..] == bodies[1..] + [body];
      FramesSnoc(bodies[1..], body);
    }
  }

  lemma {:induction false} RunStreams(trace: seq<Action>)
    ensures Streams(Run(trace))
  {
    hide Step, Streams;
    if trace == [] {
      StartStreams();
    } else {
      RunStreams(trace[..|trace| - 1]);
      StepStreams(Run(trace[..|trace| - 1]), trace[|trace| - 1]);
    }
  }

  lemma StartStreams()
    ensures Streams(START)
  {
  }

  /** The bodies of the writes that have begun, in order: a notification's once the mutex is free, a request's once it
      is also registered. */
  function Begun(trace: seq<Action>): seq<string> {
    if trace == [] then []
    else
      var n := |trace| - 1;
      var s, before := Run(trace[..n]), Begun(trace[..n]);
      match trace[n]
      case BeginSend(k, body) =>
        if k < |s.calls| && s.calls[k].stage.Registered? && s.mutex.Free? then before + [body] else before
      case BeginNotify(body) => if s.mutex.Free? then before + [body] else before
      case _ => before
  }

  lemma {:induction false} SentIsBegun(trace: seq<Action>)
    ensures Run(trace).sent == Begun(trace)
  {
    hide RequesterStep, ReaderStep;
    if trace != [] {
      var n := |trace| - 1;
      SentIsBegun(trace[..n]);
      OthersDoNotWrite(Run(trace[..n]), trace[n]);
    }
    hide Framing.Frame;
  }

  /** However requests and notifications interleave, the server reads the bodies sent, each whole and in the order in
      which they got the mutex, once the last write has ended and unless one has stopped short. */
  lemma ServerReadsWhatWasSent(trace: seq<Action>)
    requires var s := Run(trace);
             s.mutex.Free? && !s.torn && forall i :: 0 <= i < |s.sent| ==> Framing.Sendable(s.sent[i])
    ensures Framing.ReadAll(Run(trace).stdin) == Run(trace).sent == Begun(trace)
  {
    SentIsBegun(trace);
    hide Run, Begun, Framing.ReadAll, Framing.Frames, Framing.Sendable;
    var s := Run(trace);
    RunStreams(trace);
    assert s.stdin + "" == s.stdin;
    Framing.FramesAreRead(s.sent);
  }

  /** If the server also answers only what it was sent, an answer is dropped only after its requester has
      gone: whoever still waits has not missed it. */
  ghost predicate DroppedLate(s: State) {
    && (forall id :: id in s.dropped ==> 1 <= id <= |s.calls| && s.calls[id - 1].stage.Returned?)
    && (s.reader.Routing? ==> 1 <= s.reader.response.id <= |s.calls| && Sent(s.calls[s.reader.response.id - 1].stage))
  }

  lemma RequesterDroppedLate(s: State, a: Action)
    requires DroppedLate(s)
    ensures DroppedLate(RequesterStep(s, a))
  {
  }

  lemma WriterDroppedLate(s: State, a: Action)
    requires DroppedLate(s)
    ensures DroppedLate(WriterStep(s, a))
  {
    hide Framing.Frame;
  }

  lemma ReaderDroppedLate(s: State, a: Action)
    requires AllOk(s) && Honest(s, a) && DroppedLate(s)
    ensures DroppedLate(ReaderStep(s, a))
  {
    if a.LookUp? && s.reader.Routing? {
      assert CallOk(s, s.reader.response.id - 1);
    }
    hide AllOk, Blocked;
  }

  lemma StepDroppedLate(s: State, a: Action)
    requires AllOk(s) && Honest(s, a) && DroppedLate(s)
    ensures DroppedLate(Step(s, a))
  {
    hide AllOk, Honest, DroppedLate, RequesterStep, WriterStep, ReaderStep;
    RequesterDroppedLate(s, a);
    WriterDroppedLate(s, a);
    ReaderDroppedLate(s, a);
  }

  lemma {:induction false} OnlyTheGoneMissTheirAnswer(trace: seq<Action>)
    requires AllHonest(trace)
    ensures DroppedLate(Run(trace))
  {
    hide Step, AllOk, Honest, DroppedLate;
    if trace == [] {
      StartDroppedLate();
    } else {
      OnlyTheGoneMissTheirAnswer(trace[..|trace| - 1]);
      RunOk(trace[..|trace| - 1]);
      StepDroppedLate(Run(trace[..|trace| - 1]), trace[|trace| - 1]);
    }
  }

  lemma StartDroppedLate()
    ensures DroppedLate(START)
  {
  }

  // ----- a server that answers twice -----

  /** A step blocks the reader exactly if it looks up a pending call that already holds a response. */
  lemma BlocksExactly(s: State, a: Action)
    requires AllOk(s) && !Blocked(s)
    ensures Blocked(Step(s, a)) <==>
            && a.LookUp? && s.mutex.Free? && s.reader.Routing? && s.reader.response.id in s.pending
            && s.pending[s.reader.response.id] < |s.calls|
            && s.calls[s.pending[s.reader.response.id]].channel.Some?
  {
    hide CallOk;
  }

  /** A blocked reader goes on exactly when its call receives. */
  lemma UnblocksExactly(s: State, a: Action)
    requires Blocked(s)
    ensures !Blocked(Step(s, a)) <==> a == Receive(s.reader.call) && At(s, s.reader.call, Waiting)
  {
  }

  /** Call `k` has gone without draining its channel, and the reader is at its door. */
  predicate Stuck(s: State, k: nat) {
    && s.reader.Delivering? && s.reader.call == k < |s.calls|
    && s.calls[k].channel.Some?
    && (s.calls[k].stage.Done? || s.calls[k].stage.Returned?)
  }

  lemma StuckStays(s: State, a: Action, k: nat)
    requires Stuck(s, k)
    ensures Stuck(Step(s, a), k)
  {
  }

  lemma RunSnoc(trace: seq<Action>, a: Action)
    ensures Run(trace + [a]) == Step(Run(trace), a)
  {
    assert (trace + [a])[..|trace|] == trace;
  }

  lemma {:induction false} StuckForever(trace: seq<Action>, k: nat, more: seq<Action>)
    requires Stuck(Run(trace), k)
    ensures Stuck(Run(trace + more), k)
    decreases |more|
  {
    hide Stuck, Step;
    if more == [] {
      assert trace + more == trace;
    } else {
      var n := |more| - 1;
      StuckForever(trace, k, more[..n]);
      assert trace + more == (trace + more[..n]) + [more[n]];
      RunSnoc(trace + more[..n], more[n]);
      StuckStays(Run(trace + more[..n]), more[n], k);
    }
  }

  /** The write under way, if there is one, ends. */
  function Release(s: State): Action {
    EndWrite(s.mutex.Held? && s.mutex.rest == "")
  }

  lemma SecondAnswerSticks(s: State, k: nat, r: Response)
    requires AllOk(s) && s.reader.Reading? && At(s, k, Waiting) && s.calls[k].channel.Some? && r.id == s.calls[k].id
    ensures Stuck(Step(Step(Step(Step(s, Release(s)), Read(r)), LookUp), Timeout(k)), k)
  {
    assert CallOk(s, k);
    var s1 := Step(s, Release(s));
    assert s1.mutex.Free? && s1.pending == s.pending && s1.reader.Reading? && At(s1, k, Waiting)
           && s1.calls[k] == s.calls[k];
    var s2 := Step(s1, Read(r));
    assert s2 == s1.(reader := Routing(r), answered := s1.answered + {r.id});
    var s3 := Step(s2, LookUp);
    assert s3 == s2.(reader := Delivering(r, k));
  }

  /** Whenever a request still waits with its answer undrained, a second answer to its id and a timeout block the
      reader, and whatever happens next it never reads again. */
  lemma SecondAnswerBlocksForever(trace: seq<Action>, k: nat, r: Response, more: seq<Action>)
    requires var s := Run(trace);
             s.reader.Reading? && At(s, k, Waiting) && s.calls[k].channel.Some? && r.id == s.calls[k].id
    ensures Stuck(Run(trace + [Release(Run(trace))] + [Read(r)] + [LookUp] + [Timeout(k)] + more), k)
  {
    hide Run, Step, Stuck;
    var t := trace + [Release(Run(trace))];
    RunOk(trace);
    RunSnoc(trace, Release(Run(trace)));
    RunSnoc(t, Read(r));
    RunSnoc(t + [Read(r)], LookUp);
    RunSnoc(t + [Read(r)] + [LookUp], Timeout(k));
    SecondAnswerSticks(Run(trace), k, r);
    StuckForever(t + [Read(r)] + [LookUp] + [Timeout(k)], k, more);
  }

  function Numbers(n: nat): seq<Action> {
    if n == 0 then [] else Numbers(n - 1) + [Number]
  }

  lemma {:induction false} NumbersRun(n: nat)
    ensures var s := Run(Numbers(n));
            && |s.calls| == n && s.reader.Reading? && s.mutex.Free?
            && forall k :: 0 <= k < n ==> s.calls[k] == Call(k + 1, Numbered, None)
  {
    hide Run, CallOk, AllOk;
    if n == 0 {
      RunNothing();
    } else {
      NumbersRun(n - 1);
      RunOk(Numbers(n - 1));
      RunSnoc(Numbers(n - 1), Number);
      CountsCalls(Run(Numbers(n - 1)));
    }
  }

  lemma RunNothing()
    ensures Run([]) == START
  {
  }

  lemma CountsCalls(s: State)
    requires AllOk(s)
    ensures s.nextID == |s.calls|
  {
  }

  lemma SentOnce(s: State, k: nat, body: string)
    requires AllOk(s) && s.mutex.Free? && k < |s.calls| && s.calls[k] == Call(k + 1, Numbered, None)
    ensures var t := Steps(Step, s, [Register(k), BeginSend(k, body), Write(|Framing.Frame(body)|), EndWrite(true)]);
            && t.mutex.Free? && t.reader == s.reader && t.pending == s.pending[k + 1 := k]
            && |t.calls| == |s.calls| && t.calls[k] == Call(k + 1, Waiting, None)
  {
    hide AllOk, CallOk, Framing.Frame;
    var frame := Framing.Frame(body);
    FourSteps(Step, s, Register(k), BeginSend(k, body), Write(|frame|), EndWrite(true));
    var s1 := Step(s, Register(k));
    assert s1.pending == s.pending[k + 1 := k] && s1.calls[k] == Call(k + 1, Registered, None) && s1.mutex.Free?;
    var s2 := Step(s1, BeginSend(k, body));
    assert s2.mutex == Held(Some(k), frame) && s2.calls[k] == Call(k + 1, Sending, None);
    var s3 := Step(s2, Write(|frame|));
    assert s3.mutex == Held(Some(k), "") && s3.calls == s2.calls;
  }

  lemma DeliveredOnce(s: State, k: nat, r: Response)
    requires s.reader.Reading? && s.mutex.Free? && k < |s.calls| && s.calls[k] == Call(k + 1, Waiting, None)
    requires r.id == k + 1 && r.id in s.pending && s.pending[r.id] == k
    ensures var t := Steps(Step, s, [Read(r), LookUp, Deliver]);
            t.reader.Reading? && |t.calls| == |s.calls| && t.calls[k] == Call(k + 1, Waiting, Some(r))
  {
    ThreeSteps(Step, s, Read(r), LookUp, Deliver);
    var s3 := Step(s, Read(r));
    assert s3 == s.(reader := Routing(r), answered := s.answered + {k + 1});
    var s4 := Step(s3, LookUp);
    assert s4 == s3.(reader := Delivering(r, k));
  }

  lemma {:induction false} RunThen(trace: seq<Action>, more: seq<Action>)
    ensures Run(trace + more) == Steps(Step, Run(trace), more)
    decreases |more|
  {
    hide Step;
    if more == [] {
      assert trace + more == trace;
    } else {
      assert trace + more == (trace + [more[0]]) + more[1..];
      RunSnoc(trace, more[0]);
      RunThen(trace + [more[0]], more[1..]);
    }
  }

  /** Every id can come to that. */
  lemma AnsweredOnce(r: Response, body: string)
    requires r.id >= 1
    ensures var k := r.id - 1;
            var s := Run(Numbers(r.id)
                         + [Register(k), BeginSend(k, body), Write(|Framing.Frame(body)|), EndWrite(true)]
                         + [Read(r), LookUp, Deliver]);
            s.reader.Reading? && At(s, k, Waiting) && s.calls[k].channel == Some(r) && s.calls[k].id == r.id
  {
    hide Run, Step, AllOk, Framing.Frame;
    var k := r.id - 1;
    var t := Numbers(r.id);
    var sends := [Register(k), BeginSend(k, body), Write(|Framing.Frame(body)|), EndWrite(true)];
    NumbersRun(r.id);
    RunOk(t);
    RunThen(t, sends);
    RunThen(t + sends, [Read(r), LookUp, Deliver]);
    SentOnce(Run(t), k, body);
    DeliveredOnce(Run(t + sends), k, r);
  }

  // ----- the object and its steps -----

  /** What the reader does with a stream: routes each message, and stops at the first it cannot read. */
  function LoopActions(input: string, decode: string -> Option<Response>): seq<Action>
    decreases |input|
  {
    match Framing.Read(input)
    case Message(body, rest) =>
      (match decode(body)
       case None => [ReadError]
       case Some(response) => [Read(response), LookUp, Deliver] + LoopActions(rest, decode))
    case Broken => [ReadError]
    case Panic => []
  }

  class Session {
    var nextID: int
    var pending: map<int, nat>
    /** The requests and their channels; a request is known by its place here. */
    var calls: seq<Call>
    var reader: Reader
    var mutex: Mutex
    var stdin: string
    ghost var sent: seq<string>
    ghost var torn: bool
    ghost var answered: set<int>
    ghost var dropped: set<int>

    ghost function View(): State
      reads this
    {
      State(nextID, calls, pending, reader, mutex, stdin, sent, torn, answered, dropped)
    }

    constructor ()
      ensures View() == START
    {
      nextID, pending, calls, reader, answered, dropped := 0, map[], [], Reading, {}, {};
      mutex, stdin, sent, torn := Free, "", [], false;
    }

    method Begin() returns (k: nat)
      modifies this
      ensures View() == Step(old(View()), Number) && At(View(), k, Numbered) && k == |old(calls)|
    {
      nextID := nextID + 1;
      k, calls := |calls|, calls + [Call(nextID, Numbered, None)];
    }

    method RegisterCall(k: nat)
      requires At(View(), k, Numbered) && mutex.Free?
      modifies this
      ensures View() == Step(old(View()), Register(k))
    {
      pending := pending[calls[k].id := k];
      calls := calls[k := calls[k].(stage := Registered)];
    }

    /** `send` for a request: marshal, then write the frame under the mutex. `room` is how many bytes the pipe takes
        before it breaks. */
    method Send(k: nat, body: Option<string>, room: nat) returns (ok: bool)
      requires At(View(), k, Registered) && mutex.Free?
      modifies this
      ensures View() == Steps(Step, old(View()), SendActions(k, body, room))
      ensures ok <==> body.Some? && |Framing.Frame(body.value)| <= room
      ensures At(View(), k, if ok then Waiting else Done(SendFailed)) && mutex.Free?
      ensures body.None? ==> stdin == old(stdin)
      ensures body.Some? ==>
                var frame := Framing.Frame(body.value);
                stdin == old(stdin) + frame[..if ok then |frame| else room]
    {
      hide Framing.Frame;
      ghost var s := View();
      if body.None? {
        OneStep(Step, s, MarshalFails(k));
        calls := calls[k := calls[k].(stage := Done(SendFailed))];
        return false;
      }
      var frame := Framing.Frame(body.value);
      var n := if room < |frame| then room else |frame|;
      ok := n == |frame|;
      SendSteps(s, k, body.value, n);
      stdin := stdin + frame[..n];
      calls := calls[k := calls[k].(stage := if ok then Waiting else Done(SendFailed))];
      sent, torn := sent + [body.value], torn || !ok;
    }

    /** The select of a waiting request: whatever is ready, in the order the runtime happens to pick. */
    method Await(k: nat, timedOut: bool, cancelled: bool) returns (outcome: Option<Outcome>, ghost taken: seq<Action>)
      requires At(View(), k, Waiting)
      modifies this
      ensures View() == Steps(Step, old(View()), taken)
      ensures outcome.Some? ==> At(View(), k, Done(outcome.value))
      ensures outcome.None? ==> View() == old(View())
      ensures outcome.None? <==> old(calls)[k].channel.None? && !timedOut && !cancelled && !old(reader).Stopped?
      ensures outcome.Some? ==> match outcome.value
                                case Got(r) => old(calls)[k].channel == Some(r)
                                case SendFailed => false
                                case TimedOut => timedOut
                                case Cancelled => cancelled
                                case Crashed => old(reader).Stopped?
    {
      ghost var s := View();
      if
      case calls[k].channel.Some? =>
        outcome, taken := Some(Got(calls[k].channel.value)), [Receive(k)];
        calls := calls[k := calls[k].(stage := Done(outcome.value), channel := None)];
        OneStep(Step, s, taken[0]);
      case timedOut =>
        outcome, taken := Some(TimedOut), [Timeout(k)];
        calls := calls[k := calls[k].(stage := Done(TimedOut))];
        OneStep(Step, s, taken[0]);
      case cancelled =>
        outcome, taken := Some(Cancelled), [Cancel(k)];
        calls := calls[k := calls[k].(stage := Done(Cancelled))];
        OneStep(Step, s, taken[0]);
      case reader.Stopped? =>
        outcome, taken := Some(Crashed), [SeeCrash(k)];
        calls := calls[k := calls[k].(stage := Done(Crashed))];
        OneStep(Step, s, taken[0]);
      case calls[k].channel.None? && !timedOut && !cancelled && !reader.Stopped? =>
        outcome, taken := None, [];
    }

    method UnregisterCall(k: nat) returns (outcome: Outcome)
      requires k < |calls| && calls[k].stage.Done? && mutex.Free?
      modifies this
      ensures View() == Step(old(View()), Unregister(k)) && outcome == old(calls)[k].stage.outcome
    {
      outcome := calls[k].stage.outcome;
      pending := pending - {calls[k].id};
      calls := calls[k := calls[k].(stage := Returned(outcome))];
    }

    method Route(response: Response)
      requires AllOk(View()) && reader.Reading? && mutex.Free?
      modifies this
      ensures mutex == old(mutex)
      ensures View() == Steps(Step, old(View()), [Read(response), LookUp, Deliver])
    {
      hide Step, Blocked;
      RouteResult(View(), response);
      if response.id != 0 {
        answered := answered + {response.id};
        if response.id in pending {
          var k := pending[response.id];
          reader := Delivering(response, k);
          if calls[k].channel.None? {
            calls := calls[k := calls[k].(channel := Some(response))];
            reader := Reading;
          }
        } else {
          dropped := dropped + {response.id};
        }
      }
    }

    /** The read loop with no requester in between: it ends when a message cannot be read, or waits for ever at
        a full channel. */
    method ReadLoop(stdout: Framing.Reader, decode: string -> Option<Response>) returns (panicked: bool)
      requires AllOk(View()) && reader.Reading? && mutex.Free?
      modifies this, stdout
      ensures View() == Steps(Step, old(View()), LoopActions(old(stdout.input), decode))
      ensures panicked || reader.Stopped? || Blocked(View())
    {
      hide Step, AllOk, LoopActions, Framing.Read;
      ghost var s, input := View(), stdout.input;
      while true
        invariant AllOk(View()) && reader.Reading? && mutex.Free?
        invariant Steps(Step, s, LoopActions(input, decode)) == Steps(Step, View(), LoopActions(stdout.input, decode))
        decreases |stdout.input|
      {
        ghost var now, before := View(), stdout.input;
        var msg := stdout.ReadMessage();
        if msg.Panic? {
          PanicEnds(before, decode);
          return true;
        }
        if msg.Broken? {
          ErrorEnds(now, before, decode);
          reader := Stopped;
          return false;
        }
        var response := decode(msg.body);
        if response.None? {
          ErrorEnds(now, before, decode);
          reader := Stopped;
          return false;
        }
        MessageRouted(now, before, decode);
        RoutedOk(now, response.value);
        Route(response.value);
        if !reader.Reading? {
          StuckLoop(View(), stdout.input, decode);
          return false;
        }
      }
    }
  }

  function SendActions(k: nat, body: Option<string>, room: nat): seq<Action> {
    if body.None? then [MarshalFails(k)]
    else
      var length := |Framing.Frame(body.value)|;
      [BeginSend(k, body.value), Write(if room < length then room else length), EndWrite(length <= room)]
  }

  lemma SendSteps(s: State, k: nat, body: string, n: nat)
    requires At(s, k, Registered) && s.mutex.Free? && n <= |Framing.Frame(body)|
    ensures var frame := Framing.Frame(body);
            var ok := n == |frame|;
            Steps(Step, s, [BeginSend(k, body), Write(n), EndWrite(ok)])
            == WithStage(s, k, if ok then Waiting else Done(SendFailed)).(
                 stdin := s.stdin + frame[..n], sent := s.sent + [body], torn := s.torn || !ok)
  {
    hide Framing.Frame;
    var frame := Framing.Frame(body);
    var ok := n == |frame|;
    ThreeSteps(Step, s, BeginSend(k, body), Write(n), EndWrite(ok));
    var s1 := Step(s, BeginSend(k, body));
    var s2 := Step(s1, Write(n));
    assert s2.mutex == Held(Some(k), frame[n..]) && s2.stdin == s.stdin + frame[..n] && At(s2, k, Sending);
    var t := Step(s2, EndWrite(ok));
    var stage := if ok then Waiting else Done(SendFailed);
    assert t.calls == s.calls[k := s.calls[k].(stage := stage)];
  }

  lemma PanicEnds(input: string, decode: string -> Option<Response>)
    requires Framing.Read(input).Panic?
    ensures LoopActions(input, decode) == []
  {
  }

  lemma ErrorEnds(s: State, input: string, decode: string -> Option<Response>)
    requires s.reader.Reading?
    requires Framing.Read(input).Broken? || (Framing.Read(input).Message? && decode(Framing.Read(input).body).None?)
    ensures Steps(Step, s, LoopActions(input, decode)) == s.(reader := Stopped)
  {
    OneStep(Step, s, ReadError);
  }

  lemma MessageRouted(s: State, input: string, decode: string -> Option<Response>)
    requires Framing.Read(input).Message? && decode(Framing.Read(input).body).Some?
    ensures var r := decode(Framing.Read(input).body).value;
            Steps(Step, s, LoopActions(input, decode)) ==
            Steps(Step, Steps(Step, s, [Read(r), LookUp, Deliver]), LoopActions(Framing.Read(input).rest, decode))
  {
    hide Framing.Read, Step;
    var r := decode(Framing.Read(input).body).value;
    StepsSum(Step, s, [Read(r), LookUp, Deliver], LoopActions(Framing.Read(input).rest, decode));
  }

  /** What routing one message comes to. */
  lemma RouteResult(s: State, r: Response)
    requires AllOk(s) && s.reader.Reading? && s.mutex.Free?
    ensures r.id in s.pending ==> s.pending[r.id] < |s.calls| && s.pending[r.id] == r.id - 1
    ensures Steps(Step, s, [Read(r), LookUp, Deliver]) ==
            if r.id == 0 then s
            else if r.id !in s.pending then s.(answered := s.answered + {r.id}, dropped := s.dropped + {r.id})
            else
              var k := s.pending[r.id];
              if s.calls[k].channel.Some? then s.(answered := s.answered + {r.id}, reader := Delivering(r, k))
              else s.(answered := s.answered + {r.id}, calls := s.calls[k := s.calls[k].(channel := Some(r))])
  {
    PendingPlace(s);
    hide AllOk, Step;
    ThreeSteps(Step, s, Read(r), LookUp, Deliver);
    ReadResult(s, r);
    if r.id != 0 {
      var s1 := Step(s, Read(r));
      LookUpResult(s1, r);
      DeliverResult(Step(s1, LookUp), r);
    } else {
      NothingToRoute(s);
    }
  }

  lemma ReadResult(s: State, r: Response)
    requires s.reader.Reading?
    ensures Step(s, Read(r)) == if r.id == 0 then s else s.(reader := Routing(r), answered := s.answered + {r.id})
  {
  }

  lemma LookUpResult(s: State, r: Response)
    requires s.reader == Routing(r) && s.mutex.Free?
    ensures Step(s, LookUp) == if r.id in s.pending then s.(reader := Delivering(r, s.pending[r.id]))
                               else s.(reader := Reading, dropped := s.dropped + {r.id})
  {
  }

  lemma DeliverResult(s: State, r: Response)
    requires s.reader.Delivering? ==> s.reader.call < |s.calls|
    ensures Step(s, Deliver) ==
            if s.reader.Delivering? && s.calls[s.reader.call].channel.None?
            then s.(reader := Reading,
                    calls := s.calls[s.reader.call := s.calls[s.reader.call].(channel := Some(s.reader.response))])
            else s
  {
  }

  lemma NothingToRoute(s: State)
    requires s.reader.Reading?
    ensures Step(s, LookUp) == s && Step(s, Deliver) == s
  {
  }

  lemma RoutedOk(s: State, r: Response)
    requires AllOk(s) && s.reader.Reading? && s.mutex.Free?
    ensures var t := Steps(Step, s, [Read(r), LookUp, Deliver]);
            AllOk(t) && (t.reader.Reading? || Blocked(t))
  {
    hide Step, AllOk;
    ThreeSteps(Step, s, Read(r), LookUp, Deliver);
    StepOk(s, Read(r));
    StepOk(Step(s, Read(r)), LookUp);
    StepOk(Step(Step(s, Read(r)), LookUp), Deliver);
    RouteResult(s, r);
  }

  lemma BlockedStays(s: State, r: Response)
    requires Blocked(s)
    ensures Steps(Step, s, [Read(r), LookUp, Deliver]) == s && Step(s, ReadError) == s
  {
    ThreeSteps(Step, s, Read(r), LookUp, Deliver);
  }

  /** A reader at a full channel reads nothing more by itself. */
  lemma {:induction false} StuckLoop(s: State, input: string, decode: string -> Option<Response>)
    requires Blocked(s)
    ensures Steps(Step, s, LoopActions(input, decode)) == s
    decreases |input|
  {
    hide Framing.Read, Step, Blocked;
    var m := Framing.Read(input);
    if m.Message? && decode(m.body).Some? {
      MessageRouted(s, input, decode);
      BlockedStays(s, decode(m.body).value);
      StuckLoop(s, m.rest, decode);
    } else {
      OneStep(Step, s, ReadError);
      BlockedStays(s, Response(0, ""));
    }
  }

  // ----- from the server's frames to the requesters -----

  lemma RoutedTo(s: State, r: Response)
    requires AllOk(s) && Conserved(s) && s.reader.Reading? && s.mutex.Free? && r.id != 0 && r.id !in s.answered
    ensures var t := Steps(Step, s, [Read(r), LookUp, Deliver]);
            && AllOk(t) && Conserved(t) && t.reader.Reading? && t.mutex.Free?
            && t.pending == s.pending && t.answered == s.answered + {r.id}
            && t.calls == if r.id in s.pending && s.pending[r.id] < |s.calls|
                          then s.calls[s.pending[r.id] := s.calls[s.pending[r.id]].(channel := Some(r))]
                          else s.calls
  {
    var s1 := Step(s, Read(r));
    var s2 := Step(s1, LookUp);
    ThreeSteps(Step, s, Read(r), LookUp, Deliver);
    StepOk(s, Read(r));
    StepConserved(s, Read(r));
    StepOk(s1, LookUp);
    StepConserved(s1, LookUp);
    StepOk(s2, Deliver);
    StepConserved(s2, Deliver);
    assert s2.reader.Delivering? ==> InOnePlace(s2, s2.reader.response.id);
    NotBlocked(s2);
    hide CallOk, InOnePlace;
  }

  /** From `s` to `t` each pending call that a response names has received it in its channel, and the other calls
      are as they were. */
  predicate Arrived(s: State, t: State, responses: seq<Response>) {
    && t.reader.Stopped? && t.pending == s.pending && |t.calls| == |s.calls|
    && (forall i :: 0 <= i < |responses| && responses[i].id in s.pending ==>
          var k := responses[i].id - 1;
          0 <= k < |s.calls| && t.calls[k] == s.calls[k].(channel := Some(responses[i])))
    && (forall k :: 0 <= k < |s.calls| && (forall i :: 0 <= i < |responses| ==> responses[i].id != k + 1) ==>
          t.calls[k] == s.calls[k])
  }

  predicate DistinctIds(responses: seq<Response>) {
    forall i, j :: 0 <= i < j < |responses| ==> responses[i].id != responses[j].id
  }

  predicate NewIds(responses: seq<Response>, answered: set<int>) {
    forall i :: 0 <= i < |responses| ==> responses[i].id != 0 && responses[i].id !in answered
  }

  predicate Bodies(bodies: seq<string>, responses: seq<Response>, decode: string -> Option<Response>) {
    && |bodies| == |responses|
    && forall i :: 0 <= i < |bodies| ==> Framing.Sendable(bodies[i]) && decode(bodies[i]) == Some(responses[i])
  }

  lemma ArrivedNone(s: State)
    ensures Arrived(s, s.(reader := Stopped), [])
  {
  }

  lemma ArrivedCons(s: State, u: State, t: State, responses: seq<Response>)
    requires responses != [] && DistinctIds(responses) && Arrived(u, t, responses[1..])
    requires forall id :: id in s.pending ==> 1 <= id <= |s.calls| && s.pending[id] == id - 1
    requires u.pending == s.pending
    requires u.calls == if responses[0].id in s.pending
                        then s.calls[responses[0].id - 1 :=
                                       s.calls[responses[0].id - 1].(channel := Some(responses[0]))]
                        else s.calls
    ensures Arrived(s, t, responses)
  {
    var rest := responses[1..];
    assert forall i :: 1 <= i < |responses| ==> responses[i] == rest[i - 1];
    forall i | 0 <= i < |responses| && responses[i].id in s.pending
      ensures var k := responses[i].id - 1;
              0 <= k < |s.calls| && t.calls[k] == s.calls[k].(channel := Some(responses[i]))
    {
      if i > 0 {
        assert responses[i] == rest[i - 1];
      }
    }
  }

  lemma IdsCons(responses: seq<Response>, answered: set<int>)
    requires responses != [] && DistinctIds(responses) && NewIds(responses, answered)
    ensures DistinctIds(responses[1..]) && NewIds(responses[1..], answered + {responses[0].id})
    ensures responses[0].id != 0 && responses[0].id !in answered
  {
    var rest := responses[1..];
    forall i | 0 <= i < |rest|
      ensures rest[i].id != 0 && rest[i].id !in answered + {responses[0].id}
    {
      assert rest[i] == responses[i + 1];
    }
    forall i, j | 0 <= i < j < |rest|
      ensures rest[i].id != rest[j].id
    {
      assert rest[i] == responses[i + 1] && rest[j] == responses[j + 1];
    }
  }

  lemma BodiesCons(bodies: seq<string>, responses: seq<Response>, decode: string -> Option<Response>)
    requires Bodies(bodies, responses, decode) && responses != []
    ensures bodies != [] && Framing.Sendable(bodies[0]) && decode(bodies[0]) == Some(responses[0])
    ensures Bodies(bodies[1..], responses[1..], decode)
  {
  }

  /** Every answer the server frames, in any order, ends up with the requester that is waiting for it. */
  lemma {:induction false} AnswersArrive(s: State, bodies: seq<string>, responses: seq<Response>,
                                         decode: string -> Option<Response>)
    requires AllOk(s) && Conserved(s) && s.reader.Reading? && s.mutex.Free? && Bodies(bodies, responses, decode)
    requires NewIds(responses, s.answered) && DistinctIds(responses)
    ensures Arrived(s, Steps(Step, s, LoopActions(Framing.Frames(bodies), decode)), responses)
    decreases |responses|
  {
    if responses == [] {
      assert bodies == [];
      NoFrames(s, decode);
      ArrivedNone(s);
    } else {
      hide *;
      BodiesCons(bodies, responses, decode);
      IdsCons(responses, s.answered);
      FrameRouted(s, bodies, decode);
      RoutedTo(s, responses[0]);
      PendingPlace(s);
      var u := Steps(Step, s, [Read(responses[0]), LookUp, Deliver]);
      AnswersArrive(u, bodies[1..], responses[1..], decode);
      ArrivedCons(s, u, Steps(Step, u, LoopActions(Framing.Frames(bodies[1..]), decode)), responses);
    }
  }

  /** And if that requester still waits, its receive hands it that response. */
  lemma AnswersReceived(s: State, bodies: seq<string>, responses: seq<Response>, decode: string -> Option<Response>,
                        i: nat)
    requires AllOk(s) && Conserved(s) && s.reader.Reading? && s.mutex.Free? && Bodies(bodies, responses, decode)
    requires NewIds(responses, s.answered) && DistinctIds(responses)
    requires i < |responses| && responses[i].id in s.pending
    ensures var t := Steps(Step, s, LoopActions(Framing.Frames(bodies), decode));
            var k := responses[i].id - 1;
            k >= 0 && (At(s, k, Waiting) ==> At(Step(t, Receive(k)), k, Done(Got(responses[i]))))
  {
    hide AllOk, Conserved, Bodies, NewIds, DistinctIds, LoopActions, Framing.Frames;
    AnswersArrive(s, bodies, responses, decode);
  }

  lemma NoFrames(s: State, decode: string -> Option<Response>)
    requires s.reader.Reading?
    ensures Steps(Step, s, LoopActions(Framing.Frames([]), decode)) == s.(reader := Stopped)
  {
    Framing.NothingToRead();
    ErrorEnds(s, "", decode);
  }

  lemma FrameRouted(s: State, bodies: seq<string>, decode: string -> Option<Response>)
    requires bodies != [] && Framing.Sendable(bodies[0]) && decode(bodies[0]).Some?
    ensures Steps(Step, s, LoopActions(Framing.Frames(bodies), decode)) ==
            Steps(Step, Steps(Step, s, [Read(decode(bodies[0]).value), LookUp, Deliver]),
                  LoopActions(Framing.Frames(bodies[1..]), decode))
  {
    hide Framing.Read, Framing.Frame, Framing.FrameWith, Step, LoopActions;
    Framing.FrameIsPlain(bodies[0]);
    FitsInt(bodies[0]);
    Framing.FrameIsRead([], [], bodies[0], Framing.Frames(bodies[1..]));
    MessageRouted(s, Framing.Frames(bodies), decode);
  }

  lemma FitsInt(body: string)
    requires Framing.Sendable(body)
    ensures |body| <= Framing.MAX_INT
  {
  }

  lemma PendingPlace(s: State)
    requires AllOk(s)
    ensures forall id :: id in s.pending ==> 1 <= id <= |s.calls| && s.pending[id] == id - 1
  {
    forall id | id in s.pending
      ensures 1 <= id <= |s.calls| && s.pending[id] == id - 1
    {
      assert CallOk(s, id - 1);
    }
  }
}
