/** The retry ladder around the parser and the writer. */
module Executor {
  import opened Text
  import opened Types
  import opened FileTree
  import opened Writer
  import opened Batch
  import Parser
  import PathSafe
  import Apply

  datatype Variant = Standard | Strict

  datatype Rung = Rung(tier: string, variant: Variant)

  datatype Input = Input(task: string, complexity: string, tier: string, graft: string)

  datatype Event =
    | FilesWritten(tier: string, complexity: string, operation: OpKind)
    | SpanFileWritten(path: string, operation: OpKind, bytes: nat)
    | PhantomDelete(tier: string)
    | ParseFailure(parseReason: ParseReason, tier: string)
    | WriteFailure(writeReason: WriteReason)

  datatype Outcome = Outcome(content: string, tier: string, attempts: nat, changes: seq<Change>)

  datatype Cause = Cancelled | ModelFailed | Exhausted(last: ParseError) | WriteFailed(error: WriteError)

  datatype RunError = RunError(attempts: nat, tier: string, cause: Cause)

  /** A model: its reply to the n-th call ever made, for a rung and the prompts of an input. */
  type Model = (nat, Rung, Input) -> Option<string>

  function Ladder(tier: string, next: Option<string>): seq<Rung> {
    [Rung(tier, Standard), Rung(tier, Strict)] + if next.Some? then [Rung(next.value, Strict)] else []
  }

  function ChangeEvents(change: Change, tier: string, complexity: string): seq<Event> {
    if change.skipped then [PhantomDelete(tier)]
    else [FilesWritten(tier, complexity, change.operation),
          SpanFileWritten(change.path, change.operation, change.bytes)]
  }

  function EventsOf(changes: seq<Change>, tier: string, complexity: string): seq<Event> {
    if changes == [] then []
    else EventsOf(changes[..|changes| - 1], tier, complexity) + ChangeEvents(changes[|changes| - 1], tier, complexity)
  }

  /** Change by change: a phantom delete for a skipped one, otherwise the file and then its span. */
  lemma EventsInOrder(first: Change, rest: seq<Change>, tier: string, complexity: string)
    ensures EventsOf([], tier, complexity) == []
    ensures EventsOf([first] + rest, tier, complexity)
            == (if first.skipped then [PhantomDelete(tier)]
                else [FilesWritten(tier, complexity, first.operation),
                      SpanFileWritten(first.path, first.operation, first.bytes)])
               + EventsOf(rest, tier, complexity)
  {
    EventsLead(first, rest, tier, complexity);
  }

  lemma {:induction false} EventsLead(first: Change, rest: seq<Change>, tier: string, complexity: string)
    ensures EventsOf([first] + rest, tier, complexity)
            == ChangeEvents(first, tier, complexity) + EventsOf(rest, tier, complexity)
    decreases |rest|
  {
    hide ChangeEvents;
    if rest == [] {
      assert [first] + rest == [first] && [first][..0] == [];
    } else {
      var n := |rest| - 1;
      EventsLead(first, rest[..n], tier, complexity);
      assert ([first] + rest)[..n + 1] == [first] + rest[..n] && ([first] + rest)[n + 1] == rest[n];
      Associates(ChangeEvents(first, tier, complexity), EventsOf(rest[..n], tier, complexity),
                 ChangeEvents(rest[n], tier, complexity));
    }
  }

  lemma Associates(a: seq<Event>, b: seq<Event>, c: seq<Event>)
    ensures (a + b) + c == a + (b + c)
  {
  }

  // ----- a run told by its calls -----

  /** The calls of a run, the first being call number `first`: the tier with the standard prompt, the tier with the
      strict one, and the next tier, if there is one, with the strict one; each but the last came to nothing. */
  ghost predicate Climbed(model: Model, first: nat, input: Input, next: Option<string>, made: seq<Rung>) {
    && (|made| > 0 ==> made[0] == Rung(input.tier, Standard))
    && (|made| > 1 ==> made[1] == Rung(input.tier, Strict))
    && (|made| > 2 ==> |made| == 3 && next == Some(made[2].tier) && made[2].variant == Strict)
    && forall k: nat :: k + 1 < |made| ==>
         && model(first + k, made[k], input).Some?
         && Parser.ParseText(model(first + k, made[k], input).value).Failure?
  }

  /** How the last of these calls decides the run. */
  ghost predicate Concluded(model: Model, first: nat, input: Input, next: Option<string>, made: seq<Rung>,
                            r: Result<Outcome, RunError>) {
    var n, full := |made|, if next.Some? then 3 else 2;
    var reply := if n > 0 then model(first + n - 1, made[n - 1], input) else None;
    match r
    case Success(o) =>
      && n > 0 && o.attempts == n && o.tier == made[n - 1].tier
      && reply == Some(o.content) && Parser.ParseText(o.content).Success?
    case Failure(e) =>
      && e.attempts == n && e.tier == (if n > 0 then made[n - 1].tier else input.tier)
      && match e.cause
         case Cancelled => n < full && (n > 0 ==> reply.Some? && Parser.ParseText(reply.value).Failure?)
         case ModelFailed => n > 0 && reply.None?
         case Exhausted(last) => n == full && reply.Some? && Parser.ParseText(reply.value) == Failure(last)
         case WriteFailed(_) => n > 0 && reply.Some? && Parser.ParseText(reply.value).Success?
  }

  /** The metrics of a run: one parse failure for each reply that did not parse, and then the changes of the batch
      or the failure to write it. */
  ghost predicate Metered(model: Model, first: nat, input: Input, made: seq<Rung>, log: seq<Event>,
                          r: Result<Outcome, RunError>) {
    var decided := r.Success? || r.error.cause.ModelFailed? || r.error.cause.WriteFailed?;
    var missed := if decided then |made| - 1 else |made|;
    && 0 <= missed <= |log|
    && (forall k: nat :: k < missed ==>
          var reply := model(first + k, made[k], input);
          && reply.Some? && Parser.ParseText(reply.value).Failure?
          && log[k] == ParseFailure(Parser.ParseText(reply.value).error.reason, made[k].tier))
    && log[missed..] == match r
                        case Success(o) => EventsOf(o.changes, o.tier, input.complexity)
                        case Failure(e) =>
                          if e.cause.WriteFailed? then [WriteFailure(e.cause.error.reason)] else []
  }

  /** What comes of one rung. */
  datatype Turn = Stopped | Unanswered | Unparsed(error: ParseError) | Parsed(content: string, ops: seq<FileOp>)

  /** One input on one ladder, the first of its calls being call number `first`. */
  datatype Attempt = Attempt(model: Model, first: nat, input: Input, rungs: seq<Rung>) {
    function Reply(k: nat): Option<string>
      requires k < |rungs|
    {
      model(first + k, rungs[k], input)
    }

    predicate Answered(k: nat)
      requires k < |rungs|
    {
      Reply(k).Some?
    }

    function Parsed(k: nat): Result<seq<FileOp>, ParseError>
      requires k < |rungs| && Answered(k)
    {
      Parser.ParseText(Reply(k).value)
    }

    /** The first `n` replies came and none of them parsed. */
    predicate Missed(n: nat)
      requires n <= |rungs|
    {
      forall j :: 0 <= j < n ==> Answered(j) && Parsed(j).Failure?
    }

    /** Reply `k` is the first to parse. */
    predicate Accepts(k: nat) {
      k < |rungs| && Missed(k) && Answered(k) && Parsed(k).Success?
    }

    /** And its batch goes through, if no step is refused. */
    ghost predicate Applies(k: nat, v: PathSafe.Validator, start: Tree) {
      && Accepts(k)
      && Plan(v, start, Parsed(k).value).Success?
      && PrefixFree(Plan(v, start, Parsed(k).value).value)
    }

    function ParseFailures(n: nat): seq<Event>
      requires n <= |rungs| && Missed(n)
    {
      if n == 0 then [] else ParseFailures(n - 1) + [ParseFailure(Parsed(n - 1).error.reason, rungs[n - 1].tier)]
    }

    lemma MissedNone()
      ensures Missed(0) && ParseFailures(0) == [] && LastTier(0) == input.tier
    {
    }

    lemma MissedEach(n: nat)
      requires n <= |rungs| && Missed(n)
      ensures forall k :: 0 <= k < n ==> Answered(k) && Parsed(k).Failure?
    {
    }

    lemma MissedMore(n: nat)
      requires n < |rungs| && Missed(n) && Answered(n) && Parsed(n).Failure?
      ensures Missed(n + 1)
      ensures ParseFailures(n + 1) == ParseFailures(n) + [ParseFailure(Parsed(n).error.reason, rungs[n].tier)]
    {
    }

    lemma TierAfter(k: nat)
      requires k < |rungs|
      ensures LastTier(k + 1) == rungs[k].tier
    {
    }

    lemma Calls(k: nat)
      requires k < |rungs|
      ensures Reply(k) == model(first + k, rungs[k], input) && (Answered(k) <==> Reply(k).Some?)
      ensures Answered(k) ==> Parsed(k) == Parser.ParseText(Reply(k).value)
    {
    }

    lemma MissedFewer(n: nat, m: nat)
      requires m <= n <= |rungs| && Missed(n)
      ensures Missed(m)
    {
    }

    lemma MissedAt(n: nat, k: nat)
      requires n <= |rungs| && Missed(n)
      ensures k < n ==> Answered(k) && Parsed(k).Failure?
    {
    }

    /** At most one reply is the first to parse. */
    lemma FirstAccepted(k: nat)
      requires k < |rungs| && Missed(k) && Answered(k) && Parsed(k).Success?
      ensures Accepts(k) && forall other: nat :: Accepts(other) ==> other == k
    {
      forall other: nat | Accepts(other)
        ensures other == k
      {
        MissedAt(k, other);
        MissedAt(other, k);
      }
    }

    /** Only the first reply to parse can apply. */
    lemma AppliesIf(k: nat, v: PathSafe.Validator, start: Tree)
      requires k < |rungs| && Missed(k) && Answered(k) && Parsed(k).Success?
      ensures Accepts(k) && forall other: nat :: Applies(other, v, start) ==> other == k
      ensures var plan := Plan(v, start, Parsed(k).value);
              Applies(k, v, start) <==> plan.Success? && PrefixFree(plan.value)
    {
      hide Plan, PrefixFree, Missed;
      FirstAccepted(k);
    }

    lemma NoneApplies(v: PathSafe.Validator, start: Tree)
      ensures (forall k: nat :: !Accepts(k)) ==> forall k: nat :: !Applies(k, v, start)
    {
      hide Accepts;
    }

    lemma NoneAccepted(n: nat)
      requires n <= |rungs| && Missed(n) && (n < |rungs| ==> !Answered(n))
      ensures forall k: nat :: !Accepts(k)
    {
      forall k: nat
        ensures !Accepts(k)
      {
        MissedAt(n, k);
        if Accepts(k) {
          MissedAt(k, n);
        }
      }
    }

    function LastTier(n: nat): string
      requires n <= |rungs|
    {
      if n == 0 then input.tier else rungs[n - 1].tier
    }

    /** How a run may fail after `n` calls: cancelled before another call, by a call, by the batch of the
        first reply to parse, or at the end of the ladder with nothing parsed. */
    predicate FailsWith(n: nat, e: RunError) {
      && n <= |rungs| && e.attempts == n && e.tier == LastTier(n)
      && match e.cause
         case Cancelled => n < |rungs| && Missed(n)
         case ModelFailed => n > 0 && Missed(n - 1) && !Answered(n - 1)
         case Exhausted(last) => n == |rungs| > 0 && Missed(n) && last == Parsed(n - 1).error
         case WriteFailed(_) => n > 0 && Accepts(n - 1)
    }

    function FailureEvents(n: nat, e: RunError): seq<Event>
      requires FailsWith(n, e)
    {
      match e.cause
      case Cancelled => ParseFailures(n)
      case ModelFailed => ParseFailures(n - 1)
      case Exhausted(_) => ParseFailures(n)
      case WriteFailed(write) => ParseFailures(n - 1) + [WriteFailure(write.reason)]
    }

    lemma FailureIs(n: nat, e: RunError)
      requires FailsWith(n, e)
      ensures n <= |rungs| && e.attempts == n && e.tier == if n > 0 then rungs[n - 1].tier else input.tier
      ensures var decided := e.cause.ModelFailed? || e.cause.WriteFailed?;
              var missed := if decided then n - 1 else n;
              && missed >= 0 && Missed(missed)
              && FailureEvents(n, e) == ParseFailures(missed)
                                        + if e.cause.WriteFailed? then [WriteFailure(e.cause.error.reason)] else []
    {
      hide ParseFailures, Missed, Answered, Parsed;
    }

    lemma FailsByCancel(n: nat, e: RunError)
      requires n < |rungs| && Missed(n) && e == RunError(n, LastTier(n), Cancelled)
      ensures FailsWith(n, e) && FailureEvents(n, e) == ParseFailures(n)
    {
    }

    lemma FailsByModel(n: nat, e: RunError)
      requires 0 < n <= |rungs| && Missed(n - 1) && !Answered(n - 1)
      requires e == RunError(n, rungs[n - 1].tier, ModelFailed)
      ensures FailsWith(n, e) && FailureEvents(n, e) == ParseFailures(n - 1)
      ensures forall k: nat :: !Accepts(k)
    {
      NoneAccepted(n - 1);
    }

    lemma FailsByWrite(n: nat, e: RunError)
      requires 0 < n <= |rungs| && Accepts(n - 1) && e.cause.WriteFailed?
      requires e.attempts == n && e.tier == rungs[n - 1].tier
      ensures FailsWith(n, e)
      ensures FailureEvents(n, e) == ParseFailures(n - 1) + [WriteFailure(e.cause.error.reason)]
    {
    }

    lemma FailsExhausted(e: RunError, last: ParseError)
      requires rungs != [] && Missed(|rungs|) && last == Parsed(|rungs| - 1).error
      requires e == RunError(|rungs|, LastTier(|rungs|), Exhausted(last))
      ensures FailsWith(|rungs|, e) && FailureEvents(|rungs|, e) == ParseFailures(|rungs|)
      ensures forall k: nat :: !Accepts(k)
    {
      NoneAccepted(|rungs|);
    }
  }

  /** The context was looked at before each of `n` calls, with nothing else asked in between, and was live. */
  ghost predicate LookedEachTime(verdicts: Apply.Oracle, from: nat, n: nat) {
    forall at: nat :: from <= at < from + n ==> verdicts(at, Apply.AskingContext).Proceed?
  }

  lemma LookedNotYet(verdicts: Apply.Oracle, from: nat)
    ensures LookedEachTime(verdicts, from, 0)
  {
  }

  lemma LookedOnceMore(verdicts: Apply.Oracle, from: nat, n: nat)
    requires LookedEachTime(verdicts, from, n) && verdicts(from + n, Apply.AskingContext).Proceed?
    ensures LookedEachTime(verdicts, from, n + 1)
  {
  }

  lemma LadderRungs(tier: string, next: Option<string>)
    ensures var rungs := Ladder(tier, next);
            && |rungs| == (if next.Some? then 3 else 2)
            && rungs[0] == Rung(tier, Standard) && rungs[1] == Rung(tier, Strict)
            && (next.Some? ==> rungs[2] == Rung(next.value, Strict))
  {
  }

  /** Reply `k` is told by the call that was made. */
  lemma CallTold(a: Attempt, n: nat, k: nat)
    requires k < n <= |a.rungs|
    ensures a.rungs[..n][k] == a.rungs[k]
    ensures a.Reply(k) == a.model(a.first + k, a.rungs[..n][k], a.input) && (a.Answered(k) <==> a.Reply(k).Some?)
    ensures a.Answered(k) ==> a.Parsed(k) == Parser.ParseText(a.Reply(k).value)
  {
    hide Parser.ParseText;
  }

  lemma LadderClimbed(a: Attempt, next: Option<string>, n: nat)
    requires a.rungs == Ladder(a.input.tier, next) && n <= |a.rungs| && (n > 0 ==> a.Missed(n - 1))
    ensures Climbed(a.model, a.first, a.input, next, a.rungs[..n])
    ensures |a.rungs| == if next.Some? then 3 else 2
  {
    hide Parser.ParseText, Ladder, Attempt.Missed, Attempt.Reply, Attempt.Answered, Attempt.Parsed;
    LadderRungs(a.input.tier, next);
    var made := a.rungs[..n];
    forall k: nat | k + 1 < n
      ensures a.model(a.first + k, made[k], a.input).Some?
      ensures Parser.ParseText(a.model(a.first + k, made[k], a.input).value).Failure?
    {
      a.MissedAt(n - 1, k);
      CallTold(a, n, k);
    }
  }

  lemma {:induction false} FailuresTold(a: Attempt, n: nat)
    requires n <= |a.rungs| && a.Missed(n)
    ensures var log := a.ParseFailures(n);
            && |log| == n
            && forall k: nat :: k < n ==>
                 && a.Answered(k) && a.Parsed(k).Failure?
                 && log[k] == ParseFailure(a.Parsed(k).error.reason, a.rungs[k].tier)
  {
    hide Parser.ParseText, Attempt.Reply, Attempt.Answered, Attempt.Parsed;
    if n > 0 {
      a.MissedAt(n, n - 1);
      FailuresTold(a, n - 1);
    }
  }

  /** The parse failures and what follows them, told by the calls. */
  lemma LogTold(a: Attempt, n: nat, missed: nat, rest: seq<Event>, r: Result<Outcome, RunError>)
    requires missed <= n <= |a.rungs| && a.Missed(missed)
    requires missed == if r.Success? || r.error.cause.ModelFailed? || r.error.cause.WriteFailed? then n - 1 else n
    requires rest == match r
                     case Success(o) => EventsOf(o.changes, o.tier, a.input.complexity)
                     case Failure(e) =>
                       if e.cause.WriteFailed? then [WriteFailure(e.cause.error.reason)] else []
    ensures Metered(a.model, a.first, a.input, a.rungs[..n], a.ParseFailures(missed) + rest, r)
  {
    hide Parser.ParseText, EventsOf, Attempt.Missed, Attempt.Reply, Attempt.Answered, Attempt.Parsed;
    FailuresTold(a, missed);
    hide Attempt.ParseFailures;
    var made, log := a.rungs[..n], a.ParseFailures(missed) + rest;
    assert log[missed..] == rest;
    forall k: nat | k < missed
      ensures var reply := a.model(a.first + k, made[k], a.input);
              && reply.Some? && Parser.ParseText(reply.value).Failure?
              && log[k] == ParseFailure(Parser.ParseText(reply.value).error.reason, made[k].tier)
    {
      CallTold(a, n, k);
    }
  }

  /** A run that fails, told by its calls. */
  lemma FailureTold(a: Attempt, next: Option<string>, n: nat, e: RunError)
    requires a.rungs == Ladder(a.input.tier, next) && a.FailsWith(n, e)
    ensures Climbed(a.model, a.first, a.input, next, a.rungs[..n])
    ensures Concluded(a.model, a.first, a.input, next, a.rungs[..n], Failure(e))
    ensures Metered(a.model, a.first, a.input, a.rungs[..n], a.FailureEvents(n, e), Failure(e))
  {
    hide Parser.ParseText, Ladder, Attempt.ParseFailures, Attempt.Missed, Attempt.Reply, Attempt.Answered,
         Attempt.Parsed, Climbed, Metered;
    var missed := if e.cause.ModelFailed? || e.cause.WriteFailed? then n - 1 else n;
    a.FailureIs(n, e);
    a.MissedFewer(missed, if n > 0 then n - 1 else 0);
    LadderClimbed(a, next, n);
    LogTold(a, n, missed, if e.cause.WriteFailed? then [WriteFailure(e.cause.error.reason)] else [], Failure(e));
    assert a.ParseFailures(missed) + [] == a.ParseFailures(missed);
    if n > 0 {
      CallTold(a, n, n - 1);
      if missed == n {
        a.MissedAt(n, n - 1);
      }
    }
  }

  /** A run that succeeds, told by its calls. */
  lemma SuccessTold(a: Attempt, next: Option<string>, n: nat, o: Outcome)
    requires a.rungs == Ladder(a.input.tier, next) && 0 < n <= |a.rungs|
    requires a.Missed(n - 1) && a.Answered(n - 1) && a.Parsed(n - 1).Success?
    requires a.Reply(n - 1) == Some(o.content) && o.tier == a.rungs[n - 1].tier && o.attempts == n
    ensures Climbed(a.model, a.first, a.input, next, a.rungs[..n])
    ensures Concluded(a.model, a.first, a.input, next, a.rungs[..n], Success(o))
    ensures Metered(a.model, a.first, a.input, a.rungs[..n],
                    a.ParseFailures(n - 1) + EventsOf(o.changes, o.tier, a.input.complexity), Success(o))
    ensures a.Parsed(n - 1) == Parser.ParseText(o.content)
  {
    hide Parser.ParseText, Ladder, EventsOf, Attempt.ParseFailures, Attempt.Missed, Attempt.Reply, Attempt.Answered,
         Attempt.Parsed, Climbed, Metered;
    LadderClimbed(a, next, n);
    LogTold(a, n, n - 1, EventsOf(o.changes, o.tier, a.input.complexity), Success(o));
    CallTold(a, n, n - 1);
  }

  class Executor {
    const writer: Apply.FileWriter
    const model: Model
    const nextTier: string -> Option<string>
    /** The model calls made so far. */
    var calls: seq<Rung>
    /** The metrics recorded so far. */
    var events: seq<Event>
    /** The batches handed to the writer so far. */
    ghost var applied: seq<seq<FileOp>>

    constructor (writer: Apply.FileWriter, model: Model, nextTier: string -> Option<string>)
      ensures this.writer == writer && this.model == model && this.nextTier == nextTier
      ensures calls == [] && events == [] && applied == []
    {
      this.writer, this.model, this.nextTier := writer, model, nextTier;
      calls, events, applied := [], [], [];
    }

    function AttemptAt(input: Input): Attempt
      reads this`calls
    {
      Attempt(model, |calls|, input, Ladder(input.tier, nextTier(input.tier)))
    }

    lemma AttemptFields(input: Input)
      ensures var a := AttemptAt(input);
              a.model == model && a.first == |calls| && a.input == input
              && a.rungs == Ladder(input.tier, nextTier(input.tier))
    {
    }

    method RecordChanges(tier: string, complexity: string, changes: seq<Change>)
      modifies this`events
      ensures events == old(events) + EventsOf(changes, tier, complexity)
    {
      assert changes[..0] == [];
      for i := 0 to |changes|
        invariant events == old(events) + EventsOf(changes[..i], tier, complexity)
      {
        var c := changes[i];
        assert changes[..i + 1][..i] == changes[..i];
        if c.skipped {
          events := events + [PhantomDelete(tier)];
          continue;
        }
        events := events + [FilesWritten(tier, complexity, c.operation)];
        events := events + [SpanFileWritten(c.path, c.operation, c.bytes)];
      }
      assert changes[..|changes|] == changes;
    }

    /** A look at the context, a call and a parse. */
    method TryRung(ghost a: Attempt, ghost k: nat, rung: Rung, input: Input) returns (turn: Turn)
      requires k < |a.rungs| && a.rungs[k] == rung && a.model == model && a.input == input && a.first + k == |calls|
      modifies this`calls, writer.disk`clock, writer.disk`faulted, writer.disk`last
      ensures turn.Stopped? ==> writer.disk.faulted && calls == old(calls)
      ensures turn.Stopped? <==> writer.disk.verdicts(old(writer.disk.clock), Apply.AskingContext).Fault?
      ensures writer.disk.clock == old(writer.disk.clock) + 1
      ensures !turn.Stopped? ==> calls == old(calls) + [rung]
      ensures turn.Unanswered? ==> !a.Answered(k)
      ensures turn.Unparsed? ==> a.Answered(k) && a.Parsed(k) == Failure(turn.error)
      ensures turn.Parsed? ==>
                a.Answered(k) && a.Reply(k) == Some(turn.content) && a.Parsed(k) == Success(turn.ops)
      ensures old(writer.disk.faulted) ==> writer.disk.faulted
    {
      a.Calls(k);
      hide *;
      var context := writer.disk.Ask(Apply.AskingContext);
      if context.Fault? {
        return Stopped;
      }
      var out := model(|calls|, rung, input);
      calls := calls + [rung];
      if out.None? {
        return Unanswered;
      }
      var ops := Parser.Parse(out.value);
      return match ops case Success(found) => Parsed(out.value, found) case Failure(e) => Unparsed(e);
    }

    /** The one batch that parsed goes to the writer. */
    method Finish(tier: string, complexity: string, attempts: nat, content: string, ops: seq<FileOp>)
      returns (r: Result<Outcome, RunError>, ghost reached: nat)
      requires WellFormed(writer.disk.tree) && IsDir(writer.disk.tree, writer.v.root)
      modifies this`events, this`applied, writer.disk
      ensures WellFormed(writer.disk.tree) && applied == old(applied) + [ops]
      ensures var plan := Plan(writer.v, old(writer.disk.tree), ops); r.Success? ==>
                && plan.Success? && PrefixFree(plan.value)
                && writer.disk.tree == Final(old(writer.disk.tree), plan.value)
                && r.value == Outcome(content, tier, attempts, Apply.ChangesOf(plan.value))
                && Done(writer.v, old(writer.disk.tree), ops, writer.disk.tree)
                && Apply.Reported(writer.v, old(writer.disk.tree), ops, r.value.changes)
                && events == old(events) + EventsOf(r.value.changes, tier, complexity)
      ensures r.Failure? ==>
                && r.error.attempts == attempts && r.error.tier == tier && r.error.cause.WriteFailed?
                && events == old(events) + [WriteFailure(r.error.cause.error.reason)]
                && Apply.LeftBehind(writer.v, old(writer.disk.tree), ops, reached, writer.disk.privileged,
                                    writer.disk.tree, writer.disk.leaked, writer.disk.touched)
                && (writer.disk.leaked != [] <==> writer.disk.last.MakingDir? && writer.disk.last.made > 0)
      ensures !writer.disk.faulted ==>
                var plan := Plan(writer.v, old(writer.disk.tree), ops);
                r.Success? <==> plan.Success? && PrefixFree(plan.value)
    {
      hide *;
      applied := applied + [ops];
      var batch;
      batch, reached := writer.Apply(ops);
      if batch.Failure? {
        events := events + [WriteFailure(batch.error.reason)];
        return Failure(RunError(attempts, tier, WriteFailed(batch.error))), reached;
      }
      RecordChanges(tier, complexity, batch.value);
      return Success(Outcome(content, tier, attempts, batch.value)), reached;
    }

    /** Run. `n` is the number of calls made.
        Success: the n-th reply was the first to parse, its batch is applied, and the metrics are the parse
        failures before it and then its changes.
        Failure: the tree is as before, but for what the one batch that was handed to the writer left behind, if
        one was, `reached` writes into it. */
    method Run(input: Input) returns (r: Result<Outcome, RunError>, ghost n: nat, ghost reached: nat)
      requires WellFormed(writer.disk.tree) && IsDir(writer.disk.tree, writer.v.root)
      modifies this`calls, this`events, this`applied, writer.disk
      ensures WellFormed(writer.disk.tree)
      ensures old(calls) <= calls && old(events) <= events && |calls| == |old(calls)| + n
      ensures Climbed(model, |old(calls)|, input, nextTier(input.tier), calls[|old(calls)|..])
      ensures Concluded(model, |old(calls)|, input, nextTier(input.tier), calls[|old(calls)|..], r)
      ensures Metered(model, |old(calls)|, input, calls[|old(calls)|..], events[|old(events)|..], r)
      ensures LookedEachTime(writer.disk.verdicts, old(writer.disk.clock), n)
      ensures r.Failure? && r.error.cause.Cancelled? ==>
                writer.disk.verdicts(old(writer.disk.clock) + n, Apply.AskingContext).Fault?
      ensures r.Success? ==>
                var ops := Parser.ParseText(r.value.content);
                && ops.Success?
                && Done(writer.v, old(writer.disk.tree), ops.value, writer.disk.tree)
                && Apply.Reported(writer.v, old(writer.disk.tree), ops.value, r.value.changes)
      ensures var a := old(AttemptAt(input));
              && n <= |a.rungs| <= 3 && calls == old(calls) + a.rungs[..n]
              && (forall k :: 0 <= k < n - 1 ==> a.Answered(k) && a.Parsed(k).Failure?)
      ensures var a := old(AttemptAt(input)); r.Success? ==>
                && n > 0 && a.Applies(n - 1, writer.v, old(writer.disk.tree))
                && var plan := Plan(writer.v, old(writer.disk.tree), a.Parsed(n - 1).value);
                && writer.disk.tree == Final(old(writer.disk.tree), plan.value)
                && r.value == Outcome(a.Reply(n - 1).value, a.rungs[n - 1].tier, n, Apply.ChangesOf(plan.value))
                && events == old(events) + a.ParseFailures(n - 1)
                             + EventsOf(r.value.changes, r.value.tier, input.complexity)
                && applied == old(applied) + [a.Parsed(n - 1).value]
      ensures var a := old(AttemptAt(input)); r.Failure? ==>
                && a.FailsWith(n, r.error)
                && events == old(events) + a.FailureEvents(n, r.error)
      ensures r.Failure? && !r.error.cause.WriteFailed? ==>
                && writer.disk.tree == old(writer.disk.tree) && writer.disk.seen == old(writer.disk.seen)
                && writer.disk.special == old(writer.disk.special) && applied == old(applied)
      ensures var a := old(AttemptAt(input)); r.Failure? && r.error.cause.WriteFailed? ==>
                && n > 0 && a.Accepts(n - 1)
                && applied == old(applied) + [a.Parsed(n - 1).value]
                && Apply.LeftBehind(writer.v, old(writer.disk.tree), a.Parsed(n - 1).value, reached,
                                    writer.disk.privileged, writer.disk.tree, writer.disk.leaked, writer.disk.touched)
                && (writer.disk.leaked != [] <==> writer.disk.last.MakingDir? && writer.disk.last.made > 0)
      ensures var a := old(AttemptAt(input)); !writer.disk.faulted ==>
                (r.Success? <==> exists k: nat :: a.Applies(k, writer.v, old(writer.disk.tree)))
    {
      hide *;
      ghost var a := AttemptAt(input);
      AttemptFields(input);
      var accepted;
      accepted, n := Generate(input);
      reached := 0;
      if accepted.Failure? {
        a.NoneApplies(writer.v, writer.disk.tree);
        FailureTold(a, nextTier(input.tier), n, accepted.error);
        return Failure(accepted.error), n, 0;
      }
      var (tier, content, ops, attempts) := accepted.value;
      a.AppliesIf(n - 1, writer.v, writer.disk.tree);
      r, reached := Finish(tier, input.complexity, attempts, content, ops);
      if r.Failure? {
        a.FailsByWrite(n, r.error);
        assert events == old(events) + a.FailureEvents(n, r.error);
        FailureTold(a, nextTier(input.tier), n, r.error);
        return;
      }
      SuccessTold(a, nextTier(input.tier), n, r.value);
      ghost var log := a.ParseFailures(n - 1) + EventsOf(r.value.changes, tier, input.complexity);
      assert events == old(events) + log;
    }

    /** The loop over the ladder, up to the first reply that parses: its tier, text and operations, and the number
        of calls. */
    method Generate(input: Input) returns (r: Result<(string, string, seq<FileOp>, nat), RunError>, ghost n: nat)
      modifies this`calls, this`events, writer.disk`clock, writer.disk`faulted, writer.disk`last
      ensures var a := old(AttemptAt(input));
              && n <= |a.rungs| <= 3 && calls == old(calls) + a.rungs[..n]
              && (forall k :: 0 <= k < n - 1 ==> a.Answered(k) && a.Parsed(k).Failure?)
      ensures LookedEachTime(writer.disk.verdicts, old(writer.disk.clock), n)
      ensures r.Failure? && r.error.cause.Cancelled? ==>
                writer.disk.verdicts(old(writer.disk.clock) + n, Apply.AskingContext).Fault?
      ensures var a := old(AttemptAt(input)); r.Success? ==>
                && n > 0 && a.Missed(n - 1) && a.Answered(n - 1)
                && a.Parsed(n - 1) == Success(r.value.2)
                && r.value.0 == a.rungs[n - 1].tier && a.Reply(n - 1) == Some(r.value.1) && r.value.3 == n
                && events == old(events) + a.ParseFailures(n - 1)
      ensures var a := old(AttemptAt(input)); r.Failure? ==>
                && a.FailsWith(n, r.error) && !r.error.cause.WriteFailed?
                && events == old(events) + a.FailureEvents(n, r.error)
                && (writer.disk.faulted || forall k: nat :: !a.Accepts(k))
    {
      hide *;
      ghost var a := AttemptAt(input);
      AttemptFields(input);
      var attempts := 0;
      var lastTier := input.tier;
      var lastParse := ParseError(NoOperations, 0);
      var rungs := MakeLadder(input.tier);
      a.MissedNone();
      LookedNotYet(writer.disk.verdicts, writer.disk.clock);
      for i := 0 to |rungs|
        invariant attempts == i && calls == old(calls) + rungs[..i]
        invariant writer.disk.clock == old(writer.disk.clock) + i
        invariant LookedEachTime(writer.disk.verdicts, old(writer.disk.clock), i)
        invariant lastTier == a.LastTier(i)
        invariant a.Missed(i)
        invariant i > 0 ==> a.Answered(i - 1) && a.Parsed(i - 1) == Failure(lastParse)
        invariant events == old(events) + a.ParseFailures(i)
      {
        var turn := TryRung(a, i, rungs[i], input);
        a.MissedEach(i);
        if turn.Stopped? {
          var e := RunError(attempts, lastTier, Cancelled);
          a.FailsByCancel(i, e);
          return Failure(e), i;
        }
        LookedOnceMore(writer.disk.verdicts, old(writer.disk.clock), i);
        attempts := attempts + 1;
        lastTier := rungs[i].tier;
        a.TierAfter(i);
        assert rungs[..i + 1] == rungs[..i] + [rungs[i]];
        if turn.Unanswered? {
          var e := RunError(attempts, lastTier, ModelFailed);
          a.FailsByModel(i + 1, e);
          return Failure(e), i + 1;
        }
        if turn.Unparsed? {
          events := events + [ParseFailure(turn.error.reason, lastTier)];
          a.MissedMore(i);
          lastParse := turn.error;
          continue;
        }
        return Success((lastTier, turn.content, turn.ops, attempts)), i + 1;
      }
      a.MissedEach(|rungs|);
      var e := RunError(attempts, lastTier, Exhausted(lastParse));
      a.FailsExhausted(e, lastParse);
      assert rungs[..|rungs|] == rungs;
      return Failure(e), |rungs|;
    }

    method MakeLadder(tier: string) returns (rungs: seq<Rung>)
      ensures rungs == Ladder(tier, nextTier(tier)) && 2 <= |rungs| <= 3
    {
      rungs := [Rung(tier, Standard), Rung(tier, Strict)];
      var next := nextTier(tier);
      if next.Some? {
        rungs := rungs + [Rung(next.value, Strict)];
      }
    }
  }

  // ----- what the metrics say -----

  datatype Metric = AFile | ASpan | APhantom | AFailure

  function MetricOf(e: Event): Metric {
    match e
    case FilesWritten(_, _, _) => AFile
    case SpanFileWritten(_, _, _) => ASpan
    case PhantomDelete(_) => APhantom
    case _ => AFailure
  }

  function Count(events: seq<Event>, which: Metric): nat {
    if events == [] then 0
    else Count(events[..|events| - 1], which) + if MetricOf(events[|events| - 1]) == which then 1 else 0
  }

  lemma CountSnoc(events: seq<Event>, last: Event, which: Metric)
    ensures Count(events + [last], which) == Count(events, which) + if MetricOf(last) == which then 1 else 0
  {
    assert (events + [last])[..|events|] == events;
  }

  lemma CountChange(events: seq<Event>, change: Change, tier: string, complexity: string, which: Metric)
    ensures Count(events + ChangeEvents(change, tier, complexity), which) ==
            Count(events, which) +
            if which == APhantom then (if change.skipped then 1 else 0)
            else if which == AFailure || change.skipped then 0
            else 1
  {
    if change.skipped {
      CountSnoc(events, PhantomDelete(tier), which);
    } else {
      var first := FilesWritten(tier, complexity, change.operation);
      var second := SpanFileWritten(change.path, change.operation, change.bytes);
      CountSnoc(events, first, which);
      CountSnoc(events + [first], second, which);
      assert events + [first] + [second] == events + ChangeEvents(change, tier, complexity);
    }
  }

  /** Every change is counted once: as a phantom delete, or as a file written with its span. */
  lemma {:induction false} MetricsAddUp(changes: seq<Change>, tier: string, complexity: string)
    ensures var events := EventsOf(changes, tier, complexity);
            && Count(events, APhantom) + Count(events, AFile) == |changes|
            && Count(events, ASpan) == Count(events, AFile)
            && Count(events, AFailure) == 0
  {
    hide Count, ChangeEvents;
    if changes != [] {
      var n := |changes| - 1;
      MetricsAddUp(changes[..n], tier, complexity);
      var before := EventsOf(changes[..n], tier, complexity);
      CountChange(before, changes[n], tier, complexity, APhantom);
      CountChange(before, changes[n], tier, complexity, AFile);
      CountChange(before, changes[n], tier, complexity, ASpan);
      CountChange(before, changes[n], tier, complexity, AFailure);
    } else {
      CountNothing();
    }
  }

  /** A batch that is applied is counted operation by operation. */
  lemma EveryOpIsCounted(v: PathSafe.Validator, t: Tree, ops: seq<FileOp>, tier: string, complexity: string)
    requires WellFormed(t) && IsDir(t, v.root) && Plan(v, t, ops).Success?
    ensures var events := EventsOf(Apply.ChangesOf(Plan(v, t, ops).value), tier, complexity);
            && Count(events, APhantom) + Count(events, AFile) == |ops|
            && Count(events, ASpan) == Count(events, AFile)
  {
    hide *;
    PlanExact(v, t, ops);
    PlanLength(v, t, ops);
    MetricsAddUp(Apply.ChangesOf(Plan(v, t, ops).value), tier, complexity);
  }

  lemma PlanLength(v: PathSafe.Validator, t: Tree, ops: seq<FileOp>)
    requires Plan(v, t, ops).Success? && Classified(v, t, ops, Plan(v, t, ops).value)
    ensures |Apply.ChangesOf(Plan(v, t, ops).value)| == |ops|
  {
    hide Plan, Classify;
  }

  lemma CountNothing()
    ensures forall which :: Count([], which) == 0
  {
  }
}
