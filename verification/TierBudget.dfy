/** The daily budget of a remote tier: an atomic counter and a log behind a lock that nobody waits for.
    Deduct and Prune are interleaved step by step. */
module TierBudget {
  import opened Bucket
  import opened Windows
  import opened Runs

  const DAY: int := 24 * HOUR

  /** How far a Deduct call has come. */
  datatype Stage = Added | Holding | Skipped | Logged

  /** A Deduct call: `at` is when it subtracted, and once it is logged, the time in the log. */
  datatype Call = Call(tokens: int, at: int, stage: Stage)

  datatype Lock = Free | ByDeduct(id: nat) | Taken(now: int) | Summed(now: int, spent: int) | Stored(now: int)

  /** `horizon` is the cutoff of the last prune to get the lock. */
  datatype Tier = Tier(limit: int, remaining: int, log: seq<Spend>, lock: Lock, calls: seq<Call>, horizon: int)

  datatype Action =
    | Add(tokens: int, at: int)
    | TryLock(id: nat)
    | Append(id: nat, at: int)
    | Unlock(id: nat)
    | PruneLock(now: int)
    | Sum
    | Store
    | PruneUnlock
    | Mark

  /** One step. An action whose turn it is not changes nothing. */
  function Step(s: Tier, a: Action): Tier {
    match a
    case Add(tokens, at) =>
      s.(remaining := s.remaining - tokens, calls := s.calls + [Call(tokens, at, Added)])
    case TryLock(id) =>
      if id < |s.calls| && s.calls[id].stage == Added then
        if s.lock.Free?
        then s.(lock := ByDeduct(id), calls := s.calls[id := s.calls[id].(stage := Holding)])
        else s.(calls := s.calls[id := s.calls[id].(stage := Skipped)])
      else s
    case Append(id, at) =>
      if s.lock == ByDeduct(id) && id < |s.calls| && s.calls[id].stage == Holding then
        s.(log := s.log + [Spend(at, s.calls[id].tokens)],
           calls := s.calls[id := s.calls[id].(at := at, stage := Logged)])
      else s
    case Unlock(id) =>
      if s.lock == ByDeduct(id) && id < |s.calls| && s.calls[id].stage == Logged then s.(lock := Free) else s
    case PruneLock(now) =>
      if s.lock.Free? then s.(lock := Taken(now), horizon := now - DAY) else s
    case Sum =>
      if s.lock.Taken? then
        var cutoff := s.lock.now - DAY;
        s.(log := RecentSpends(s.log, cutoff), lock := Summed(s.lock.now, Charge(s.log, cutoff)))
      else s
    case Store =>
      if s.lock.Summed? then s.(remaining := s.limit - s.lock.spent, lock := Stored(s.lock.now)) else s
    case PruneUnlock =>
      if s.lock.Stored? then s.(lock := Free) else s
    case Mark =>
      s.(remaining := 0)
  }

  function Start(limit: int, horizon: int): Tier {
    Tier(limit, limit, [], Free, [], horizon)
  }

  function Run(limit: int, horizon: int, trace: seq<Action>): Tier {
    if trace == [] then Start(limit, horizon)
    else Step(Run(limit, horizon, trace[..|trace| - 1]), trace[|trace| - 1])
  }

  lemma RunSnoc(limit: int, horizon: int, trace: seq<Action>, a: Action)
    ensures Run(limit, horizon, trace + [a]) == Step(Run(limit, horizon, trace), a)
  {
    assert (trace + [a])[..|trace|] == trace;
  }

  /** Tokens are not negative, and prunes get the lock in the order of their times. */
  predicate Fair(s: Tier, a: Action) {
    && (a.Add? ==> a.tokens >= 0)
    && (a.PruneLock? && s.lock.Free? ==> s.horizon <= a.now - DAY)
  }

  predicate AllFair(limit: int, horizon: int, trace: seq<Action>) {
    trace == [] ||
    var n := |trace| - 1;
    AllFair(limit, horizon, trace[..n]) && Fair(Run(limit, horizon, trace[..n]), trace[n])
  }

  // ----- what has been charged -----

  function Total(calls: seq<Call>): int {
    if calls == [] then 0 else Total(calls[..|calls| - 1]) + calls[|calls| - 1].tokens
  }

  function Cost(c: Call, cutoff: int): int {
    if c.at > cutoff then c.tokens else 0
  }

  /** Every token deducted after the cutoff, logged or not. */
  function TrueCharge(calls: seq<Call>, cutoff: int): int {
    if calls == [] then 0 else TrueCharge(calls[..|calls| - 1], cutoff) + Cost(calls[|calls| - 1], cutoff)
  }

  function LoggedCharge(calls: seq<Call>, cutoff: int): int {
    if calls == [] then 0
    else
      var c := calls[|calls| - 1];
      LoggedCharge(calls[..|calls| - 1], cutoff) + if c.stage == Logged then Cost(c, cutoff) else 0
  }

  /** The deductions whose append was skipped or is still to come. */
  function UnloggedCharge(calls: seq<Call>, cutoff: int): int {
    if calls == [] then 0
    else
      var c := calls[|calls| - 1];
      UnloggedCharge(calls[..|calls| - 1], cutoff) + if c.stage == Logged then 0 else Cost(c, cutoff)
  }

  lemma {:induction false} LoggedOrNot(calls: seq<Call>, cutoff: int)
    ensures TrueCharge(calls, cutoff) == LoggedCharge(calls, cutoff) + UnloggedCharge(calls, cutoff)
  {
    if calls != [] {
      LoggedOrNot(calls[..|calls| - 1], cutoff);
    }
  }

  predicate NoneNegative(calls: seq<Call>) {
    forall i :: 0 <= i < |calls| ==> calls[i].tokens >= 0
  }

  lemma {:induction false} LoggedWithinTotal(calls: seq<Call>, cutoff: int)
    requires NoneNegative(calls)
    ensures 0 <= LoggedCharge(calls, cutoff) <= Total(calls)
  {
    if calls != [] {
      LoggedWithinTotal(calls[..|calls| - 1], cutoff);
    }
  }

  lemma {:induction false} CallUpdated(calls: seq<Call>, id: nat, c: Call, cutoff: int)
    requires id < |calls| && c.tokens == calls[id].tokens
    ensures Total(calls[id := c]) == Total(calls)
    ensures LoggedCharge(calls[id := c], cutoff) ==
            LoggedCharge(calls, cutoff)
            - (if calls[id].stage == Logged then Cost(calls[id], cutoff) else 0)
            + (if c.stage == Logged then Cost(c, cutoff) else 0)
  {
    var n := |calls| - 1;
    if id < n {
      assert calls[id := c][..n] == calls[..n][id := c];
      CallUpdated(calls[..n], id, c, cutoff);
    } else {
      assert calls[id := c][..n] == calls[..n];
    }
  }

  lemma CallAdded(calls: seq<Call>, c: Call, cutoff: int)
    requires c.stage == Added
    ensures Total(calls + [c]) == Total(calls) + c.tokens
    ensures LoggedCharge(calls + [c], cutoff) == LoggedCharge(calls, cutoff)
  {
    assert (calls + [c])[..|calls|] == calls;
  }

  // ----- what every interleaving keeps -----

  /** The log charges like the logged calls, at every cutoff still to come. */
  ghost predicate Faithful(log: seq<Spend>, calls: seq<Call>, horizon: int) {
    forall c :: c >= horizon ==> Charge(log, c) == LoggedCharge(calls, c)
  }

  ghost predicate Ledger(s: Tier) {
    && NoneNegative(s.calls)
    && Faithful(s.log, s.calls, s.horizon)
    && (s.lock.ByDeduct? ==> s.lock.id < |s.calls| && s.calls[s.lock.id].stage in {Holding, Logged})
    && (s.lock.Taken? ==> s.horizon == s.lock.now - DAY)
    && (s.lock.Summed? ==>
          s.horizon == s.lock.now - DAY && s.lock.spent == LoggedCharge(s.calls, s.lock.now - DAY))
  }

  lemma CallsFaithful(s: Tier, a: Action)
    requires Faithful(s.log, s.calls, s.horizon) && (a.Add? || a.TryLock? || a.Append?)
    ensures Faithful(Step(s, a).log, Step(s, a).calls, s.horizon)
  {
    hide Charge, LoggedCharge;
    var t := Step(s, a);
    forall c | c >= s.horizon
      ensures Charge(t.log, c) == LoggedCharge(t.calls, c)
    {
      match a
      case Add(tokens, at) =>
        CallAdded(s.calls, Call(tokens, at, Added), c);
      case TryLock(id) =>
        if id < |s.calls| && s.calls[id].stage == Added {
          CallUpdated(s.calls, id, t.calls[id], c);
        }
      case Append(id, at) =>
        if s.lock == ByDeduct(id) && id < |s.calls| && s.calls[id].stage == Holding {
          CallUpdated(s.calls, id, t.calls[id], c);
          ChargeSnoc(s.log, Spend(at, s.calls[id].tokens), c);
        }
    }
  }

  lemma SumFaithful(s: Tier)
    requires Ledger(s) && s.lock.Taken?
    ensures Faithful(Step(s, Sum).log, s.calls, s.horizon)
    ensures Step(s, Sum).lock.spent == LoggedCharge(s.calls, s.lock.now - DAY)
  {
    hide Charge, LoggedCharge;
    forall c | c >= s.horizon
      ensures Charge(Step(s, Sum).log, c) == LoggedCharge(s.calls, c)
    {
      ChargePruned(s.log, s.horizon, c);
    }
  }

  lemma SummedKept(s: Tier, a: Action)
    requires Ledger(s) && s.lock.Summed? && (a.Add? || a.TryLock?)
    ensures LoggedCharge(Step(s, a).calls, s.horizon) == LoggedCharge(s.calls, s.horizon)
  {
    hide LoggedCharge, Faithful;
    match a
    case Add(tokens, at) =>
      CallAdded(s.calls, Call(tokens, at, Added), s.horizon);
    case TryLock(id) =>
      if id < |s.calls| && s.calls[id].stage == Added {
        CallUpdated(s.calls, id, Step(s, a).calls[id], s.horizon);
      }
  }

  lemma StepLedger(s: Tier, a: Action)
    requires Ledger(s) && Fair(s, a)
    ensures Ledger(Step(s, a))
  {
    if a.Add? || a.TryLock? || a.Append? {
      CallsFaithful(s, a);
      if s.lock.Summed? && !a.Append? {
        SummedKept(s, a);
      }
    } else if a.Sum? && s.lock.Taken? {
      SumFaithful(s);
    }
    hide LoggedCharge, Charge;
  }

  lemma {:induction false} RunLedger(limit: int, horizon: int, trace: seq<Action>)
    requires AllFair(limit, horizon, trace)
    ensures Ledger(Run(limit, horizon, trace))
  {
    hide Step, Fair, Ledger;
    if trace == [] {
      StartLedger(limit, horizon);
    } else {
      RunLedger(limit, horizon, trace[..|trace| - 1]);
      StepLedger(Run(limit, horizon, trace[..|trace| - 1]), trace[|trace| - 1]);
    }
  }

  lemma StartLedger(limit: int, horizon: int)
    ensures Ledger(Start(limit, horizon))
  {
  }

  /** What a prune stores misses the true charge of the last day by exactly the deductions that are not in
      the log: those that found the lock taken and those still on their way to it. Marks change nothing. */
  lemma StoreMissesUnlogged(limit: int, horizon: int, trace: seq<Action>)
    requires AllFair(limit, horizon, trace) && Run(limit, horizon, trace).lock.Summed?
    ensures var cutoff := Run(limit, horizon, trace).lock.now - 86_400_000_000_000;
            var after := Run(limit, horizon, trace + [Store]);
            TrueCharge(after.calls, cutoff) - (limit - after.remaining) == UnloggedCharge(after.calls, cutoff)
  {
    hide *;
    RunLedger(limit, horizon, trace);
    LimitKept(limit, horizon, trace);
    RunSnoc(limit, horizon, trace, Store);
    StoreMisses(Run(limit, horizon, trace));
  }

  lemma StoreMisses(s: Tier)
    requires Ledger(s) && s.lock.Summed?
    ensures var after, cutoff := Step(s, Store), s.lock.now - 86_400_000_000_000;
            TrueCharge(after.calls, cutoff) - (s.limit - after.remaining) == UnloggedCharge(after.calls, cutoff)
  {
    LoggedOrNot(s.calls, s.lock.now - DAY);
    hide Faithful, LoggedCharge, UnloggedCharge, TrueCharge;
  }

  lemma {:induction false} LimitKept(limit: int, horizon: int, trace: seq<Action>)
    ensures Run(limit, horizon, trace).limit == limit
  {
    if trace != [] {
      LimitKept(limit, horizon, trace[..|trace| - 1]);
    }
  }

  // ----- bounds -----

  predicate NoMarks(trace: seq<Action>) {
    forall i :: 0 <= i < |trace| ==> !trace[i].Mark?
  }

  predicate InBounds(s: Tier) {
    s.limit - Total(s.calls) <= s.remaining <= s.limit
  }

  lemma StepTotal(s: Tier, a: Action)
    ensures Total(Step(s, a).calls) == Total(s.calls) + if a.Add? then a.tokens else 0
  {
    match a
    case Add(tokens, at) =>
      CallAdded(s.calls, Call(tokens, at, Added), 0);
    case TryLock(id) =>
      if id < |s.calls| && s.calls[id].stage == Added {
        CallUpdated(s.calls, id, Step(s, a).calls[id], 0);
      }
    case Append(id, at) =>
      if s.lock == ByDeduct(id) && id < |s.calls| && s.calls[id].stage == Holding {
        CallUpdated(s.calls, id, Step(s, a).calls[id], 0);
      }
    case _ =>
  }

  /** Without marks the counter never exceeds the limit, nor falls below it by more than was ever deducted. */
  lemma {:induction false} RemainingBounded(limit: int, horizon: int, trace: seq<Action>)
    requires AllFair(limit, horizon, trace) && NoMarks(trace)
    ensures InBounds(Run(limit, horizon, trace))
  {
    hide Step, InBounds, Ledger, Fair;
    if trace == [] {
      StartInBounds(limit, horizon);
    } else {
      var s, a := Run(limit, horizon, trace[..|trace| - 1]), trace[|trace| - 1];
      RemainingBounded(limit, horizon, trace[..|trace| - 1]);
      RunLedger(limit, horizon, trace[..|trace| - 1]);
      StepInBounds(s, a);
    }
  }

  lemma StartInBounds(limit: int, horizon: int)
    ensures InBounds(Start(limit, horizon))
  {
  }

  lemma StepInBounds(s: Tier, a: Action)
    requires Ledger(s) && Fair(s, a) && InBounds(s) && !a.Mark?
    ensures InBounds(Step(s, a))
  {
    hide Total, Faithful, LoggedCharge;
    StepTotal(s, a);
    if a.Store? && s.lock.Summed? {
      LoggedWithinTotal(s.calls, s.lock.now - DAY);
    }
  }

  // ----- marks -----

  function Erase(trace: seq<Action>): seq<Action> {
    if trace == [] then []
    else Erase(trace[..|trace| - 1]) + if trace[|trace| - 1].Mark? then [] else [trace[|trace| - 1]]
  }

  /** There is a mark that no prune has stored over. */
  predicate Marked(limit: int, horizon: int, trace: seq<Action>) {
    trace != [] &&
    var s, a := Run(limit, horizon, trace[..|trace| - 1]), trace[|trace| - 1];
    a.Mark? || (Marked(limit, horizon, trace[..|trace| - 1]) && !(a.Store? && s.lock.Summed?))
  }

  lemma SameButRemaining(s: Tier, t: Tier, a: Action)
    requires s == t.(remaining := s.remaining) && !a.Mark?
    ensures Step(s, a) == Step(t, a).(remaining := Step(s, a).remaining)
    ensures s.remaining == t.remaining || (a.Store? && s.lock.Summed?) ==> Step(s, a).remaining == Step(t, a).remaining
  {
    hide RecentSpends, Charge;
  }

  /** Marks never touch the ledger: erasing them changes nothing but the counter, and not even that from
      the next store of a prune on. */
  lemma {:induction false} MarksErased(limit: int, horizon: int, trace: seq<Action>)
    ensures var s, t := Run(limit, horizon, trace), Run(limit, horizon, Erase(trace));
            s == t.(remaining := s.remaining) && (!Marked(limit, horizon, trace) ==> s == t)
  {
    hide Step;
    if trace != [] {
      var n, a := |trace| - 1, trace[|trace| - 1];
      MarksErased(limit, horizon, trace[..n]);
      var s, t := Run(limit, horizon, trace[..n]), Run(limit, horizon, Erase(trace[..n]));
      if a.Mark? {
        assert Erase(trace) == Erase(trace[..n]);
        MarkZeroes(s);
      } else {
        SameButRemaining(s, t, a);
        RunSnoc(limit, horizon, Erase(trace[..n]), a);
      }
    }
  }

  lemma MarkZeroes(s: Tier)
    ensures Step(s, Mark) == s.(remaining := 0)
  {
  }

  /** The budget check. */
  predicate Passes(s: Tier) {
    s.remaining > 0
  }

  /** From a mark until the next store of a prune every check fails. */
  lemma {:induction false} MarkedFails(limit: int, horizon: int, trace: seq<Action>)
    requires AllFair(limit, horizon, trace) && Marked(limit, horizon, trace)
    ensures !Passes(Run(limit, horizon, trace))
  {
    var n, a := |trace| - 1, trace[|trace| - 1];
    if !a.Mark? {
      MarkedFails(limit, horizon, trace[..n]);
    }
    hide RecentSpends, Charge;
  }

  /** The balance, told by the calls: each deduction lowers it, a prune that stores sets it to the limit less what the
      calls logged in the 24 hours before that prune cost, and a mark sets it to nothing. */
  function Balance(limit: int, horizon: int, trace: seq<Action>): int {
    if trace == [] then limit
    else
      var n := |trace| - 1;
      var s, before := Run(limit, horizon, trace[..n]), Balance(limit, horizon, trace[..n]);
      match trace[n]
      case Add(tokens, _) => before - tokens
      case Mark => 0
      case Store =>
        if s.lock.Summed? then limit - LoggedCharge(s.calls, s.lock.now - 86_400_000_000_000) else before
      case _ => before
  }

  lemma BalanceSnoc(limit: int, horizon: int, trace: seq<Action>, a: Action)
    ensures var s, before := Run(limit, horizon, trace), Balance(limit, horizon, trace);
            Balance(limit, horizon, trace + [a]) ==
            if a.Add? then before - a.tokens
            else if a.Mark? then 0
            else if a.Store? && s.lock.Summed? then limit - LoggedCharge(s.calls, s.lock.now - DAY)
            else before
  {
    hide Run, LoggedCharge;
    assert (trace + [a])[..|trace|] == trace;
  }

  lemma StepRemaining(s: Tier, a: Action)
    requires Ledger(s)
    ensures Step(s, a).remaining ==
            if a.Add? then s.remaining - a.tokens
            else if a.Mark? then 0
            else if a.Store? && s.lock.Summed? then s.limit - LoggedCharge(s.calls, s.lock.now - DAY)
            else s.remaining
  {
    hide LoggedCharge, RecentSpends, Charge, Faithful, NoneNegative;
  }

  lemma {:induction false} RemainingIsBalance(limit: int, horizon: int, trace: seq<Action>)
    requires AllFair(limit, horizon, trace)
    ensures Run(limit, horizon, trace).remaining == Balance(limit, horizon, trace)
  {
    hide Step, Ledger, Fair, LoggedCharge;
    if trace != [] {
      var n := |trace| - 1;
      RemainingIsBalance(limit, horizon, trace[..n]);
      RunLedger(limit, horizon, trace[..n]);
      LimitKept(limit, horizon, trace[..n]);
      StepRemaining(Run(limit, horizon, trace[..n]), trace[n]);
      BalanceSnoc(limit, horizon, trace[..n], trace[n]);
      assert trace[..n] + [trace[n]] == trace;
    }
    hide Balance;
  }

  /** In every interleaving a check passes exactly if that balance is positive. */
  lemma PassesExactly(limit: int, horizon: int, trace: seq<Action>)
    requires AllFair(limit, horizon, trace)
    ensures Passes(Run(limit, horizon, trace)) <==> Balance(limit, horizon, trace) > 0
  {
    RemainingIsBalance(limit, horizon, trace);
    hide Run, Balance;
  }

  /** The tokens that a run deducts, whether or not they get into the log. */
  function Deducted(trace: seq<Action>): int {
    if trace == [] then 0
    else Deducted(trace[..|trace| - 1]) + if trace[|trace| - 1].Add? then trace[|trace| - 1].tokens else 0
  }

  /** Until a prune stores or a mark comes, a check passes exactly if what came before is not used up. */
  lemma {:induction false} PassesUntilSettled(limit: int, horizon: int, trace: seq<Action>, more: seq<Action>)
    requires forall i :: 0 <= i < |more| ==> !more[i].Store? && !more[i].Mark?
    ensures Run(limit, horizon, trace + more).remaining == Run(limit, horizon, trace).remaining - Deducted(more)
    ensures trace == [] ==> (Passes(Run(limit, horizon, trace + more)) <==> Deducted(more) < limit)
    decreases |more|
  {
    if more == [] {
      assert trace + more == trace;
    } else {
      var n := |more| - 1;
      PassesUntilSettled(limit, horizon, trace, more[..n]);
      assert trace + more == (trace + more[..n]) + [more[n]];
      RunSnoc(limit, horizon, trace + more[..n], more[n]);
    }
    hide RecentSpends, Charge;
  }

  /** A deduction that comes while a prune holds the lock. */
  function SkipTrace(tokens: nat): seq<Action> {
    [PruneLock(DAY), Add(tokens, 0), TryLock(0), Sum, Store, PruneUnlock]
  }

  /** The budget after the first `i` of those steps, from a limit that the deduction uses up. */
  function SkipScene(tokens: nat, i: nat): Tier
    requires i <= 6
  {
    var locks := [Free, Taken(DAY), Taken(DAY), Taken(DAY), Summed(DAY, 0), Stored(DAY), Free];
    Tier(tokens, if 2 <= i <= 4 then 0 else tokens, [], locks[i],
         if i < 2 then [] else [Call(tokens, 0, if i == 2 then Added else Skipped)], 0)
  }

  lemma SkipSceneStep(tokens: nat, i: nat)
    requires i < 6
    ensures Step(SkipScene(tokens, i), SkipTrace(tokens)[i]) == SkipScene(tokens, i + 1)
  {
    assert i == 0 || i == 1 || i == 2 || i == 3 || i == 4 || i == 5;
  }

  lemma {:induction false} RunSkipScene(tokens: nat, i: nat)
    requires i <= 6
    ensures Run(tokens, 0, SkipTrace(tokens)[..i]) == SkipScene(tokens, i)
  {
    hide Step;
    if i > 0 {
      var t := SkipTrace(tokens);
      RunSkipScene(tokens, i - 1);
      SkipSceneStep(tokens, i - 1);
      assert t[..i][..i - 1] == t[..i - 1];
    }
  }

  /** A deduction that finds the lock taken by a prune is spent and then forgotten: the budget it had used up is
      whole again. */
  lemma SkippedIsForgotten(tokens: nat)
    ensures Run(tokens, 0, SkipTrace(tokens)) == Tier(tokens, tokens, [], Free, [Call(tokens, 0, Skipped)], 0)
  {
    hide Run, Step;
    RunSkipScene(tokens, 6);
    assert SkipTrace(tokens)[..6] == SkipTrace(tokens);
  }

  // ----- the object and its steps -----

  /** A tier's budget. `free` is the token in the lock's channel; who took it, and how far every call has
      come, is known to the goroutines alone. */
  class Budget {
    const dailyLimit: int
    var remaining: int
    var deductions: seq<Spend>
    var free: bool
    ghost var lock: Lock
    ghost var calls: seq<Call>
    ghost var horizon: int

    ghost predicate Valid()
      reads this
    {
      free <==> lock.Free?
    }

    ghost function View(): Tier
      reads this
    {
      Tier(dailyLimit, remaining, deductions, lock, calls, horizon)
    }

    constructor (dailyLimit: int, ghost horizon: int)
      ensures Valid() && View() == Start(dailyLimit, horizon)
    {
      this.dailyLimit, remaining, deductions, free := dailyLimit, dailyLimit, [], true;
      lock, calls, this.horizon := Free, [], horizon;
    }

    method Check() returns (ok: bool)
      ensures ok == Passes(View())
    {
      return remaining > 0;
    }

    method Subtract(tokens: int, ghost at: int) returns (ghost id: nat)
      requires Valid()
      modifies this
      ensures Valid() && View() == Step(old(View()), Add(tokens, at)) && id == |old(calls)|
    {
      remaining := remaining - tokens;
      id, calls := |calls|, calls + [Call(tokens, at, Added)];
    }

    /** The lock, if it can be had without waiting. */
    method TryDeductLock(ghost id: nat) returns (got: bool)
      requires Valid() && id < |calls| && calls[id].stage == Added
      modifies this
      ensures Valid() && View() == Step(old(View()), TryLock(id))
      ensures got == (lock == ByDeduct(id) && calls[id].stage == Holding) == old(free)
    {
      got := free;
      if free {
        free := false;
        lock, calls := ByDeduct(id), calls[id := calls[id].(stage := Holding)];
      } else {
        calls := calls[id := calls[id].(stage := Skipped)];
      }
    }

    method Record(ghost id: nat, tokens: int, at: int)
      requires Valid() && id < |calls| && lock == ByDeduct(id)
      requires calls[id].stage == Holding && calls[id].tokens == tokens
      modifies this
      ensures Valid() && View() == Step(old(View()), Append(id, at))
    {
      deductions := deductions + [Spend(at, tokens)];
      calls := calls[id := calls[id].(at := at, stage := Logged)];
    }

    method ReleaseDeduct(ghost id: nat)
      requires Valid() && id < |calls| && lock == ByDeduct(id) && calls[id].stage == Logged
      modifies this
      ensures Valid() && View() == Step(old(View()), Unlock(id))
    {
      free, lock := true, Free;
    }

    method TryPruneLock(now: int) returns (got: bool)
      requires Valid()
      modifies this
      ensures Valid() && View() == Step(old(View()), PruneLock(now))
      ensures got == old(free) && (got ==> lock == Taken(now))
    {
      got := free;
      if free {
        free := false;
        lock, horizon := Taken(now), now - DAY;
      }
    }

    method SumLog(now: int) returns (spent: int)
      requires Valid() && lock == Taken(now)
      modifies this
      ensures Valid() && View() == Step(old(View()), Sum) && lock == Summed(now, spent)
    {
      var cutoff := now - DAY;
      var log := deductions;
      var kept := [];
      spent := 0;
      for i := 0 to |log|
        invariant kept == RecentSpends(log[..i], cutoff) && spent == Charge(log[..i], cutoff)
        invariant View() == old(View()) && Valid()
      {
        var d := log[i];
        assert log[..i + 1][..i] == log[..i];
        if d.at > cutoff {
          kept := kept + [d];
          spent := spent + d.tokens;
        }
      }
      assert log[..|log|] == log;
      deductions := kept;
      lock := Summed(now, spent);
    }

    method StoreRemaining(now: int, spent: int)
      requires Valid() && lock == Summed(now, spent)
      modifies this
      ensures Valid() && View() == Step(old(View()), Store) && lock == Stored(now)
    {
      remaining := dailyLimit - spent;
      lock := Stored(now);
    }

    method ReleasePrune(now: int)
      requires Valid() && lock == Stored(now)
      modifies this
      ensures Valid() && View() == Step(old(View()), PruneUnlock)
    {
      free, lock := true, Free;
    }

    method MarkUpstreamRateLimit()
      requires Valid()
      modifies this
      ensures Valid() && View() == Step(old(View()), Mark)
    {
      remaining := 0;
    }

    /** Deduct with nothing in between its steps. */
    method Deduct(tokens: int, at: int)
      requires Valid()
      modifies this
      ensures Valid()
      ensures var id := |old(calls)|;
              View() == Steps(Step, old(View()), [Add(tokens, at), TryLock(id), Append(id, at), Unlock(id)])
      ensures remaining == old(remaining) - tokens && free == old(free)
      ensures deductions == if old(free) then old(deductions) + [Spend(at, tokens)] else old(deductions)
    {
      ghost var s := View();
      var id := Subtract(tokens, at);
      var got := TryDeductLock(id);
      if got {
        Record(id, tokens, at);
        ReleaseDeduct(id);
      }
      FourSteps(Step, s, Add(tokens, at), TryLock(id), Append(id, at), Unlock(id));
    }

    /** Prune with nothing in between its steps. */
    method Prune(now: int)
      requires Valid()
      modifies this
      ensures Valid()
      ensures old(free) ==> View() == Steps(Step, old(View()), [PruneLock(now), Sum, Store, PruneUnlock])
      ensures !old(free) ==> View() == old(View())
      ensures free == old(free)
      ensures var cutoff := now - 86_400_000_000_000; old(free) ==>
                && deductions == RecentSpends(old(deductions), cutoff)
                && remaining == dailyLimit - Charge(old(deductions), cutoff)
    {
      ghost var s := View();
      var got := TryPruneLock(now);
      if got {
        var spent := SumLog(now);
        StoreRemaining(now, spent);
        ReleasePrune(now);
      }
      FourSteps(Step, s, PruneLock(now), Sum, Store, PruneUnlock);
    }
  }
}
