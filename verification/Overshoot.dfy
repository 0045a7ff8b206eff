/** The hourly token budget of one session while requests are in flight: each is admitted against what has
    been deducted, and deducts only when it completes. */
module Overshoot {
  import opened Bucket
  import opened Registry
  import opened Windows

  datatype Move =
    | Ask(now: int, wall: int)
    | Complete(now: int, tokens: int)
    | Abandon(now: int)

  /** A session: its bucket, everything it ever spent, and how many admitted requests are not yet settled. */
  datatype Session = Session(s: State, spent: seq<Spend>, open: int, last: int)

  function Step(limits: Limits, x: Session, m: Move): Session {
    match m
    case Ask(now, wall) =>
      var (s, r) := SessionStep(limits, x.s, now, wall);
      Session(s, x.spent, if r.Admitted? then x.open + 1 else x.open, now)
    case Complete(now, tokens) =>
      Session(DeductStep(x.s, now, tokens), x.spent + [Spend(now, tokens)], x.open - 1, now)
    case Abandon(now) =>
      Session(x.s, x.spent, x.open - 1, now)
  }

  function Run(limits: Limits, start: int, moves: seq<Move>): Session {
    if moves == [] then Session(Fresh(start), [], 0, start)
    else Step(limits, Run(limits, start, moves[..|moves| - 1]), moves[|moves| - 1])
  }

  /** Time does not run backwards, only an admitted request ends, none deducts more than `most`, and no more
      than `width` are in flight. */
  predicate Fair(limits: Limits, x: Session, m: Move, most: nat, width: nat) {
    && x.last <= m.now
    && (!m.Ask? ==> x.open > 0)
    && (m.Complete? ==> 0 <= m.tokens <= most)
    && Step(limits, x, m).open <= width
  }

  predicate AllFair(limits: Limits, start: int, moves: seq<Move>, most: nat, width: nat) {
    if moves == [] then true
    else
      var n := |moves| - 1;
      && AllFair(limits, start, moves[..n], most, width)
      && Fair(limits, Run(limits, start, moves[..n]), moves[n], most, width)
  }

  /** The tokens spent from `lo` to `hi`, both included. */
  function SpentBetween(spends: seq<Spend>, lo: int, hi: int): int {
    if spends == [] then 0
    else
      var n := |spends| - 1;
      SpentBetween(spends[..n], lo, hi) + if lo <= spends[n].at <= hi then spends[n].tokens else 0
  }

  // ----- the pruned log charges like the whole one -----

  lemma SpentSnoc(spends: seq<Spend>, s: Spend, lo: int, hi: int)
    ensures SpentBetween(spends + [s], lo, hi) ==
            SpentBetween(spends, lo, hi) + if lo <= s.at <= hi then s.tokens else 0
  {
    assert (spends + [s])[..|spends|] == spends;
  }

  ghost predicate SameCharge(a: seq<Spend>, b: seq<Spend>, now: int) {
    forall c :: c >= now - HOUR ==> Charge(a, c) == Charge(b, c)
  }

  lemma RateKeepsSpends(limits: Limits, s: State, now: int, wall: int)
    ensures RateStep(limits, s, now, wall).0.spends == s.spends
    ensures !RateStep(limits, s, now, wall).1.BudgetExhausted?
  {
  }

  lemma AskCharges(limits: Limits, s: State, spent: seq<Spend>, before: int, now: int, wall: int)
    requires before <= now && SameCharge(s.spends, spent, before)
    ensures var (next, r) := SessionStep(limits, s, now, wall);
            && SameCharge(next.spends, spent, now)
            && (r.Admitted? ==> Charge(spent, now - HOUR) < limits.perHour)
            && (r.BudgetExhausted? ==> Charge(spent, now - HOUR) >= limits.perHour)
  {
    RateKeepsSpends(limits, s, now, wall);
    var next := SessionStep(limits, s, now, wall).0;
    hide RateStep, Charge, RecentSpends;
    forall c | c >= now - HOUR
      ensures Charge(next.spends, c) == Charge(spent, c)
    {
      ChargePruned(s.spends, now - HOUR, c);
    }
  }

  // ----- every hour -----

  predicate Positive(spends: seq<Spend>, last: int) {
    forall i :: 0 <= i < |spends| ==> spends[i].tokens >= 0 && spends[i].at <= last
  }

  lemma {:induction false} SpentIsCharge(spends: seq<Spend>, lo: int, hi: int, last: int)
    requires Positive(spends, last) && last <= hi
    ensures SpentBetween(spends, lo, hi) == Charge(spends, lo - 1)
  {
    if spends != [] {
      SpentIsCharge(spends[..|spends| - 1], lo, hi, last);
    }
  }

  lemma {:induction false} ChargeMonotone(spends: seq<Spend>, c: int, d: int, last: int)
    requires Positive(spends, last) && c <= d
    ensures 0 <= Charge(spends, d) <= Charge(spends, c)
  {
    if spends != [] {
      ChargeMonotone(spends[..|spends| - 1], c, d, last);
    }
  }

  lemma {:induction false} SpentMonotone(spends: seq<Spend>, lo: int, hi: int, hi': int, last: int)
    requires Positive(spends, last) && hi <= hi'
    ensures SpentBetween(spends, lo, hi) <= SpentBetween(spends, lo, hi')
  {
    if spends != [] {
      SpentMonotone(spends[..|spends| - 1], lo, hi, hi', last);
    }
  }

  /** The hour that starts at `lo`: while a check could still see it, the requests in flight are counted as
      if each had spent the most. */
  predicate HourBounded(x: Session, lo: int, bound: int, most: nat) {
    if x.last < lo + HOUR then Charge(x.spent, lo - 1) + x.open * most < bound
    else SpentBetween(x.spent, lo, lo + HOUR - 1) < bound
  }

  ghost predicate EveryHourBounded(x: Session, bound: int, most: nat) {
    forall lo :: HourBounded(x, lo, bound, most)
  }

  ghost predicate Bounded(limits: Limits, x: Session, most: nat, width: nat) {
    && 0 <= x.open <= width
    && Positive(x.spent, x.last)
    && SameCharge(x.s.spends, x.spent, x.last)
    && EveryHourBounded(x, limits.perHour + width * most, most)
  }

  /** An hour that closes as time passes. */
  lemma HourCloses(x: Session, lo: int, bound: int, most: nat, now: int)
    requires x.last <= now && x.open >= 0 && Positive(x.spent, x.last) && HourBounded(x, lo, bound, most)
    ensures now >= lo + HOUR ==> SpentBetween(x.spent, lo, lo + HOUR - 1) < bound
  {
    if x.last < lo + HOUR {
      assert x.open * most >= 0;
      SpentIsCharge(x.spent, lo, lo + HOUR - 1, x.last);
    }
  }

  lemma HourAfterAsk(limits: Limits, x: Session, m: Move, most: nat, width: nat, lo: int)
    requires m.Ask? && Fair(limits, x, m, most, width) && Bounded(limits, x, most, width)
    ensures HourBounded(Step(limits, x, m), lo, limits.perHour + width * most, most)
  {
    var y := Step(limits, x, m);
    AskCharges(limits, x.s, x.spent, x.last, m.now, m.wall);
    hide SessionStep, Charge, SpentBetween, SameCharge;
    var bound := limits.perHour + width * most;
    assert HourBounded(x, lo, bound, most);
    HourCloses(x, lo, bound, most, m.now);
    if m.now < lo + HOUR && y.open > x.open {
      ChargeMonotone(x.spent, m.now - HOUR, lo - 1, x.last);
      Products(y.open, width, most);
    }
  }

  lemma Products(a: int, b: int, m: nat)
    requires a <= b
    ensures a * m <= b * m
  {
  }

  lemma OneLess(a: int, m: int)
    ensures (a - 1) * m + m == a * m
  {
  }

  lemma HourAfterComplete(limits: Limits, x: Session, m: Move, most: nat, width: nat, lo: int)
    requires m.Complete? && Fair(limits, x, m, most, width) && Bounded(limits, x, most, width)
    ensures HourBounded(Step(limits, x, m), lo, limits.perHour + width * most, most)
  {
    hide Charge, SpentBetween, SameCharge;
    var bound := limits.perHour + width * most;
    assert HourBounded(x, lo, bound, most);
    HourCloses(x, lo, bound, most, m.now);
    ChargeSnoc(x.spent, Spend(m.now, m.tokens), lo - 1);
    SpentSnoc(x.spent, Spend(m.now, m.tokens), lo, lo + HOUR - 1);
    OneLess(x.open, most);
  }

  lemma HourAfterAbandon(limits: Limits, x: Session, m: Move, most: nat, width: nat, lo: int)
    requires m.Abandon? && Fair(limits, x, m, most, width) && Bounded(limits, x, most, width)
    ensures HourBounded(Step(limits, x, m), lo, limits.perHour + width * most, most)
  {
    hide Charge, SpentBetween, SameCharge;
    var bound := limits.perHour + width * most;
    assert HourBounded(x, lo, bound, most);
    HourCloses(x, lo, bound, most, m.now);
    OneLess(x.open, most);
  }

  lemma ChargesAfter(limits: Limits, x: Session, m: Move, most: nat, width: nat)
    requires Fair(limits, x, m, most, width) && Bounded(limits, x, most, width)
    ensures var y := Step(limits, x, m); SameCharge(y.s.spends, y.spent, y.last) && Positive(y.spent, y.last)
  {
    match m
    case Ask(now, wall) =>
      AskCharges(limits, x.s, x.spent, x.last, now, wall);
      hide SessionStep, SameCharge;
    case Complete(now, tokens) =>
      hide Charge;
      forall c | c >= now - HOUR
        ensures Charge(x.s.spends + [Spend(now, tokens)], c) == Charge(x.spent + [Spend(now, tokens)], c)
      {
        ChargeSnoc(x.s.spends, Spend(now, tokens), c);
        ChargeSnoc(x.spent, Spend(now, tokens), c);
      }
    case Abandon(_) =>
  }

  lemma StepBounded(limits: Limits, x: Session, m: Move, most: nat, width: nat)
    requires Fair(limits, x, m, most, width) && Bounded(limits, x, most, width)
    ensures Bounded(limits, Step(limits, x, m), most, width)
  {
    ChargesAfter(limits, x, m, most, width);
    var y, bound := Step(limits, x, m), limits.perHour + width * most;
    forall lo
      ensures HourBounded(y, lo, bound, most)
    {
      match m
      case Ask(_, _) => HourAfterAsk(limits, x, m, most, width, lo);
      case Complete(_, _) => HourAfterComplete(limits, x, m, most, width, lo);
      case Abandon(_) => HourAfterAbandon(limits, x, m, most, width, lo);
    }
    hide SessionStep, HourBounded, SameCharge, Positive;
  }

  lemma {:induction false} RunBounded(limits: Limits, start: int, moves: seq<Move>, most: nat, width: nat)
    requires limits.perHour >= 1 && AllFair(limits, start, moves, most, width)
    ensures Bounded(limits, Run(limits, start, moves), most, width)
  {
    if moves == [] {
      assert width * most >= 0;
    } else {
      hide Step, Fair, Bounded;
      RunBounded(limits, start, moves[..|moves| - 1], most, width);
      StepBounded(limits, Run(limits, start, moves[..|moves| - 1]), moves[|moves| - 1], most, width);
    }
  }

  /** Bounded overshoot: with no eviction, the tokens of any hour stay below the limit plus the most that the
      requests in flight can add. */
  lemma OvershootBounded(limits: Limits, start: int, moves: seq<Move>, most: nat, width: nat, lo: int, hi: int)
    requires limits.perHour >= 1 && AllFair(limits, start, moves, most, width)
    requires hi - lo < 3_600_000_000_000
    ensures SpentBetween(Run(limits, start, moves).spent, lo, hi) < limits.perHour + width * most
  {
    hide Run, AllFair, SameCharge, SpentBetween, Charge;
    var x := Run(limits, start, moves);
    var bound := limits.perHour + width * most;
    RunBounded(limits, start, moves, most, width);
    assert HourBounded(x, lo, bound, most);
    SpentMonotone(x.spent, lo, hi, lo + HOUR - 1, x.last);
    HourCloses(x, lo, bound, most, if x.last < lo + HOUR then lo + HOUR else x.last);
  }

  /** A check measures the tokens against everything the session has spent in the last hour. */
  lemma TokensRefineHistory(limits: Limits, start: int, moves: seq<Move>, most: nat, width: nat, now: int, wall: int)
    requires limits.perHour >= 1 && AllFair(limits, start, moves, most, width)
    requires Run(limits, start, moves).last <= now
    ensures var x := Run(limits, start, moves);
            var r := SessionStep(limits, x.s, now, wall).1;
            && (r.Admitted? ==> SpentBetween(x.spent, now - 3_599_999_999_999, now) < limits.perHour)
            && (r.BudgetExhausted? ==> SpentBetween(x.spent, now - 3_599_999_999_999, now) >= limits.perHour)
  {
    hide Run, AllFair, SameCharge, Charge, SessionStep, HourBounded, SpentBetween;
    var x := Run(limits, start, moves);
    RunBounded(limits, start, moves, most, width);
    AskCharges(limits, x.s, x.spent, x.last, now, wall);
    SpentIsCharge(x.spent, now - 3_599_999_999_999, now, x.last);
  }

  // ----- waiting for tokens -----

  lemma {:induction false} RecentSpendsPositive(spends: seq<Spend>, cutoff: int, last: int)
    requires Positive(spends, last)
    ensures Positive(RecentSpends(spends, cutoff), last)
    ensures forall i :: 0 <= i < |RecentSpends(spends, cutoff)| ==> RecentSpends(spends, cutoff)[i].at > cutoff
  {
    if spends != [] {
      RecentSpendsPositive(spends[..|spends| - 1], cutoff, last);
    }
  }

  lemma OneCharge(x: Spend, cutoff: int)
    ensures Charge([x], cutoff) == if x.at > cutoff then x.tokens else 0
  {
    ChargeSnoc([], x, cutoff);
    assert [] + [x] == [x];
  }

  lemma SplitCharge(spends: seq<Spend>, cutoff: int)
    requires spends != []
    ensures Charge(spends, cutoff) ==
              (if spends[0].at > cutoff then spends[0].tokens else 0) + Charge(spends[1..], cutoff)
  {
    ChargeSum([spends[0]], spends[1..], cutoff);
    OneCharge(spends[0], cutoff);
    assert [spends[0]] + spends[1..] == spends;
  }

  lemma RefusedForTokens(limits: Limits, s: State, now: int, wall: int)
    requires limits.perHour >= 1 && TokenStep(limits, s, now, wall).1.BudgetExhausted?
    ensures var kept := RecentSpends(s.spends, now - HOUR);
            && kept != []
            && TokenStep(limits, s, now, wall).1.retryAfter == RetryAfter(kept[0].at + HOUR, wall)
  {
    ChargedLog(s.spends, now - HOUR);
  }

  /** Refused for tokens and told to wait, a caller who waits that long is rid of the oldest spend of the hour
      at least. */
  lemma WaitingReleasesOldest(limits: Limits, s: State, now: int, wall: int, later: int)
    requires limits.perHour >= 1 && now <= wall && Positive(s.spends, now)
    requires TokenStep(limits, s, now, wall).1.BudgetExhausted?
    requires later >= wall && later >= wall + TokenStep(limits, s, now, wall).1.retryAfter * SECOND
    ensures var kept := RecentSpends(s.spends, now - HOUR);
            && kept != []
            && Charge(s.spends, later - HOUR) <= Charge(s.spends, now - HOUR) - kept[0].tokens
  {
    hide TokenStep, Charge, RecentSpends, Seconds;
    RefusedForTokens(limits, s, now, wall);
    var kept := RecentSpends(s.spends, now - HOUR);
    SecondsCover(kept[0].at + HOUR - wall, later - wall);
    ChargePruned(s.spends, now - HOUR, now - HOUR);
    ChargePruned(s.spends, now - HOUR, later - HOUR);
    RecentSpendsPositive(s.spends, now - HOUR, now);
    SplitCharge(kept, now - HOUR);
    SplitCharge(kept, later - HOUR);
    ChargeMonotone(kept[1..], now - HOUR, later - HOUR, now);
  }

  /** The bucket after token checks at the given times, with nothing spent. */
  function Checked(limits: Limits, s: State, checks: seq<int>): State {
    if checks == [] then s
    else TokenStep(limits, Checked(limits, s, checks[..|checks| - 1]), checks[|checks| - 1], checks[|checks| - 1]).0
  }

  lemma {:induction false} CheckedCharges(limits: Limits, s: State, checks: seq<int>, later: int, c: int)
    requires UpTo(checks, later) && c >= later - HOUR
    ensures Charge(Checked(limits, s, checks).spends, c) == Charge(s.spends, c)
  {
    hide Charge, RecentSpends;
    if checks != [] {
      var n := |checks| - 1;
      CheckedCharges(limits, s, checks[..n], later, c);
      ChargePruned(Checked(limits, s, checks[..n]).spends, checks[n] - HOUR, c);
    }
  }

  lemma ToldTime(expiry: int, wall: int)
    ensures var later := wall + RetryAfter(expiry, wall) * SECOND;
            wall <= expiry ==> expiry < later <= expiry + SECOND
  {
  }

  /** Refused for tokens, with nothing spent since and whatever was checked meanwhile: a check at any `later` time
      admits exactly if the spends kept at the refusal that are then less than an hour old stay below the limit.
      Whoever waits as told, on a clock that had not passed the oldest spend's hour, has lost exactly the spends up
      to `grace` after the oldest, which is at most a second. */
  lemma WaitingAdmitsExactly(limits: Limits, s: State, now: int, wall: int, checks: seq<int>, later: int, wall': int)
    requires limits.perHour >= 1 && now <= wall && now <= later && UpTo(checks, later)
    requires TokenStep(limits, s, now, wall).1.BudgetExhausted?
    ensures var (refused, r) := TokenStep(limits, s, now, wall);
            var kept := RecentSpends(s.spends, now - HOUR);
            kept != [] &&
            var grace := later - HOUR - kept[0].at;
            && (TokenStep(limits, Checked(limits, refused, checks), later, wall').1.Admitted? <==>
                  Charge(kept, kept[0].at + grace) < limits.perHour)
            && (later == wall + r.retryAfter * SECOND && wall <= kept[0].at + HOUR ==> 0 < grace <= SECOND)
  {
    RefusedForTokens(limits, s, now, wall);
    var refused := TokenStep(limits, s, now, wall).0;
    var kept := RecentSpends(s.spends, now - HOUR);
    assert refused.spends == kept;
    CheckedCharges(limits, refused, checks, later, later - HOUR);
    ToldTime(kept[0].at + HOUR, wall);
    hide Charge, RecentSpends, Checked, Seconds;
  }

  /** Waiting as told can be enough: spends at one instant go together. */
  lemma WaitingMaySuffice()
    ensures var limits := Limits(10, 1);
            var s := State([], [Spend(0, 3), Spend(0, 3)], 0);
            && TokenStep(limits, s, 0, 0).1 == BudgetExhausted(3601)
            && TokenStep(limits, s, 3601 * SECOND, 0).1.Admitted?
  {
    var spends := [Spend(0, 3), Spend(0, 3)];
    assert spends[..1] == [Spend(0, 3)] && [Spend(0, 3)][..0] == [];
    assert spends[1..] == [Spend(0, 3)];
    SplitCharge(spends, -HOUR);
    SplitCharge(spends, SECOND);
    OneCharge(spends[1], -HOUR);
    OneCharge(spends[1], SECOND);
    assert RecentSpends([], -HOUR) == [];
    assert RecentSpends([Spend(0, 3)], -HOUR) == [Spend(0, 3)];
    assert RecentSpends(spends, -HOUR) == spends;
  }

  /** And it can fail: a second spend half an hour after the first is still there. */
  lemma WaitingMayNotSuffice()
    ensures var limits := Limits(10, 1);
            var s := State([], [Spend(0, 1), Spend(30 * MINUTE, 1)], 0);
            var now := 30 * MINUTE;
            && TokenStep(limits, s, now, now).1 == BudgetExhausted(1801)
            && TokenStep(limits, s, now + 1801 * SECOND, now).1.BudgetExhausted?
  {
    var spends := [Spend(0, 1), Spend(30 * MINUTE, 1)];
    assert spends[..1] == [Spend(0, 1)] && [Spend(0, 1)][..0] == [];
    assert spends[1..] == [Spend(30 * MINUTE, 1)];
    SplitCharge(spends, -30 * MINUTE);
    SplitCharge(spends, 30 * MINUTE + 1801 * SECOND - HOUR);
    OneCharge(spends[1], -30 * MINUTE);
    OneCharge(spends[1], 30 * MINUTE + 1801 * SECOND - HOUR);
    assert RecentSpends([], -30 * MINUTE) == [];
    assert RecentSpends([Spend(0, 1)], -30 * MINUTE) == [Spend(0, 1)];
    assert RecentSpends(spends, -30 * MINUTE) == spends;
  }

  // ----- with eviction -----

  /** A request of a new session that takes longer than the idle time: it asks at time 0 ... */
  function Slow(config: Config): int {
    (if config.idleMinutes < 1 then 1 else config.idleMinutes) * MINUTE + 1
  }

  /** ... and then spends its whole hour. */
  function SlowSpender(config: Config): State {
    DeductStep(SessionStep(config.limits, Fresh(0), 0, 0).0, Slow(config), config.limits.perHour)
  }

  /** Whatever the idle time, eviction can forget spending: completing a request does not mark the session as
      seen, so a request slower than the idle time uses up the hour and the next one is let in. */
  lemma EvictionForgetsSpending(config: Config)
    requires config.limits.perMinute >= 1 && config.limits.perHour >= 1
    ensures var now := Slow(config);
            var sessions := map["s" := SlowSpender(config)];
            && SessionStep(config.limits, Fresh(0), 0, 0).1.Admitted?
            && SessionStep(config.limits, sessions["s"], now, now).1.BudgetExhausted?
            && SessionStep(config.limits, StateOf(SweepStep(sessions, now, config), "s", now), now, now).1.Admitted?
  {
    var limits, now := config.limits, Slow(config);
    FirstIsAdmitted(limits, 0);
    FirstIsAdmitted(limits, now);
    var s := SlowSpender(config);
    assert s.times == [0] && s.spends == [Spend(now, limits.perHour)] && s.lastSeen == 0;
    SpentIsRefused(limits, s, now);
    hide SessionStep, SlowSpender;
    assert "s" !in SweepStep(map["s" := s], now, config);
  }

  lemma FirstIsAdmitted(limits: Limits, now: int)
    requires limits.perMinute >= 1 && limits.perHour >= 1
    ensures SessionStep(limits, Fresh(now), now, now) == (State([now], [], now), Admitted)
  {
    RecentNone([], now - MINUTE);
    assert RateStep(limits, Fresh(now), now, now) == (State([] + [now], [], now), Admitted);
    assert [] + [now] == [now];
    assert RecentSpends([], now - HOUR) == [] && Charge([], now - HOUR) == 0;
  }

  lemma SpentIsRefused(limits: Limits, s: State, now: int)
    requires limits.perMinute >= 1 && s.times == [0] && now >= MINUTE && s.spends == [Spend(now, limits.perHour)]
    ensures SessionStep(limits, s, now, now).1.BudgetExhausted?
  {
    RecentNone(s.times, now - MINUTE);
    OneCharge(s.spends[0], now - HOUR);
  }
}
