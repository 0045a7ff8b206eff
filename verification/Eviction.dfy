/** Eviction and the rate: with an idle time of at least a minute, and only then, sweeping is invisible. */
module Eviction {
  import opened Bucket
  import opened Registry
  import opened Windows

  datatype Action =
    | Check(id: string, now: int, wall: int)
    | Deduct(id: string, now: int, tokens: int)
    | Sweep(now: int)

  function Act(config: Config, evicting: bool, reg: Sessions, a: Action): Sessions {
    match a
    case Check(id, now, wall) => reg[id := SessionStep(config.limits, StateOf(reg, id, now), now, wall).0]
    case Deduct(id, now, tokens) => reg[id := DeductStep(StateOf(reg, id, now), now, tokens)]
    case Sweep(now) => if evicting then SweepStep(reg, now, config) else reg
  }

  function Run(config: Config, evicting: bool, actions: seq<Action>): Sessions {
    if actions == [] then map[]
    else Act(config, evicting, Run(config, evicting, actions[..|actions| - 1]), actions[|actions| - 1])
  }

  predicate InOrder(actions: seq<Action>) {
    forall i, j :: 0 <= i < j < |actions| ==> actions[i].now <= actions[j].now
  }

  /** The answer of the rate check within a session check. */
  function RateAnswer(config: Config, reg: Sessions, a: Action): Admission
    requires a.Check?
  {
    RateStep(config.limits, StateOf(reg, a.id, a.now), a.now, a.wall).1
  }

  /** No session can tell by its rate answers, waiting times included, whether sweeps evict. */
  ghost predicate Invisible(config: Config) {
    forall actions: seq<Action>, a: Action :: a.Check? && InOrder(actions + [a]) ==>
      RateAnswer(config, Run(config, true, actions), a) == RateAnswer(config, Run(config, false, actions), a)
  }

  // ----- the two registries stay alike -----

  function Times(reg: Sessions, id: string): seq<int> {
    if id in reg then reg[id].times else []
  }

  /** Whatever `now`, all that a rate check can still see is the same in both. */
  ghost predicate Alike(e: Sessions, n: Sessions, now: int) {
    forall id :: SameRecent(Times(e, id), Times(n, id), now)
  }

  predicate Dated(s: State, now: int) {
    UpTo(s.times, s.lastSeen) && s.lastSeen <= now
  }

  predicate AllDated(reg: Sessions, now: int) {
    forall id :: id in reg ==> Dated(reg[id], now)
  }

  lemma RateAlike(limits: Limits, s: State, t: State, before: int, now: int, wall: int)
    requires before <= now && SameRecent(s.times, t.times, before)
    ensures RateStep(limits, s, now, wall).1 == RateStep(limits, t, now, wall).1
    ensures SameRecent(RateStep(limits, s, now, wall).0.times, RateStep(limits, t, now, wall).0.times, now)
  {
    assert Recent(s.times, now - MINUTE) == Recent(t.times, now - MINUTE);
  }

  lemma StepTimes(limits: Limits, s: State, now: int, wall: int)
    ensures var next := SessionStep(limits, s, now, wall).0;
            next.times == RateStep(limits, s, now, wall).0.times && next.lastSeen == now
  {
  }

  lemma {:induction false} RecentUpTo(times: seq<int>, cutoff: int, last: int)
    requires UpTo(times, last)
    ensures UpTo(Recent(times, cutoff), last)
  {
    if times != [] {
      RecentUpTo(times[..|times| - 1], cutoff, last);
    }
  }

  lemma StepDated(limits: Limits, s: State, before: int, now: int, wall: int)
    requires before <= now && Dated(s, before)
    ensures Dated(SessionStep(limits, s, now, wall).0, now)
  {
    StepTimes(limits, s, now, wall);
    RecentUpTo(s.times, now - MINUTE, s.lastSeen);
    hide Recent, TokenStep;
  }

  /** A bucket idle for over a minute has nothing left that a rate check could see. */
  lemma IdleIsEmpty(s: State, now: int, config: Config)
    requires config.idleMinutes >= 1 && UpTo(s.times, s.lastSeen) && Idle(s, now, config)
    ensures SameRecent([], s.times, now)
  {
    forall c | c >= now - MINUTE
      ensures Recent(s.times, c) == Recent([], c)
    {
      RecentNone(s.times, c);
    }
  }

  lemma ActDated(config: Config, evicting: bool, reg: Sessions, a: Action, before: int)
    requires before <= a.now && AllDated(reg, before)
    ensures AllDated(Act(config, evicting, reg, a), a.now)
  {
    match a
    case Check(id, now, wall) =>
      hide SessionStep, UpTo;
      assert Dated(Fresh(now), now) by { FreshDated(now); }
      if id in reg {
        StepDated(config.limits, reg[id], before, now, wall);
      } else {
        StepDated(config.limits, Fresh(now), now, now, wall);
      }
    case Deduct(id, now, tokens) =>
      FreshDated(now);
    case Sweep(now) =>
  }

  lemma FreshDated(now: int)
    ensures Dated(Fresh(now), now)
  {
  }

  lemma ActAlike(config: Config, e: Sessions, n: Sessions, a: Action, before: int)
    requires config.idleMinutes >= 1
    requires before <= a.now && Alike(e, n, before) && AllDated(e, before)
    ensures Alike(Act(config, true, e, a), Act(config, false, n, a), a.now)
  {
    hide SessionStep, Recent, UpTo;
    var e', n' := Act(config, true, e, a), Act(config, false, n, a);
    forall id
      ensures SameRecent(Times(e', id), Times(n', id), a.now)
    {
      Later(Times(e, id), Times(n, id), before, a.now);
      match a
      case Check(who, now, wall) =>
        if id == who {
          CheckedTimes(config, e, id, now, wall);
          CheckedTimes(config, n, id, now, wall);
          RateAlike(config.limits, StateOf(e, id, now), StateOf(n, id, now), before, now, wall);
        }
      case Deduct(_, _, _) =>
      case Sweep(now) =>
        if id in e && Idle(e[id], now, config) {
          assert Dated(e[id], before);
          IdleIsEmpty(e[id], now, config);
        }
    }
  }

  lemma Later(a: seq<int>, b: seq<int>, before: int, now: int)
    requires before <= now && SameRecent(a, b, before)
    ensures SameRecent(a, b, now)
  {
  }

  lemma CheckedTimes(config: Config, reg: Sessions, id: string, now: int, wall: int)
    ensures Times(Act(config, true, reg, Check(id, now, wall)), id) ==
            RateStep(config.limits, StateOf(reg, id, now), now, wall).0.times
    ensures Times(Act(config, false, reg, Check(id, now, wall)), id) ==
            RateStep(config.limits, StateOf(reg, id, now), now, wall).0.times
    ensures StateOf(reg, id, now).times == Times(reg, id)
  {
    StepTimes(config.limits, StateOf(reg, id, now), now, wall);
    hide SessionStep, RateStep;
  }

  lemma {:induction false} RunsAlike(config: Config, actions: seq<Action>, now: int)
    requires config.idleMinutes >= 1 && InOrder(actions)
    requires actions != [] ==> actions[|actions| - 1].now <= now
    ensures Alike(Run(config, true, actions), Run(config, false, actions), now)
    ensures AllDated(Run(config, true, actions), now)
  {
    hide Act, SameRecent, Dated;
    if actions == [] {
      NothingAlike(now);
    } else {
      var last := actions[|actions| - 1];
      RunsAlike(config, actions[..|actions| - 1], last.now);
      ActAlike(config, Run(config, true, actions[..|actions| - 1]), Run(config, false, actions[..|actions| - 1]),
          last, last.now);
      ActDated(config, true, Run(config, true, actions[..|actions| - 1]), last, last.now);
      AlikeLater(Run(config, true, actions), Run(config, false, actions), last.now, now);
    }
  }

  lemma NothingAlike(now: int)
    ensures Alike(map[], map[], now)
  {
  }

  lemma AlikeLater(e: Sessions, n: Sessions, before: int, now: int)
    requires before <= now && Alike(e, n, before) && AllDated(e, before)
    ensures Alike(e, n, now) && AllDated(e, now)
  {
    forall id
      ensures SameRecent(Times(e, id), Times(n, id), now)
    {
      Later(Times(e, id), Times(n, id), before, now);
    }
  }

  /** A registry that evicts answers every rate check like one that never does. */
  lemma EvictionIsInvisible(config: Config, actions: seq<Action>, a: Action)
    requires config.idleMinutes >= 1
    requires a.Check? && InOrder(actions + [a])
    ensures RateAnswer(config, Run(config, true, actions), a) == RateAnswer(config, Run(config, false, actions), a)
  {
    hide Run, RateStep, SameRecent;
    assert forall i :: 0 <= i < |actions| ==> (actions + [a])[i] == actions[i];
    if actions != [] {
      assert (actions + [a])[|actions| - 1].now <= (actions + [a])[|actions|].now;
    }
    RunsAlike(config, actions, a.now);
    var e, n := Run(config, true, actions), Run(config, false, actions);
    assert SameRecent(Times(e, a.id), Times(n, a.id), a.now);
    RateAlike(config.limits, StateOf(e, a.id, a.now), StateOf(n, a.id, a.now), a.now, a.now, a.wall);
  }

  // ----- without the minute -----

  const CALLER := "s"

  function Burst(n: nat): seq<Action> {
    if n == 0 then [] else Burst(n - 1) + [Check(CALLER, 0, 0)]
  }

  function Zeros(n: nat): seq<int> {
    if n == 0 then [] else Zeros(n - 1) + [0]
  }

  lemma RunSnoc(config: Config, evicting: bool, actions: seq<Action>, a: Action)
    ensures Run(config, evicting, actions + [a]) == Act(config, evicting, Run(config, evicting, actions), a)
  {
    assert (actions + [a])[..|actions|] == actions;
  }

  lemma {:induction false} ZerosRecent(n: nat, cutoff: int)
    requires cutoff < 0
    ensures Recent(Zeros(n), cutoff) == Zeros(n) && |Zeros(n)| == n
  {
    hide Recent;
    if n == 0 {
      RecentNone([], cutoff);
    } else {
      ZerosRecent(n - 1, cutoff);
      RecentSnoc(Zeros(n - 1), 0, cutoff);
    }
  }

  /** The caller's log after `n` calls at time 0, and when it was last seen. */
  lemma {:induction false} BurstFills(config: Config, evicting: bool, n: nat)
    requires n <= config.limits.perMinute
    ensures var s := StateOf(Run(config, evicting, Burst(n)), CALLER, 0); s.times == Zeros(n) && s.lastSeen == 0
    ensures n > 0 ==> CALLER in Run(config, evicting, Burst(n))
  {
    hide Run, Recent, SessionStep;
    if n > 0 {
      BurstFills(config, evicting, n - 1);
      var s := StateOf(Run(config, evicting, Burst(n - 1)), CALLER, 0);
      ZerosRecent(n - 1, -MINUTE);
      StepTimes(config.limits, s, 0, 0);
      RunSnoc(config, evicting, Burst(n - 1), Check(CALLER, 0, 0));
    } else {
      RunNothing(config, evicting);
    }
  }

  lemma RunNothing(config: Config, evicting: bool)
    ensures Run(config, evicting, []) == map[]
  {
  }

  lemma {:induction false} BurstInOrder(n: nat)
    ensures forall i :: 0 <= i < |Burst(n)| ==> Burst(n)[i].now == 0
  {
    if n > 0 {
      BurstInOrder(n - 1);
    }
  }

  lemma FullIsRefused(limits: Limits, s: State)
    requires limits.perMinute >= 1 && s.times == Zeros(limits.perMinute)
    ensures RateStep(limits, s, 2, 2).1.RateLimited?
  {
    ZerosRecent(limits.perMinute, 2 - MINUTE);
  }

  lemma NewcomerIsAdmitted(limits: Limits)
    requires limits.perMinute >= 1
    ensures RateStep(limits, Fresh(2), 2, 2).1 == Admitted
  {
    RecentNone([], 2 - MINUTE);
  }

  lemma Visible(config: Config, actions: seq<Action>, a: Action)
    requires a.Check? && InOrder(actions + [a])
    requires RateAnswer(config, Run(config, true, actions), a) != RateAnswer(config, Run(config, false, actions), a)
    ensures !Invisible(config)
  {
    hide Run, RateAnswer, InOrder;
  }

  lemma BurstSwept(config: Config)
    requires config.limits.perMinute >= 1 && config.idleMinutes < 1
    ensures var actions := Burst(config.limits.perMinute) + [Sweep(1)];
            && CALLER !in Run(config, true, actions)
            && CALLER in Run(config, false, actions)
            && Run(config, false, actions)[CALLER].times == Zeros(config.limits.perMinute)
  {
    hide Run, Burst, Zeros, SessionStep, DeductStep;
    var burst := Burst(config.limits.perMinute);
    BurstFills(config, true, config.limits.perMinute);
    BurstFills(config, false, config.limits.perMinute);
    RunSnoc(config, true, burst, Sweep(1));
    RunSnoc(config, false, burst, Sweep(1));
  }

  lemma BurstThenSweepInOrder(n: nat)
    ensures InOrder(Burst(n) + [Sweep(1)] + [Check(CALLER, 2, 2)])
  {
    BurstInOrder(n);
    hide Burst;
  }

  /** A full burst, a sweep and one more call: evicted, the caller is let in; kept, it is refused. */
  lemma ShortIdleIsVisible(config: Config)
    requires config.limits.perMinute >= 1 && config.idleMinutes < 1
    ensures !Invisible(config)
  {
    hide Run, Burst, Recent, InOrder, RateStep, Zeros, Invisible;
    var actions := Burst(config.limits.perMinute) + [Sweep(1)];
    BurstSwept(config);
    BurstThenSweepInOrder(config.limits.perMinute);
    NewcomerIsAdmitted(config.limits);
    FullIsRefused(config.limits, Run(config, false, actions)[CALLER]);
    Visible(config, actions, Check(CALLER, 2, 2));
  }

  lemma InvisibleIff(config: Config)
    requires config.limits.perMinute >= 1
    ensures Invisible(config) <==> config.idleMinutes >= 1
  {
    if config.idleMinutes >= 1 {
      forall actions: seq<Action>, a: Action | a.Check? && InOrder(actions + [a])
        ensures RateAnswer(config, Run(config, true, actions), a) == RateAnswer(config, Run(config, false, actions), a)
      {
        EvictionIsInvisible(config, actions, a);
      }
    } else {
      ShortIdleIsVisible(config);
    }
  }

  // ----- the whole registry against the full history -----

  /** When session `id` asked. */
  function CallsOf(actions: seq<Action>, id: string): seq<int> {
    if actions == [] then []
    else
      var n := |actions| - 1;
      CallsOf(actions[..n], id) + if actions[n].Check? && actions[n].id == id then [actions[n].now] else []
  }

  lemma {:induction false} RegistryFollowsHistory(config: Config, actions: seq<Action>, id: string, now: int)
    requires InOrder(actions)
    requires actions != [] ==> actions[|actions| - 1].now <= now
    ensures SameRecent(Times(Run(config, false, actions), id), History(config.limits.perMinute, CallsOf(actions, id)),
            now)
  {
    hide SessionStep, RateStep, Recent, SameRecent, Recorded, InOrder;
    if actions == [] {
      AlikeItself([], now);
    } else {
      var n := |actions| - 1;
      var a, before := actions[n], actions[..n];
      InOrderPrefix(actions);
      RegistryFollowsHistory(config, before, id, a.now);
      var reg, history := Run(config, false, before), History(config.limits.perMinute, CallsOf(before, id));
      if a.Check? && a.id == id {
        CheckedTimes(config, reg, id, a.now, a.wall);
        RateAgrees(config.limits, StateOf(reg, id, a.now), history, a.now, a.now, a.wall);
        HistorySnoc(config.limits.perMinute, CallsOf(before, id), a.now);
      } else {
        OtherTimes(config, reg, a, id);
        assert CallsOf(actions, id) == CallsOf(before, id);
      }
      Later(Times(Run(config, false, actions), id), History(config.limits.perMinute, CallsOf(actions, id)), a.now, now);
    }
  }

  lemma AlikeItself(times: seq<int>, now: int)
    ensures SameRecent(times, times, now)
  {
  }

  lemma InOrderPrefix(actions: seq<Action>)
    requires InOrder(actions) && actions != []
    ensures InOrder(actions[..|actions| - 1])
    ensures |actions| > 1 ==> actions[|actions| - 2].now <= actions[|actions| - 1].now
  {
  }

  lemma OtherTimes(config: Config, reg: Sessions, a: Action, id: string)
    requires !(a.Check? && a.id == id)
    ensures Times(Act(config, false, reg, a), id) == Times(reg, id)
  {
    hide SessionStep;
  }

  /** With eviction and all, a session's call is let in exactly if fewer than the limit of its own accepted
      calls lie in the last minute. */
  lemma RegistryRefinesHistory(config: Config, actions: seq<Action>, a: Action)
    requires config.idleMinutes >= 1
    requires a.Check? && InOrder(actions + [a])
    ensures RateAnswer(config, Run(config, true, actions), a).Admitted? <==>
              Allowed(History(config.limits.perMinute, CallsOf(actions, a.id)), a.now, config.limits.perMinute)
  {
    hide Run, RateStep, Recent, SameRecent, History, CallsOf, Allowed;
    EvictionIsInvisible(config, actions, a);
    InOrderPrefix(actions + [a]);
    assert (actions + [a])[..|actions|] == actions;
    RegistryFollowsHistory(config, actions, a.id, a.now);
    var reg := Run(config, false, actions);
    RateAgrees(config.limits, StateOf(reg, a.id, a.now), History(config.limits.perMinute, CallsOf(actions, a.id)),
               a.now, a.now, a.wall);
  }
}
