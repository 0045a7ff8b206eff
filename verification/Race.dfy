/** A registry call in its two steps: it gets its session's bucket under the registry's lock, and works on it after. A
    sweep in between can evict the bucket that the call holds. */
module Race {
  import opened Bucket
  import opened Registry
  import opened Windows
  import Eviction

  datatype Owned = Owned(owner: string, state: State)

  /** `sessions` and `flight`, the calls between their two steps, name buckets by their place in `buckets`. */
  datatype World = World(buckets: seq<Owned>, sessions: map<string, nat>, flight: map<nat, nat>)

  datatype Move =
    | Get(call: nat, id: string, now: int)
    | CheckHeld(call: nat, now: int, wall: int)
    | DeductHeld(call: nat, now: int, tokens: int)
    | Sweep(now: int)

  const EMPTY := World([], map[], map[])

  ghost predicate WorldOk(w: World) {
    && (forall id :: id in w.sessions ==> w.sessions[id] < |w.buckets| && w.buckets[w.sessions[id]].owner == id)
    && (forall call :: call in w.flight ==> w.flight[call] < |w.buckets|)
  }

  predicate InFlight(w: World, call: nat) {
    call in w.flight && w.flight[call] < |w.buckets|
  }

  /** The bucket that the call holds. */
  function HeldBy(w: World, call: nat): Owned
    requires InFlight(w, call)
  {
    w.buckets[w.flight[call]]
  }

  /** The call has done its work on the bucket it holds. */
  function Worked(w: World, call: nat, s: State): World
    requires InFlight(w, call)
  {
    var b := w.flight[call];
    w.(buckets := w.buckets[b := Owned(w.buckets[b].owner, s)], flight := w.flight - {call})
  }

  /** One step. A move whose turn it is not changes nothing. */
  function Step(config: Config, w: World, m: Move): World {
    match m
    case Get(call, id, now) =>
      if call in w.flight then w
      else if id in w.sessions then w.(flight := w.flight[call := w.sessions[id]])
      else
        var b := |w.buckets|;
        World(w.buckets + [Owned(id, Fresh(now))], w.sessions[id := b], w.flight[call := b])
    case CheckHeld(call, now, wall) =>
      if InFlight(w, call) then Worked(w, call, SessionStep(config.limits, HeldBy(w, call).state, now, wall).0) else w
    case DeductHeld(call, now, tokens) =>
      if InFlight(w, call) then Worked(w, call, DeductStep(HeldBy(w, call).state, now, tokens)) else w
    case Sweep(now) =>
      w.(sessions := map id | id in w.sessions && id in View(w) && !Idle(View(w)[id], now, config) :: w.sessions[id])
  }

  /** What the registry's sessions remember. A bucket that was evicted is not among them, whoever holds it. */
  function View(w: World): Sessions {
    map id | id in w.sessions && w.sessions[id] < |w.buckets| :: w.buckets[w.sessions[id]].state
  }

  function Run(config: Config, moves: seq<Move>): World {
    if moves == [] then EMPTY else Step(config, Run(config, moves[..|moves| - 1]), moves[|moves| - 1])
  }

  predicate InOrder(moves: seq<Move>) {
    forall i, j :: 0 <= i < j < |moves| ==> moves[i].now <= moves[j].now
  }

  /** No sweep has evicted the bucket that the call of this move holds. */
  predicate Undisturbed(w: World, m: Move) {
    (m.CheckHeld? || m.DeductHeld?) && InFlight(w, m.call) ==>
      HeldBy(w, m.call).owner in w.sessions && w.sessions[HeldBy(w, m.call).owner] == w.flight[m.call]
  }

  predicate AllUndisturbed(config: Config, moves: seq<Move>) {
    moves == [] ||
    var n := |moves| - 1;
    AllUndisturbed(config, moves[..n]) && Undisturbed(Run(config, moves[..n]), moves[n])
  }

  // ----- the calls as single steps -----

  /** The call that this move completes, as one step of the registry. */
  function AtomOf(w: World, m: Move): seq<Eviction.Action> {
    match m
    case Get(_, _, _) => []
    case CheckHeld(call, now, wall) =>
      if InFlight(w, call) then [Eviction.Check(HeldBy(w, call).owner, now, wall)] else []
    case DeductHeld(call, now, tokens) =>
      if InFlight(w, call) then [Eviction.Deduct(HeldBy(w, call).owner, now, tokens)] else []
    case Sweep(now) => [Eviction.Sweep(now)]
  }

  function Atoms(config: Config, moves: seq<Move>): seq<Eviction.Action> {
    if moves == [] then []
    else
      var n := |moves| - 1;
      Atoms(config, moves[..n]) + AtomOf(Run(config, moves[..n]), moves[n])
  }

  /** When the calls of session `id` were let in by their rate checks. */
  function LetIn(config: Config, moves: seq<Move>, id: string): seq<int> {
    if moves == [] then []
    else
      var n := |moves| - 1;
      LetIn(config, moves[..n], id)
          + if Admits(config, Run(config, moves[..n]), moves[n], id) then [moves[n].now] else []
  }

  predicate Admits(config: Config, w: World, m: Move, id: string) {
    && m.CheckHeld? && InFlight(w, m.call) && HeldBy(w, m.call).owner == id
    && RateStep(config.limits, HeldBy(w, m.call).state, m.now, m.wall).1.Admitted?
  }

  lemma StepOk(config: Config, w: World, m: Move)
    requires WorldOk(w)
    ensures WorldOk(Step(config, w, m))
  {
    hide SessionStep, DeductStep, Idle;
  }

  lemma WorkedView(w: World, call: nat, s: State)
    requires WorldOk(w) && InFlight(w, call)
    requires var id := HeldBy(w, call).owner; id in w.sessions && w.sessions[id] == w.flight[call]
    ensures View(Worked(w, call, s)) == View(w)[HeldBy(w, call).owner := s]
    ensures HeldBy(w, call).owner in View(w) && View(w)[HeldBy(w, call).owner] == HeldBy(w, call).state
  {
  }

  /** Undisturbed, a call works on its own session as if it were one step. */
  lemma StepIsAct(config: Config, w: World, m: Move)
    requires WorldOk(w) && Undisturbed(w, m) && AtomOf(w, m) != []
    ensures View(Step(config, w, m)) == Eviction.Act(config, true, View(w), AtomOf(w, m)[0])
  {
    hide SessionStep, DeductStep, View, Idle;
    match m
    case CheckHeld(call, now, wall) =>
      WorkedView(w, call, SessionStep(config.limits, HeldBy(w, call).state, now, wall).0);
    case DeductHeld(call, now, tokens) =>
      WorkedView(w, call, DeductStep(HeldBy(w, call).state, now, tokens));
    case Sweep(now) =>
      SweptView(config, w, now);
    case _ =>
  }

  lemma SweptView(config: Config, w: World, now: int)
    requires WorldOk(w)
    ensures View(Step(config, w, Sweep(now))) == SweepStep(View(w), now, config)
  {
    hide Idle;
  }

  lemma OtherView(config: Config, w: World, m: Move)
    requires WorldOk(w) && AtomOf(w, m) == []
    ensures View(Step(config, w, m)) == View(w) ||
            (m.Get? && m.id !in View(w) && View(Step(config, w, m)) == View(w)[m.id := Fresh(m.now)])
  {
    if m.Get? && m.call !in w.flight && m.id !in w.sessions {
      assert View(Step(config, w, m)) == View(w)[m.id := Fresh(m.now)];
    }
  }

  lemma NewcomerAlike(e: Sessions, n: Sessions, id: string, before: int, now: int)
    requires before <= now && Eviction.Alike(e, n, before) && Eviction.AllDated(e, before) && id !in e
    ensures Eviction.Alike(e[id := Fresh(now)], n, now) && Eviction.AllDated(e[id := Fresh(now)], now)
  {
    hide SameRecent;
    Eviction.AlikeLater(e, n, before, now);
    Eviction.FreshDated(now);
    forall other
      ensures SameRecent(Eviction.Times(e[id := Fresh(now)], other), Eviction.Times(n, other), now)
    {
      assert Eviction.Times(e[id := Fresh(now)], other) == Eviction.Times(e, other);
    }
  }

  lemma AtomTime(w: World, m: Move)
    ensures |AtomOf(w, m)| <= 1 && (AtomOf(w, m) != [] ==> AtomOf(w, m)[0].now == m.now)
  {
  }

  lemma StepAlike(config: Config, w: World, n: Sessions, m: Move, before: int)
    requires config.idleMinutes >= 1 && before <= m.now && WorldOk(w) && Undisturbed(w, m)
    requires Eviction.Alike(View(w), n, before) && Eviction.AllDated(View(w), before)
    ensures var n' := if AtomOf(w, m) == [] then n else Eviction.Act(config, false, n, AtomOf(w, m)[0]);
            Eviction.Alike(View(Step(config, w, m)), n', m.now) && Eviction.AllDated(View(Step(config, w, m)), m.now)
  {
    hide View, Step, AtomOf, Undisturbed, Eviction.Act, Eviction.Alike, Eviction.AllDated;
    AtomTime(w, m);
    if AtomOf(w, m) == [] {
      OtherView(config, w, m);
      Eviction.AlikeLater(View(w), n, before, m.now);
      if m.Get? && m.id !in View(w) {
        NewcomerAlike(View(w), n, m.id, before, m.now);
      }
    } else {
      StepIsAct(config, w, m);
      Eviction.ActAlike(config, View(w), n, AtomOf(w, m)[0], before);
      Eviction.ActDated(config, true, View(w), AtomOf(w, m)[0], before);
    }
  }

  lemma OrderPrefix(moves: seq<Move>)
    requires InOrder(moves) && moves != []
    ensures InOrder(moves[..|moves| - 1])
    ensures |moves| > 1 ==> moves[|moves| - 2].now <= moves[|moves| - 1].now
  {
  }

  lemma NothingYet(config: Config, now: int)
    ensures WorldOk(Run(config, [])) && View(Run(config, [])) == map[] && Atoms(config, []) == []
    ensures Eviction.Run(config, false, []) == map[] && Eviction.Alike(map[], map[], now)
            && Eviction.AllDated(map[], now)
  {
    Eviction.NothingAlike(now);
  }

  lemma {:induction false} Follows(config: Config, moves: seq<Move>, now: int)
    requires config.idleMinutes >= 1 && InOrder(moves) && AllUndisturbed(config, moves)
    requires moves != [] ==> moves[|moves| - 1].now <= now
    ensures WorldOk(Run(config, moves))
    ensures Eviction.Alike(View(Run(config, moves)), Eviction.Run(config, false, Atoms(config, moves)), now)
    ensures Eviction.AllDated(View(Run(config, moves)), now)
  {
    hide View, Step, AtomOf, Undisturbed, WorldOk, InOrder, Eviction.Run, Eviction.Alike, Eviction.AllDated;
    if moves == [] {
      NothingYet(config, now);
    } else {
      var n := |moves| - 1;
      var w, m := Run(config, moves[..n]), moves[n];
      OrderPrefix(moves);
      Follows(config, moves[..n], m.now);
      StepOk(config, w, m);
      AtomTime(w, m);
      StepAlike(config, w, Eviction.Run(config, false, Atoms(config, moves[..n])), m, m.now);
      if AtomOf(w, m) == [] {
        assert Atoms(config, moves) == Atoms(config, moves[..n]);
      } else {
        assert AtomOf(w, m) == [AtomOf(w, m)[0]];
        Eviction.RunSnoc(config, false, Atoms(config, moves[..n]), AtomOf(w, m)[0]);
      }
      Eviction.AlikeLater(View(Run(config, moves)), Eviction.Run(config, false, Atoms(config, moves)), m.now, now);
    }
  }

  lemma {:induction false} AtomsInOrder(config: Config, moves: seq<Move>)
    requires InOrder(moves)
    ensures var atoms := Atoms(config, moves);
            && Eviction.InOrder(atoms)
            && (atoms != [] ==> moves != [] && atoms[|atoms| - 1].now <= moves[|moves| - 1].now)
  {
    hide AtomOf, Run;
    if moves != [] {
      var n := |moves| - 1;
      OrderPrefix(moves);
      AtomsInOrder(config, moves[..n]);
      AtomTime(Run(config, moves[..n]), moves[n]);
      hide InOrder;
    }
  }

  /** If no call loses the bucket it holds, the calls that are let in are those of the full-history rule, one step a
      call, however the steps interleave. */
  lemma {:induction false} LetInIsHistory(config: Config, moves: seq<Move>, id: string)
    requires config.idleMinutes >= 1 && InOrder(moves) && AllUndisturbed(config, moves)
    ensures LetIn(config, moves, id) == History(config.limits.perMinute, Eviction.CallsOf(Atoms(config, moves), id))
  {
    hide Run, AtomOf, Admits, History, InOrder, Undisturbed, Eviction.CallsOf;
    if moves == [] {
      NoCalls(config, id);
    } else {
      var n := |moves| - 1;
      OrderPrefix(moves);
      LetInIsHistory(config, moves[..n], id);
      LetInNext(config, moves[..n], moves[n], id);
    }
  }

  lemma NoCalls(config: Config, id: string)
    ensures History(config.limits.perMinute, Eviction.CallsOf([], id)) == []
  {
  }

  lemma LetInNext(config: Config, moves: seq<Move>, m: Move, id: string)
    requires config.idleMinutes >= 1 && InOrder(moves) && AllUndisturbed(config, moves)
    requires moves != [] ==> moves[|moves| - 1].now <= m.now
    requires Undisturbed(Run(config, moves), m)
    ensures var w, atoms := Run(config, moves), Atoms(config, moves);
            History(config.limits.perMinute, Eviction.CallsOf(atoms + AtomOf(w, m), id)) ==
            History(config.limits.perMinute, Eviction.CallsOf(atoms, id))
                + if Admits(config, w, m, id) then [m.now] else []
  {
    hide Run, Step, RateStep, History, InOrder, AllUndisturbed, SameRecent, View, Eviction.Run, Eviction.CallsOf,
         Allowed;
    var w, atoms, limit := Run(config, moves), Atoms(config, moves), config.limits.perMinute;
    var calls := Eviction.CallsOf(atoms, id);
    CallsNext(atoms, AtomOf(w, m), id);
    if m.CheckHeld? && InFlight(w, m.call) && HeldBy(w, m.call).owner == id {
      var s := HeldBy(w, m.call).state;
      Follows(config, moves, m.now);
      AtomsInOrder(config, moves);
      Eviction.RegistryFollowsHistory(config, atoms, id, m.now);
      WorkedView(w, m.call, s);
      assert Eviction.Times(View(w), id) == s.times;
      SameRecentJoins(s.times, Eviction.Times(Eviction.Run(config, false, atoms), id), History(limit, calls), m.now);
      RateAgrees(config.limits, s, History(limit, calls), m.now, m.now, m.wall);
      HistorySnoc(limit, calls, m.now);
    } else {
      assert calls + [] == calls && History(limit, calls) + [] == History(limit, calls);
    }
  }

  lemma SameRecentJoins(a: seq<int>, b: seq<int>, c: seq<int>, now: int)
    requires SameRecent(a, b, now) && SameRecent(b, c, now)
    ensures SameRecent(a, c, now)
  {
  }

  lemma CallsNext(atoms: seq<Eviction.Action>, atom: seq<Eviction.Action>, id: string)
    requires |atom| <= 1
    ensures Eviction.CallsOf(atoms + atom, id) ==
            Eviction.CallsOf(atoms, id) +
            if atom != [] && atom[0].Check? && atom[0].id == id then [atom[0].now] else []
  {
    if atom == [] {
      assert atoms + atom == atoms;
    } else {
      assert (atoms + atom)[..|atoms|] == atoms && (atoms + atom)[|atoms|] == atom[0];
    }
  }

  /** So every window shorter than a minute lets in at most the limit ... */
  lemma UndisturbedMinuteHoldsLimit(config: Config, moves: seq<Move>, id: string, lo: int, hi: int)
    requires config.idleMinutes >= 1 && config.limits.perMinute >= 0
    requires InOrder(moves) && AllUndisturbed(config, moves) && hi - lo < MINUTE
    ensures |Between(LetIn(config, moves, id), lo, hi)| <= config.limits.perMinute
  {
    hide Between, LetIn, History, InOrder, AllUndisturbed;
    LetInIsHistory(config, moves, id);
    MinuteHoldsLimit(config.limits.perMinute, Eviction.CallsOf(Atoms(config, moves), id), lo, hi);
  }

  // ----- a call that loses its bucket -----

  const CALLER := "s"

  /** When a sweep evicts a session last seen at time 0. */
  function Late(config: Config): int {
    if config.idleMinutes < 0 then 1 else config.idleMinutes * MINUTE + 1
  }

  /** Calls 1 to `n`, one after the other, all at this time. */
  function InTurn(n: nat, now: int): seq<Move> {
    if n == 0 then [] else InTurn(n - 1, now) + [Get(n, CALLER, now)] + [CheckHeld(n, now, now)]
  }

  /** Call 0 gets its bucket, a sweep evicts it, call 0 works on it; then as many calls as a minute may hold. */
  function RaceMoves(config: Config): seq<Move>
    requires config.limits.perMinute >= 1
  {
    [Get(0, CALLER, 0)] + [Sweep(Late(config))] + [CheckHeld(0, Late(config), Late(config))]
    + InTurn(config.limits.perMinute, Late(config))
  }

  function Same(n: nat, now: int): seq<int> {
    if n == 0 then [] else Same(n - 1, now) + [now]
  }

  lemma {:induction false} SameRecentAll(n: nat, now: int)
    ensures Recent(Same(n, now), now - MINUTE) == Same(n, now) && |Same(n, now)| == n
    ensures Between(Same(n, now), now, now) == Same(n, now)
  {
    hide Recent, Between;
    if n == 0 {
      RecentNone([], now - MINUTE);
      NothingBetween(now);
    } else {
      SameRecentAll(n - 1, now);
      RecentSnoc(Same(n - 1, now), now, now - MINUTE);
      BetweenSnoc(Same(n - 1, now), now, now, now);
    }
  }

  lemma NothingBetween(now: int)
    ensures Between([], now, now) == []
  {
  }

  lemma RunSnoc(config: Config, moves: seq<Move>, m: Move)
    ensures Run(config, moves + [m]) == Step(config, Run(config, moves), m)
    ensures LetIn(config, moves + [m], CALLER) ==
            LetIn(config, moves, CALLER) + if Admits(config, Run(config, moves), m, CALLER) then [m.now] else []
  {
    assert (moves + [m])[..|moves|] == moves;
  }

  /** The caller's calls so far have filled the log of its bucket this far. */
  predicate Filled(w: World, n: nat, now: int) {
    && w.flight == map[]
    && (CALLER in w.sessions ==>
          && w.sessions[CALLER] < |w.buckets|
          && w.buckets[w.sessions[CALLER]].owner == CALLER
          && w.buckets[w.sessions[CALLER]].state.times == Same(n, now))
    && (CALLER !in w.sessions ==> n == 0)
  }

  lemma NextGets(config: Config, w: World, n: nat, now: int)
    requires Filled(w, n, now)
    ensures var w' := Step(config, w, Get(n + 1, CALLER, now));
            && CALLER in w'.sessions && w'.sessions[CALLER] < |w'.buckets|
            && w'.flight == map[n + 1 := w'.sessions[CALLER]]
            && w'.buckets[w'.sessions[CALLER]].owner == CALLER
            && w'.buckets[w'.sessions[CALLER]].state.times == Same(n, now)
  {
  }

  lemma NextIsChecked(config: Config, w: World, n: nat, now: int)
    requires n < config.limits.perMinute
    requires CALLER in w.sessions && w.sessions[CALLER] < |w.buckets| && w.flight == map[n + 1 := w.sessions[CALLER]]
    requires w.buckets[w.sessions[CALLER]].owner == CALLER
    requires w.buckets[w.sessions[CALLER]].state.times == Same(n, now)
    ensures Admits(config, w, CheckHeld(n + 1, now, now), CALLER)
    ensures Filled(Step(config, w, CheckHeld(n + 1, now, now)), n + 1, now)
  {
    hide Recent, SessionStep;
    SameRecentAll(n, now);
    assert HeldBy(w, n + 1).state.times == Same(n, now);
    Eviction.StepTimes(config.limits, HeldBy(w, n + 1).state, now, now);
    assert w.flight - {n + 1} == map[];
  }

  lemma OneMore(config: Config, w: World, n: nat, now: int)
    requires n < config.limits.perMinute && Filled(w, n, now)
    ensures var w' := Step(config, w, Get(n + 1, CALLER, now));
            && Admits(config, w', CheckHeld(n + 1, now, now), CALLER)
            && Filled(Step(config, w', CheckHeld(n + 1, now, now)), n + 1, now)
  {
    hide *;
    NextGets(config, w, n, now);
    NextIsChecked(config, Step(config, w, Get(n + 1, CALLER, now)), n, now);
  }

  lemma {:induction false} Fills(config: Config, moves: seq<Move>, n: nat, now: int)
    requires n <= config.limits.perMinute && Filled(Run(config, moves), 0, now)
    ensures Filled(Run(config, moves + InTurn(n, now)), n, now)
    ensures LetIn(config, moves + InTurn(n, now), CALLER) == LetIn(config, moves, CALLER) + Same(n, now)
  {
    hide Run, Step, Admits, Filled, LetIn;
    if n == 0 {
      assert moves + InTurn(0, now) == moves;
    } else {
      var before := moves + InTurn(n - 1, now);
      Fills(config, moves, n - 1, now);
      OneMore(config, Run(config, before), n - 1, now);
      RunSnoc(config, before, Get(n, CALLER, now));
      RunSnoc(config, before + [Get(n, CALLER, now)], CheckHeld(n, now, now));
      NotACheck(config, Run(config, before), n, now);
      assert moves + InTurn(n, now) == before + [Get(n, CALLER, now)] + [CheckHeld(n, now, now)];
    }
  }

  lemma NotACheck(config: Config, w: World, call: nat, now: int)
    ensures !Admits(config, w, Get(call, CALLER, now), CALLER)
  {
  }

  lemma Orphaned(config: Config)
    requires config.limits.perMinute >= 1
    ensures var late := Late(config);
            var moves := [Get(0, CALLER, 0)] + [Sweep(late)] + [CheckHeld(0, late, late)];
            Filled(Run(config, moves), 0, late) && LetIn(config, moves, CALLER) == [late]
  {
    hide Run, LetIn, Step, Admits, Late;
    var late := Late(config);
    var get, sweep, check := Get(0, CALLER, 0), Sweep(late), CheckHeld(0, late, late);
    NoMoves(config);
    RunSnoc(config, [], get);
    assert [] + [get] == [get];
    RunSnoc(config, [get], sweep);
    RunSnoc(config, [get] + [sweep], check);
    NewBucket(config);
    NotACheck(config, EMPTY, 0, 0);
    BucketEvicted(config);
    OrphanWorks(config);
  }

  lemma NoMoves(config: Config)
    ensures Run(config, []) == EMPTY && LetIn(config, [], CALLER) == []
  {
  }

  lemma NewBucket(config: Config)
    ensures Step(config, EMPTY, Get(0, CALLER, 0)) == World([Owned(CALLER, Fresh(0))], map[CALLER := 0], map[0 := 0])
  {
  }

  lemma BucketEvicted(config: Config)
    ensures var w := World([Owned(CALLER, Fresh(0))], map[CALLER := 0], map[0 := 0]);
            && Step(config, w, Sweep(Late(config))) == w.(sessions := map[])
            && !Admits(config, w, Sweep(Late(config)), CALLER)
  {
    var w := World([Owned(CALLER, Fresh(0))], map[CALLER := 0], map[0 := 0]);
    assert Idle(Fresh(0), Late(config), config);
    assert View(w) == map[CALLER := Fresh(0)];
    hide View, Late, Idle;
    assert Step(config, w, Sweep(Late(config))).sessions == map[];
  }

  lemma OrphanWorks(config: Config)
    requires config.limits.perMinute >= 1
    ensures var w := World([Owned(CALLER, Fresh(0))], map[], map[0 := 0]);
            var check := CheckHeld(0, Late(config), Late(config));
            Admits(config, w, check, CALLER) && Filled(Step(config, w, check), 0, Late(config))
  {
    hide Recent, SessionStep, RateStep, Late;
    var w := World([Owned(CALLER, Fresh(0))], map[], map[0 := 0]);
    FreshAdmits(config.limits, 0, Late(config));
    assert w.flight - {0} == map[];
  }

  lemma FreshAdmits(limits: Limits, seen: int, now: int)
    requires limits.perMinute >= 1
    ensures RateStep(limits, Fresh(seen), now, now).1.Admitted?
  {
    RecentNone([], now - MINUTE);
  }

  lemma {:induction false} TurnInOrder(n: nat, now: int)
    ensures forall i :: 0 <= i < |InTurn(n, now)| ==> InTurn(n, now)[i].now == now
  {
    if n > 0 { TurnInOrder(n - 1, now); }
  }

  /** ... and with any limit and any idle time, one call that loses its bucket is enough to let in one more, all in the
      same instant. */
  lemma LostBucketLetsInOneMore(config: Config)
    requires config.limits.perMinute >= 1
    ensures InOrder(RaceMoves(config))
    ensures |Between(LetIn(config, RaceMoves(config), CALLER), Late(config), Late(config))| ==
              config.limits.perMinute + 1
  {
    hide Run, LetIn, Between, Filled, Same;
    var n, late := config.limits.perMinute, Late(config);
    TurnInOrder(n, late);
    Orphaned(config);
    Fills(config, [Get(0, CALLER, 0)] + [Sweep(late)] + [CheckHeld(0, late, late)], n, late);
    SameFront(n, late);
    SameRecentAll(n + 1, late);
  }

  lemma {:induction false} SameFront(n: nat, now: int)
    ensures [now] + Same(n, now) == Same(n + 1, now)
  {
    if n > 0 {
      SameFront(n - 1, now);
      assert [now] + Same(n, now) == ([now] + Same(n - 1, now)) + [now];
    }
  }
}
