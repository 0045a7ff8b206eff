/** The sessions of the policy layer, and what evicting idle ones can change. */
module Registry {
  import opened Bucket

  datatype Config = Config(limits: Limits, idleMinutes: int)

  type Sessions = map<string, State>

  function StateOf(reg: Sessions, id: string, now: int): State {
    if id in reg then reg[id] else Fresh(now)
  }

  /** The rate first; a request it refuses is not measured against the tokens. */
  function SessionStep(limits: Limits, s: State, now: int, wall: int): (State, Admission) {
    var (s1, r) := RateStep(limits, s, now, wall);
    if !r.Admitted? then (s1, r) else TokenStep(limits, s1, now, wall)
  }

  function Idle(s: State, now: int, config: Config): bool {
    s.lastSeen < now - config.idleMinutes * MINUTE
  }

  function SweepStep(reg: Sessions, now: int, config: Config): Sessions {
    map id | id in reg && !Idle(reg[id], now, config) :: reg[id]
  }

  /** A sweep that has yet to look at the sessions in `todo`. */
  function Swept(reg: Sessions, todo: set<string>, now: int, config: Config): Sessions {
    map id | id in reg && (id in todo || !Idle(reg[id], now, config)) :: reg[id]
  }

  lemma SweptNone(reg: Sessions, now: int, config: Config)
    ensures Swept(reg, reg.Keys, now, config) == reg
  {
  }

  lemma SweptAll(reg: Sessions, now: int, config: Config)
    ensures Swept(reg, {}, now, config) == SweepStep(reg, now, config)
  {
  }

  lemma SweptOne(reg: Sessions, todo: set<string>, id: string, now: int, config: Config)
    requires id in todo
    ensures var before := Swept(reg, todo, now, config);
            id in before ==>
              Swept(reg, todo - {id}, now, config) ==
              if before[id].lastSeen < now - config.idleMinutes * MINUTE then before - {id} else before
  {
  }

  /** What a check of a session makes of its state: the rate first, and the tokens only of a call it lets in. */
  lemma SessionMeans(limits: Limits, s: State, now: int, wall: int)
    ensures var (next, r) := SessionStep(limits, s, now, wall);
            var times, spends := Recent(s.times, now - 60_000_000_000), RecentSpends(s.spends, now - 3_600_000_000_000);
            var full := |times| >= limits.perMinute;
            var spent := Charge(s.spends, now - 3_600_000_000_000) >= limits.perHour;
            && (r.RateLimited? <==> full) && (r.BudgetExhausted? <==> !full && spent)
            && next == State(if full then times else times + [now], if full then s.spends else spends, now)
            && (full && times != [] ==> r.retryAfter == RetryAfter(times[0] + 60_000_000_000, wall))
            && (!full && spent && spends != [] ==> r.retryAfter == RetryAfter(spends[0].at + 3_600_000_000_000, wall))
  {
    hide Recent, RecentSpends, Charge, RetryAfter;
  }

  /** A deduction does not count as being seen; it only makes a session that was not there. */
  lemma DeductMeans(reg: Sessions, id: string, now: int, tokens: int)
    ensures DeductStep(StateOf(reg, id, now), now, tokens) ==
            if id in reg then State(reg[id].times, reg[id].spends + [Spend(now, tokens)], reg[id].lastSeen)
            else State([], [Spend(now, tokens)], now)
  {
  }

  /** A sweep keeps a session, as it is, exactly if it was seen within the idle time. */
  lemma SweepExact(reg: Sessions, now: int, config: Config)
    ensures var kept := SweepStep(reg, now, config);
            forall id :: (id in kept <==> id in reg && now - reg[id].lastSeen <= config.idleMinutes * 60_000_000_000)
                         && (id in kept ==> kept[id] == reg[id])
  {
  }

  method Check(b: TokenBucket, now: int, wall: int) returns (r: Admission)
    requires b.Valid()
    modifies b, b.times, b.spends
    ensures b.Valid() && (b.View(), r) == SessionStep(b.limits, old(b.View()), now, wall)
    ensures b.times == old(b.times) || fresh(b.times)
    ensures b.spends == old(b.spends)
  {
    hide TokenBucket.View, RateStep, TokenStep;
    r := b.CheckRate(now, wall);
    if r.Admitted? {
      r := b.CheckTokens(now, wall);
    }
  }

  /** A registry. `owner` says which session an object belongs to: no two sessions share a bucket or an
      array. `view` is what the buckets remember. */
  class Registry {
    const config: Config
    var sessions: map<string, TokenBucket>
    ghost var owner: map<object, string>
    ghost var view: Sessions

    ghost predicate Holds(id: string)
      reads this, owner.Keys
    {
      && id in sessions && id in view
      && var b := sessions[id];
      && b in owner && b.times in owner && b.spends in owner
      && owner[b] == owner[b.times] == owner[b.spends] == id
      && b.Valid() && b.limits == config.limits && b.View() == view[id]
    }

    ghost predicate Valid()
      reads this, owner.Keys
    {
      && config.limits.perMinute >= 1 && config.limits.perHour >= 1
      && this !in owner
      && view.Keys == sessions.Keys
      && forall id :: id in sessions ==> Holds(id)
    }

    constructor (config: Config)
      requires config.limits.perMinute >= 1 && config.limits.perHour >= 1
      ensures Valid() && view == map[] && this.config == config && owner == map[]
    {
      this.config, sessions, owner, view := config, map[], map[], map[];
    }

    /** `b`, new or worked on, is now the bucket of session `id`; the other sessions are as they were. */
    twostate lemma Settled(id: string, new b: TokenBucket)
      requires old(Valid()) && b.Valid() && b.limits == config.limits
      requires sessions == old(sessions)[id := b] && view == old(view)[id := b.View()]
      requires owner == old(owner)[b := id][b.times := id][b.spends := id]
      requires forall o: object :: o in old(owner) && old(owner)[o] != id ==> o !in {b, b.times, b.spends}
      requires forall o: object :: o in old(owner) && old(owner)[o] != id ==> unchanged(o)
      requires this !in {b, b.times, b.spends}
      ensures Valid()
    {
      assert Holds(id);
      forall other | other in sessions && other != id
        ensures Holds(other)
      {
        assert old(Holds(other));
      }
    }

    method GetOrCreateSession(id: string, now: int) returns (b: TokenBucket)
      requires Valid()
      modifies this
      ensures Valid() && fresh(owner.Keys - old(owner).Keys)
      ensures id in sessions && b == sessions[id]
      ensures view == old(view)[id := StateOf(old(view), id, now)]
    {
      if id in sessions {
        assert Holds(id);
        return sessions[id];
      }
      hide TokenBucket.View, TokenBucket.Valid;
      b := new TokenBucket(config.limits, now);
      sessions, view := sessions[id := b], view[id := b.View()];
      owner := owner[b := id][b.times := id][b.spends := id];
      Settled(id, b);
      assert Holds(id);
    }

    lemma Holding(id: string)
      requires Valid() && id in sessions
      ensures var b := sessions[id];
              && b in owner && b.times in owner && b.spends in owner
              && owner[b] == owner[b.times] == owner[b.spends] == id
              && b.Valid() && b.limits == config.limits
              && id in view && view[id] == b.View() && view[id].lastSeen == b.lastSeen
      ensures this !in owner && view.Keys == sessions.Keys
    {
      assert Holds(id);
    }

    lemma SameKeys()
      requires Valid()
      ensures view.Keys == sessions.Keys
    {
    }

    method CheckSession(id: string, now: int, wall: int) returns (r: Admission)
      requires Valid()
      modifies this, owner.Keys
      ensures Valid() && fresh(owner.Keys - old(owner).Keys)
      ensures var (s, answer) := SessionStep(config.limits, StateOf(old(view), id, now), now, wall);
              view == old(view)[id := s] && r == answer
    {
      hide *;
      var b := GetOrCreateSession(id, now);
      label Created:
      Holding(id);
      r := Check(b, now, wall);
      owner, view := owner[b := id][b.times := id][b.spends := id], view[id := b.View()];
      Settled@Created(id, b);
    }

    method DeductSession(id: string, now: int, tokens: int)
      requires Valid()
      modifies this, owner.Keys
      ensures Valid() && fresh(owner.Keys - old(owner).Keys)
      ensures view == old(view)[id := DeductStep(StateOf(old(view), id, now), now, tokens)]
    {
      hide *;
      var b := GetOrCreateSession(id, now);
      label Created:
      Holding(id);
      b.Deduct(now, tokens);
      owner, view := owner[b := id][b.times := id][b.spends := id], view[id := b.View()];
      Settled@Created(id, b);
    }

    method Sweep(now: int)
      requires Valid()
      modifies this
      ensures Valid() && owner == old(owner)
      ensures view == SweepStep(old(view), now, config)
    {
      hide *;
      SameKeys();
      var todo := sessions.Keys;
      SweptNone(view, now, config);
      while todo != {}
        invariant Valid() && owner == old(owner) && todo <= sessions.Keys
        invariant view == Swept(old(view), todo, now, config)
        decreases |todo|
      {
        var id :| id in todo;
        Holding(id);
        SweptOne(old(view), todo, id, now, config);
        if sessions[id].lastSeen < now - config.idleMinutes * MINUTE {
          Evict(id);
        }
        todo := todo - {id};
      }
      SweptAll(old(view), now, config);
    }

    method Evict(id: string)
      requires Valid() && id in sessions
      modifies this`sessions, this`view
      ensures Valid() && sessions == old(sessions) - {id} && view == old(view) - {id}
    {
      sessions, view := sessions - {id}, view - {id};
      forall other | other in sessions
        ensures Holds(other)
      {
        assert old(Holds(other));
      }
    }
  }
}
