/** What a bucket's pruned logs decide, measured against the whole history. */
module Windows {
  import opened Bucket

  predicate Ordered(calls: seq<int>) {
    forall i, j :: 0 <= i < j < |calls| ==> calls[i] <= calls[j]
  }

  predicate UpTo(times: seq<int>, last: int) {
    forall i :: 0 <= i < |times| ==> times[i] <= last
  }

  // ----- pruning -----

  lemma {:induction false} RecentSum(a: seq<int>, b: seq<int>, cutoff: int)
    ensures Recent(a + b, cutoff) == Recent(a, cutoff) + Recent(b, cutoff)
  {
    if b == [] {
      assert a + b == a;
    } else {
      var n := |b| - 1;
      assert (a + b)[..|a| + n] == a + b[..n];
      RecentSum(a, b[..n], cutoff);
    }
  }

  lemma {:induction false} RecentSpendsSum(a: seq<Spend>, b: seq<Spend>, cutoff: int)
    ensures RecentSpends(a + b, cutoff) == RecentSpends(a, cutoff) + RecentSpends(b, cutoff)
  {
    if b == [] {
      assert a + b == a;
    } else {
      var n := |b| - 1;
      assert (a + b)[..|a| + n] == a + b[..n];
      RecentSpendsSum(a, b[..n], cutoff);
    }
  }

  /** Pruning keeps, in their order, the times and the spends after the cutoff, and charges for those spends. */
  lemma PruningKeeps(t: int, times: seq<int>, x: Spend, spends: seq<Spend>, cutoff: int)
    ensures Recent([], cutoff) == [] && RecentSpends([], cutoff) == [] && Charge([], cutoff) == 0
    ensures Recent([t] + times, cutoff) == (if t > cutoff then [t] else []) + Recent(times, cutoff)
    ensures RecentSpends([x] + spends, cutoff) == (if x.at > cutoff then [x] else []) + RecentSpends(spends, cutoff)
    ensures Charge([x] + spends, cutoff) == (if x.at > cutoff then x.tokens else 0) + Charge(spends, cutoff)
  {
    assert [t][..0] == [] && [x][..0] == [];
    RecentSum([t], times, cutoff);
    RecentSpendsSum([x], spends, cutoff);
    ChargeSum([x], spends, cutoff);
  }

  lemma {:induction false} ChargeSum(a: seq<Spend>, b: seq<Spend>, cutoff: int)
    ensures Charge(a + b, cutoff) == Charge(a, cutoff) + Charge(b, cutoff)
  {
    if b == [] {
      assert a + b == a;
    } else {
      var n := |b| - 1;
      assert (a + b)[..|a| + n] == a + b[..n];
      ChargeSum(a, b[..n], cutoff);
    }
  }

  lemma RecentSnoc(a: seq<int>, t: int, cutoff: int)
    ensures Recent(a + [t], cutoff) == Recent(a, cutoff) + if t > cutoff then [t] else []
  {
    assert (a + [t])[..|a|] == a;
  }

  lemma {:induction false} RecentTwice(a: seq<int>, c: int, d: int)
    requires c <= d
    ensures Recent(Recent(a, c), d) == Recent(a, d)
  {
    if a != [] {
      var n := |a| - 1;
      RecentTwice(a[..n], c, d);
      if a[n] > c {
        RecentSnoc(Recent(a[..n], c), a[n], d);
        assert Recent(a, c) == Recent(a[..n], c) + [a[n]];
      } else {
        assert Recent(a, c) == Recent(a[..n], c);
      }
    }
  }

  lemma {:induction false} RecentNone(a: seq<int>, cutoff: int)
    requires UpTo(a, cutoff)
    ensures Recent(a, cutoff) == []
  {
    if a != [] {
      RecentNone(a[..|a| - 1], cutoff);
    }
  }

  lemma {:induction false} RecentMembers(a: seq<int>, cutoff: int)
    ensures forall t :: t in Recent(a, cutoff) <==> t in a && t > cutoff
    ensures |Recent(a, cutoff)| <= |a|
  {
    if a != [] {
      var n := |a| - 1;
      RecentMembers(a[..n], cutoff);
      assert a == a[..n] + [a[n]];
    }
  }

  lemma {:induction false} RecentOfTail(a: seq<int>, cutoff: int)
    requires a != [] && a[0] <= cutoff
    ensures |Recent(a, cutoff)| < |a|
  {
    assert a == [a[0]] + a[1..];
    RecentSum([a[0]], a[1..], cutoff);
    RecentMembers(a[1..], cutoff);
    assert [a[0]][..0] == [];
  }

  lemma ChargeSnoc(spends: seq<Spend>, s: Spend, cutoff: int)
    ensures Charge(spends + [s], cutoff) == Charge(spends, cutoff) + if s.at > cutoff then s.tokens else 0
  {
    assert (spends + [s])[..|spends|] == spends;
  }

  lemma {:induction false} ChargePruned(spends: seq<Spend>, c: int, d: int)
    requires c <= d
    ensures Charge(RecentSpends(spends, c), d) == Charge(spends, d)
  {
    if spends != [] {
      var n := |spends| - 1;
      ChargePruned(spends[..n], c, d);
      if spends[n].at > c {
        ChargeSnoc(RecentSpends(spends[..n], c), spends[n], d);
        assert RecentSpends(spends, c) == RecentSpends(spends[..n], c) + [spends[n]];
      } else {
        assert RecentSpends(spends, c) == RecentSpends(spends[..n], c);
      }
    }
  }

  /** The logs agree on everything a check at `now` or later can see. */
  ghost predicate SameRecent(a: seq<int>, b: seq<int>, now: int) {
    forall c :: c >= now - MINUTE ==> Recent(a, c) == Recent(b, c)
  }

  /** The rule over the whole history of accepted calls. */
  predicate Allowed(history: seq<int>, now: int, limit: int) {
    |Recent(history, now - MINUTE)| < limit
  }

  function Recorded(history: seq<int>, now: int, limit: int): seq<int> {
    if Allowed(history, now, limit) then history + [now] else history
  }

  lemma RateAgrees(limits: Limits, s: State, history: seq<int>, before: int, now: int, wall: int)
    requires before <= now && SameRecent(s.times, history, before)
    ensures var (next, r) := RateStep(limits, s, now, wall);
            && (r.Admitted? <==> Allowed(history, now, limits.perMinute))
            && SameRecent(next.times, Recorded(history, now, limits.perMinute), now)
  {
    var (next, r) := RateStep(limits, s, now, wall);
    var kept := Recent(s.times, now - MINUTE);
    forall c | c >= now - MINUTE
      ensures Recent(next.times, c) == Recent(Recorded(history, now, limits.perMinute), c)
    {
      RecentTwice(s.times, now - MINUTE, c);
      RecentSnoc(kept, now, c);
      RecentSnoc(history, now, c);
    }
  }

  // ----- a run of rate checks -----

  /** A bucket's state after rate checks at the given times. */
  function After(limits: Limits, start: int, calls: seq<int>): State {
    if calls == [] then Fresh(start)
    else RateStep(limits, After(limits, start, calls[..|calls| - 1]), calls[|calls| - 1], calls[|calls| - 1]).0
  }

  /** The decision on the call at `now`, made by a clock that reads `wall` when it is reported. */
  function Decision(limits: Limits, start: int, calls: seq<int>, now: int, wall: int): Admission {
    RateStep(limits, After(limits, start, calls), now, wall).1
  }

  /** The calls that the whole-history rule accepts. */
  function History(limit: int, calls: seq<int>): seq<int> {
    if calls == [] then []
    else Recorded(History(limit, calls[..|calls| - 1]), calls[|calls| - 1], limit)
  }

  lemma {:induction false} BucketFollowsHistory(limits: Limits, start: int, calls: seq<int>, now: int)
    requires Ordered(calls) && (calls != [] ==> calls[|calls| - 1] <= now)
    ensures SameRecent(After(limits, start, calls).times, History(limits.perMinute, calls), now)
  {
    hide Recent, RateStep;
    if calls != [] {
      var n := |calls| - 1;
      BucketFollowsHistory(limits, start, calls[..n], calls[n]);
      RateAgrees(limits, After(limits, start, calls[..n]), History(limits.perMinute, calls[..n]),
                 calls[n], calls[n], calls[n]);
    }
  }

  lemma DecidesByHistory(limits: Limits, start: int, calls: seq<int>, now: int, wall: int)
    requires Ordered(calls + [now])
    ensures Decision(limits, start, calls, now, wall).Admitted? <==>
              Allowed(History(limits.perMinute, calls), now, limits.perMinute)
  {
    hide Recent, RateStep, After, History, Ordered, SameRecent;
    OrderedPrefix(calls, now);
    BucketFollowsHistory(limits, start, calls, now);
    RateAgrees(limits, After(limits, start, calls), History(limits.perMinute, calls), now, now, wall);
  }

  /** The pruned log decides like the full history: accept iff fewer than the limit in the last minute, of which this
      very nanosecond is the last. */
  lemma RateRefinesHistory(limits: Limits, start: int, calls: seq<int>, now: int, wall: int)
    requires Ordered(calls + [now])
    ensures Decision(limits, start, calls, now, wall).Admitted? <==>
              |Between(History(limits.perMinute, calls), now - 59_999_999_999, now)| < limits.perMinute
  {
    hide Recent, History, Ordered, Between, Decision;
    OrderedPrefix(calls, now);
    DecidesByHistory(limits, start, calls, now, wall);
    HistoryUpTo(limits.perMinute, calls, now);
    BetweenIsRecent(History(limits.perMinute, calls), now - 60_000_000_000, now);
  }

  lemma OrderedPrefix(calls: seq<int>, now: int)
    requires Ordered(calls + [now])
    ensures Ordered(calls) && UpTo(calls, now)
  {
    var all := calls + [now];
    assert forall i :: 0 <= i < |calls| ==> all[i] == calls[i];
    forall i | 0 <= i < |calls|
      ensures calls[i] <= now
    {
      assert all[i] <= all[|calls|];
    }
  }

  // ----- every window -----

  function Between(times: seq<int>, lo: int, hi: int): seq<int> {
    if times == [] then []
    else
      var n := |times| - 1;
      Between(times[..n], lo, hi) + if lo <= times[n] <= hi then [times[n]] else []
  }

  lemma {:induction false} BetweenInRecent(times: seq<int>, lo: int, hi: int, cutoff: int)
    requires cutoff < lo
    ensures |Between(times, lo, hi)| <= |Recent(times, cutoff)|
  {
    if times != [] {
      BetweenInRecent(times[..|times| - 1], lo, hi, cutoff);
    }
  }

  lemma BetweenSnoc(times: seq<int>, t: int, lo: int, hi: int)
    ensures Between(times + [t], lo, hi) == Between(times, lo, hi) + if lo <= t <= hi then [t] else []
  {
    assert (times + [t])[..|times|] == times;
  }

  /** Every window shorter than a minute, so every half-open minute, holds at most the limit. */
  lemma {:induction false} MinuteHoldsLimit(limit: nat, calls: seq<int>, lo: int, hi: int)
    requires hi - lo < 60_000_000_000
    ensures |Between(History(limit, calls), lo, hi)| <= limit
  {
    hide History, Between, Recent;
    if calls == [] {
      NoHistory(limit, lo, hi);
    } else {
      var n := |calls| - 1;
      var h := History(limit, calls[..n]);
      MinuteHoldsLimit(limit, calls[..n], lo, hi);
      assert calls == calls[..n] + [calls[n]];
      HistorySnoc(limit, calls[..n], calls[n]);
      BetweenSnoc(h, calls[n], lo, hi);
      if lo <= calls[n] <= hi {
        BetweenInRecent(h, lo, hi, calls[n] - MINUTE);
      }
    }
  }

  lemma NoHistory(limit: nat, lo: int, hi: int)
    ensures Between(History(limit, []), lo, hi) == []
  {
  }

  /** A closed minute can hold one more. */
  lemma ClosedMinuteHoldsMore()
    ensures Between(History(1, [0, 60_000_000_000]), 0, 60_000_000_000) == [0, 60_000_000_000]
  {
    assert [0, MINUTE][..1] == [0] && [0][..0] == [];
    assert Recent([], 0 - MINUTE) == [];
    assert History(1, []) == [];
    assert History(1, [0]) == [] + [0];
    assert Recent([0], 0) == Recent([], 0) + [];
    assert History(1, [0, MINUTE]) == [0] + [MINUTE];
    BetweenSnoc([0], MINUTE, 0, MINUTE);
    BetweenSnoc([], 0, 0, MINUTE);
    assert [] + [0] == [0];
  }

  // ----- waiting as told -----

  lemma {:induction false} HistoryUpTo(limit: int, calls: seq<int>, last: int)
    requires UpTo(calls, last)
    ensures UpTo(History(limit, calls), last)
  {
    if calls != [] {
      HistoryUpTo(limit, calls[..|calls| - 1], last);
    }
  }

  lemma {:induction false} BetweenIsRecent(times: seq<int>, cutoff: int, hi: int)
    requires UpTo(times, hi)
    ensures Between(times, cutoff + 1, hi) == Recent(times, cutoff)
  {
    if times != [] {
      BetweenIsRecent(times[..|times| - 1], cutoff, hi);
    }
  }

  /** The decisions on `more` after `calls` are all refusals. */
  predicate AllRefused(limit: int, calls: seq<int>, more: seq<int>) {
    forall i :: 0 <= i < |more| ==> !Allowed(History(limit, calls + more[..i]), more[i], limit)
  }

  lemma {:induction false} RefusalsLeaveNoTrace(limit: int, calls: seq<int>, more: seq<int>)
    requires AllRefused(limit, calls, more)
    ensures History(limit, calls + more) == History(limit, calls)
  {
    hide Allowed, History, AllRefused;
    if more == [] {
      assert calls + more == calls;
    } else {
      var n := |more| - 1;
      AllRefusedPrefix(limit, calls, more);
      RefusalsLeaveNoTrace(limit, calls, more[..n]);
      HistorySnoc(limit, calls + more[..n], more[n]);
      assert calls + more == calls + more[..n] + [more[n]];
    }
  }

  lemma HistorySnoc(limit: int, calls: seq<int>, now: int)
    ensures History(limit, calls + [now]) == Recorded(History(limit, calls), now, limit)
  {
    assert (calls + [now])[..|calls|] == calls;
  }

  lemma AllRefusedPrefix(limit: int, calls: seq<int>, more: seq<int>)
    requires AllRefused(limit, calls, more) && more != []
    ensures AllRefused(limit, calls, more[..|more| - 1])
    ensures !Allowed(History(limit, calls + more[..|more| - 1]), more[|more| - 1], limit)
  {
    hide Allowed, History;
    var less := more[..|more| - 1];
    forall i | 0 <= i < |less|
      ensures !Allowed(History(limit, calls + less[..i]), less[i], limit)
    {
      assert less[..i] == more[..i];
    }
  }

  lemma SecondsCover(d: int, elapsed: int)
    requires elapsed >= 0 && elapsed >= (Seconds(d) + 1) * SECOND
    ensures d <= elapsed
  {
  }

  /** The seconds announced are enough for what is left of `expiry`, and one fewer would not be more than enough. When
      it has passed already, whole seconds are cut off towards zero. */
  lemma RetryAfterMeans(expiry: int, wall: int)
    ensures var r, left := RetryAfter(expiry, wall), expiry - wall;
            if left >= 0 then (r - 1) * 1_000_000_000 <= left < r * 1_000_000_000
            else (r - 2) * 1_000_000_000 < left <= (r - 1) * 1_000_000_000
  {
  }

  /** A full minute drains once its oldest call is a minute old. */
  lemma Drained(limit: nat, calls: seq<int>, now: int, later: int)
    requires UpTo(calls, now)
    requires now <= later && !Allowed(History(limit, calls), now, limit) && limit >= 1
    requires Recent(History(limit, calls), now - MINUTE)[0] + MINUTE <= later
    ensures Allowed(History(limit, calls), later, limit)
  {
    var history := History(limit, calls);
    var kept := Recent(history, now - MINUTE);
    HistoryUpTo(limit, calls, now);
    BetweenIsRecent(history, now - MINUTE, now);
    MinuteHoldsLimit(limit, calls, now - MINUTE + 1, now);
    RecentOfTail(kept, later - MINUTE);
    RecentTwice(history, now - MINUTE, later - MINUTE);
  }

  lemma RefusedAs(limits: Limits, start: int, calls: seq<int>, now: int, wall: int)
    requires limits.perMinute >= 1
    requires Ordered(calls + [now]) && Decision(limits, start, calls, now, wall).RateLimited?
    ensures var kept := Recent(History(limits.perMinute, calls), now - MINUTE);
            && kept != []
            && Decision(limits, start, calls, now, wall).retryAfter == RetryAfter(kept[0] + MINUTE, wall)
    ensures !Allowed(History(limits.perMinute, calls), now, limits.perMinute)
    ensures UpTo(calls, now)
  {
    hide Recent, History, After, Ordered, Seconds;
    OrderedPrefix(calls, now);
    if calls != [] {
      assert calls[|calls| - 1] <= now;
    }
    BucketFollowsHistory(limits, start, calls, now);
    assert Recent(After(limits, start, calls).times, now - MINUTE) ==
             Recent(History(limits.perMinute, calls), now - MINUTE);
  }

  /** Refused at `now` and told to wait, a caller who waits that long, while nothing else is accepted, is
      accepted. */
  lemma WaitingGuaranteesAcceptance(limits: Limits, start: int, calls: seq<int>, now: int, wall: int,
                                    refused: seq<int>, later: int, wall': int)
    requires limits.perMinute >= 1 && now <= wall
    requires Ordered(calls + [now] + refused + [later])
    requires Decision(limits, start, calls, now, wall).RateLimited?
    requires AllRefused(limits.perMinute, calls, [now] + refused)
    requires later >= wall && later >= wall + Decision(limits, start, calls, now, wall).retryAfter * SECOND
    ensures Decision(limits, start, calls + [now] + refused, later, wall').Admitted?
  {
    var limit := limits.perMinute;
    hide Recent, History, After, AllRefused, Ordered, RateStep, Seconds, Decision;
    OrderedPrefix(calls + [now] + refused, later);
    OrderedParts(calls + [now], refused);
    RefusedAs(limits, start, calls, now, wall);
    var kept := Recent(History(limit, calls), now - MINUTE);
    SecondsCover(kept[0] + MINUTE - wall, later - wall);
    Drained(limit, calls, now, later);
    RefusalsLeaveNoTrace(limit, calls, [now] + refused);
    assert calls + ([now] + refused) == calls + [now] + refused;
    DecidesByHistory(limits, start, calls + [now] + refused, later, wall');
  }

  lemma OrderedParts(a: seq<int>, b: seq<int>)
    requires Ordered(a + b)
    ensures Ordered(a)
  {
    assert forall i :: 0 <= i < |a| ==> (a + b)[i] == a[i];
  }
}
