/** Sliding windows of one session: the logs a bucket keeps, compacted in place. Times and durations are
    whole nanoseconds. */
module Bucket {

  const SECOND: int := 1_000_000_000
  const MINUTE: int := 60 * SECOND
  const HOUR: int := 60 * MINUTE

  datatype Spend = Spend(at: int, tokens: int)

  datatype Limits = Limits(perMinute: int, perHour: int)

  datatype Admission = Admitted | RateLimited(retryAfter: int) | BudgetExhausted(retryAfter: int)

  /** What a bucket remembers. */
  datatype State = State(times: seq<int>, spends: seq<Spend>, lastSeen: int)

  function Fresh(now: int): State {
    State([], [], now)
  }

  function Recent(times: seq<int>, cutoff: int): seq<int> {
    if times == [] then []
    else
      var n := |times| - 1;
      Recent(times[..n], cutoff) + if times[n] > cutoff then [times[n]] else []
  }

  function RecentSpends(spends: seq<Spend>, cutoff: int): seq<Spend> {
    if spends == [] then []
    else
      var n := |spends| - 1;
      RecentSpends(spends[..n], cutoff) + if spends[n].at > cutoff then [spends[n]] else []
  }

  /** The tokens of the spends after `cutoff`. */
  function Charge(spends: seq<Spend>, cutoff: int): int {
    if spends == [] then 0
    else
      var n := |spends| - 1;
      Charge(spends[..n], cutoff) + if spends[n].at > cutoff then spends[n].tokens else 0
  }

  /** Whole seconds, cut off towards zero. */
  function Seconds(d: int): int {
    if d >= 0 then d / SECOND else -(-d / SECOND)
  }

  /** How long a caller is told to wait for `expiry`, by a clock that reads `wall`. */
  function RetryAfter(expiry: int, wall: int): int {
    Seconds(expiry - wall) + 1
  }

  function RateStep(limits: Limits, s: State, now: int, wall: int): (State, Admission) {
    var kept := Recent(s.times, now - MINUTE);
    if |kept| >= limits.perMinute then
      (s.(times := kept, lastSeen := now), RateLimited(RetryAfter((if kept == [] then 0 else kept[0]) + MINUTE, wall)))
    else
      (s.(times := kept + [now], lastSeen := now), Admitted)
  }

  function TokenStep(limits: Limits, s: State, now: int, wall: int): (State, Admission) {
    var kept := RecentSpends(s.spends, now - HOUR);
    (s.(spends := kept),
     if Charge(s.spends, now - HOUR) >= limits.perHour
     then BudgetExhausted(RetryAfter((if kept == [] then 0 else kept[0].at) + HOUR, wall))
     else Admitted)
  }

  function DeductStep(s: State, now: int, tokens: int): State {
    s.(spends := s.spends + [Spend(now, tokens)])
  }

  /** The compaction in place: each kept time moves down over the ones already read. */
  method CompactTimes(a: array<int>, n: nat, cutoff: int) returns (kept: nat)
    requires n <= a.Length
    modifies a
    ensures kept <= n && a[..kept] == Recent(old(a[..n]), cutoff)
  {
    kept := 0;
    ghost var was := a[..n];
    for i := 0 to n
      invariant kept <= i
      invariant a[..kept] == Recent(was[..i], cutoff)
      invariant forall j :: i <= j < n ==> a[j] == was[j]
    {
      var t := a[i];
      assert was[..i + 1][..i] == was[..i] && was[..i + 1][i] == t;
      if t > cutoff {
        a[kept] := t;
        kept := kept + 1;
        assert a[..kept] == a[..kept - 1] + [t];
      }
    }
    assert was[..n] == was;
  }

  method CompactSpends(a: array<Spend>, n: nat, cutoff: int) returns (kept: nat, total: int)
    requires n <= a.Length
    modifies a
    ensures kept <= n && a[..kept] == RecentSpends(old(a[..n]), cutoff)
    ensures total == Charge(old(a[..n]), cutoff)
  {
    kept, total := 0, 0;
    ghost var was := a[..n];
    for i := 0 to n
      invariant kept <= i
      invariant a[..kept] == RecentSpends(was[..i], cutoff)
      invariant total == Charge(was[..i], cutoff)
      invariant forall j :: i <= j < n ==> a[j] == was[j]
    {
      var d := a[i];
      assert was[..i + 1][..i] == was[..i] && was[..i + 1][i] == d;
      if d.at > cutoff {
        a[kept] := d;
        kept := kept + 1;
        assert a[..kept] == a[..kept - 1] + [d];
        total := total + d.tokens;
      }
    }
    assert was[..n] == was;
  }

  /** Appending behind the first `n` elements: in place when there is room, else in a larger copy. */
  method Append<T>(a: array<T>, n: nat, x: T) returns (b: array<T>)
    requires n <= a.Length
    modifies a
    ensures n < b.Length && b[..n + 1] == old(a[..n]) + [x]
    ensures b == a || fresh(b)
  {
    b := a;
    if n == a.Length {
      b := new T[2 * n + 1](_ => x);
      for i := 0 to n
        invariant a[..] == old(a[..])
        invariant forall j :: 0 <= j < i ==> b[j] == a[j]
      {
        b[i] := a[i];
      }
    }
    b[n] := x;
  }

  /** A bucket. The first `timeCount` and `spendCount` elements of its arrays are in use. */
  class TokenBucket {
    const limits: Limits
    var times: array<int>
    var timeCount: nat
    var spends: array<Spend>
    var spendCount: nat
    var lastSeen: int

    ghost predicate Valid()
      reads this
    {
      timeCount <= times.Length && spendCount <= spends.Length && limits.perMinute >= 1 && limits.perHour >= 1
    }

    ghost function View(): State
      reads this, times, spends
      requires Valid()
    {
      State(times[..timeCount], spends[..spendCount], lastSeen)
    }

    constructor (limits: Limits, now: int)
      requires limits.perMinute >= 1 && limits.perHour >= 1
      ensures Valid() && View() == Fresh(now) && this.limits == limits
      ensures fresh(times) && fresh(spends)
    {
      this.limits := limits;
      times, timeCount, spends, spendCount, lastSeen := new int[0], 0, new Spend[0](_ => Spend(0, 0)), 0, now;
    }

    method AppendTime(t: int)
      requires Valid()
      modifies this`times, this`timeCount, times
      ensures Valid() && View() == old(View()).(times := old(View()).times + [t])
      ensures times == old(times) || fresh(times)
    {
      times := Append(times, timeCount, t);
      timeCount := timeCount + 1;
    }

    method AppendSpend(s: Spend)
      requires Valid()
      modifies this`spends, this`spendCount, spends
      ensures Valid() && View() == old(View()).(spends := old(View()).spends + [s])
      ensures spends == old(spends) || fresh(spends)
    {
      spends := Append(spends, spendCount, s);
      spendCount := spendCount + 1;
    }

    method PruneTimes(cutoff: int)
      requires Valid()
      modifies this`timeCount, times
      ensures Valid() && View() == old(View()).(times := Recent(old(View()).times, cutoff))
    {
      timeCount := CompactTimes(times, timeCount, cutoff);
    }

    method CheckRate(now: int, wall: int) returns (r: Admission)
      requires Valid()
      modifies this`lastSeen, this`times, this`timeCount, times
      ensures Valid() && (View(), r) == RateStep(limits, old(View()), now, wall)
      ensures times == old(times) || fresh(times)
    {
      lastSeen := now;
      PruneTimes(now - MINUTE);
      if timeCount >= limits.perMinute {
        return RateLimited(RetryAfter(times[0] + MINUTE, wall));
      }
      AppendTime(now);
      return Admitted;
    }

    /** `hourlyTokens`: the charge of the last hour, with the log compacted to it. */
    method HourlyTokens(now: int) returns (total: int)
      requires Valid()
      modifies this`spendCount, spends
      ensures Valid() && View() == old(View()).(spends := RecentSpends(old(View()).spends, now - HOUR))
      ensures total == Charge(old(View()).spends, now - HOUR)
    {
      var kept;
      kept, total := CompactSpends(spends, spendCount, now - HOUR);
      spendCount := kept;
    }

    method CheckTokens(now: int, wall: int) returns (r: Admission)
      requires Valid()
      modifies this`spendCount, spends
      ensures Valid() && (View(), r) == TokenStep(limits, old(View()), now, wall)
    {
      ghost var s := View();
      var total := HourlyTokens(now);
      if total >= limits.perHour {
        ChargedLog(s.spends, now - HOUR);
        return BudgetExhausted(RetryAfter(spends[0].at + HOUR, wall));
      }
      return Admitted;
    }

    method Deduct(now: int, tokens: int)
      requires Valid()
      modifies this`spends, this`spendCount, spends
      ensures Valid() && View() == DeductStep(old(View()), now, tokens)
      ensures spends == old(spends) || fresh(spends)
    {
      AppendSpend(Spend(now, tokens));
    }
  }

  lemma {:induction false} ChargedLog(spends: seq<Spend>, cutoff: int)
    ensures RecentSpends(spends, cutoff) == [] ==> Charge(spends, cutoff) == 0
  {
    if spends != [] {
      ChargedLog(spends[..|spends| - 1], cutoff);
    }
  }
}
