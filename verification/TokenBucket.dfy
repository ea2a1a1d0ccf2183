/** The refilling token bucket (backend/app/ratelimit/buckets.py), over reals.  `acquire` holds a lock
    for one refill-and-take at a time, so any number of coroutines sharing a bucket make a sequence of
    such attempts in some order. */
module TokenBucket {
  datatype Bucket = Bucket(rate: real, capacity: real, tokens: real, last: real) {
    predicate Ok() { rate > 0.0 && 0.0 <= tokens <= capacity }
  }

  function Clamp(amount: real, capacity: real): real
  {
    if amount <= capacity then amount else capacity
  }

  // What `seconds` of waiting pay in.
  function Earned(seconds: real, rate: real): real
  {
    seconds * rate
  }

  // `_refill`: a clock that has not moved on adds nothing.
  function Refill(b: Bucket, now: real): Bucket
  {
    if now > b.last then b.(tokens := Clamp(b.tokens + Earned(now - b.last, b.rate), b.capacity), last := now) else b
  }

  predicate Enough(b: Bucket, now: real, amount: real)
  {
    Refill(b, now).tokens >= Clamp(amount, b.capacity)
  }

  // One attempt under the lock: refill, then take the tokens if they are there.
  function Attempt(b: Bucket, now: real, amount: real): Bucket
  {
    var full := Refill(b, now);
    if Enough(b, now, amount) then full.(tokens := full.tokens - Clamp(amount, b.capacity)) else full
  }

  // ---- Arithmetic --------------------------------------------------------------------------------

  lemma EarnedAdds(rate: real, s: real, t: real)
    requires s >= 0.0 && t >= 0.0 && rate > 0.0
    ensures Earned(s, rate) + Earned(t, rate) == Earned(s + t, rate)
    ensures 0.0 <= Earned(s, rate) <= Earned(s + t, rate)
  {}

  lemma RefillKeepsOk(b: Bucket, now: real)
    requires b.Ok()
    ensures var full := Refill(b, now);
            && full.Ok() && full.rate == b.rate && full.capacity == b.capacity
            && full.last == (if now > b.last then now else b.last)
            && full.tokens <= b.tokens + Earned(full.last - b.last, b.rate)
  {
    EarnedAdds(b.rate, 0.0, 0.0);
    if now > b.last { EarnedAdds(b.rate, now - b.last, 0.0); }
  }

  // Looking in between changes nothing: refilling at s and then at t is refilling at t.
  lemma RefillTwice(b: Bucket, s: real, t: real)
    requires b.Ok() && s <= t
    ensures Refill(Refill(b, s), t) == Refill(b, t)
  {
    if b.last < s < t {
      EarnedAdds(b.rate, s - b.last, t - s);
      assert (s - b.last) + (t - s) == t - b.last;
    }
  }

  // ---- Any interleaving of acquirers -------------------------------------------------------------

  datatype Event = Event(now: real, amount: real)

  predicate Ordered(events: seq<Event>, from: real, to: real)
  {
    && (forall i | 0 <= i < |events| :: from <= events[i].now <= to && events[i].amount >= 0.0)
    && forall i, j | 0 <= i < j < |events| :: events[i].now <= events[j].now
  }

  function Final(b: Bucket, events: seq<Event>): Bucket
    decreases |events|
  {
    if events == [] then b else Final(Attempt(b, events[0].now, events[0].amount), events[1..])
  }

  function Grant(b: Bucket, e: Event): real
  {
    if Enough(b, e.now, e.amount) then Clamp(e.amount, b.capacity) else 0.0
  }

  // The tokens granted by a sequence of attempts.
  function Granted(b: Bucket, events: seq<Event>): real
    decreases |events|
  {
    if events == [] then 0.0
    else Grant(b, events[0]) + Granted(Attempt(b, events[0].now, events[0].amount), events[1..])
  }

  // What a bucket can still grant by the time `to`: its level and what it will be paid until then.
  function Budget(b: Bucket, to: real): real
  {
    b.tokens + Earned(to - b.last, b.rate)
  }

  lemma AttemptSpends(b: Bucket, e: Event, to: real)
    requires b.Ok() && e.amount >= 0.0 && b.last <= to && e.now <= to
    ensures var after := Attempt(b, e.now, e.amount);
            && after.Ok() && after.rate == b.rate && after.capacity == b.capacity
            && after.last == (if e.now > b.last then e.now else b.last)
            && Grant(b, e) + Budget(after, to) <= Budget(b, to)
  {
    RefillKeepsOk(b, e.now);
    var full := Refill(b, e.now);
    EarnedAdds(b.rate, full.last - b.last, to - full.last);
    assert (full.last - b.last) + (to - full.last) == to - b.last;
  }

  // Tokens are never created: what is granted comes out of the budget, and the level stays within
  // [0, capacity].
  lemma {:induction false} GrantedFromBudget(b: Bucket, events: seq<Event>, to: real)
    requires b.Ok() && b.last <= to && Ordered(events, b.last, to)
    ensures Final(b, events).Ok() && Granted(b, events) <= Budget(b, to)
    decreases |events|
  {
    if events == [] {
      EarnedAdds(b.rate, to - b.last, 0.0);
    } else {
      AttemptSpends(b, events[0], to);
      var after := Attempt(b, events[0].now, events[0].amount);
      assert Ordered(events[1..], after.last, to);
      GrantedFromBudget(after, events[1..], to);
    }
  }

  lemma RefilledRunIsTheSame(b: Bucket, events: seq<Event>, from: real, to: real)
    requires b.Ok() && from <= to && Ordered(events, from, to) && events != []
    ensures Granted(Refill(b, from), events) == Granted(b, events)
  {
    RefillTwice(b, from, events[0].now);
  }

  // The window bound: whatever happened before, however the acquirers interleave, at most
  // capacity + rate * (to - from) tokens are granted between two times.
  lemma WindowBound(b: Bucket, events: seq<Event>, from: real, to: real)
    requires b.Ok() && b.last <= from <= to && Ordered(events, from, to)
    ensures Granted(b, events) <= b.capacity + Earned(to - from, b.rate)
  {
    if events == [] {
      EarnedAdds(b.rate, to - from, 0.0);
    } else {
      RefillKeepsOk(b, from);
      RefilledRunIsTheSame(b, events, from, to);
      GrantedFromBudget(Refill(b, from), events, to);
    }
  }

  // ---- The request limiter: rate rpm/60 and capacity rpm, one token a request ---------------------

  function RequestBucket(rpm: nat, tokens: real, last: real): Bucket
  {
    Bucket(rpm as real / 60.0, rpm as real, tokens, last)
  }

  predicate Requests(events: seq<Event>)
  {
    forall e <- events :: e.amount == 1.0
  }

  function GrantedRequests(b: Bucket, events: seq<Event>): nat
    decreases |events|
  {
    if events == [] then 0 else
    (if Enough(b, events[0].now, 1.0) then 1 else 0) + GrantedRequests(Attempt(b, events[0].now, 1.0), events[1..])
  }

  lemma {:induction false} RequestsCountTokens(b: Bucket, events: seq<Event>)
    requires b.capacity >= 1.0 && Requests(events)
    ensures Granted(b, events) == GrantedRequests(b, events) as real
    decreases |events|
  {
    if events != [] {
      assert events[0] in events && forall e <- events[1..] :: e in events;
      RequestsCountTokens(Attempt(b, events[0].now, 1.0), events[1..]);
    }
  }

  lemma MinuteEarns(rpm: nat, from: real)
    ensures Earned(from + 60.0 - from, rpm as real / 60.0) == rpm as real
  {
    assert from + 60.0 - from == 60.0;
    assert 60.0 * (rpm as real / 60.0) == rpm as real;
  }

  // At most twice the configured requests in any sixty seconds.
  lemma TwiceRpmInAnyMinute(rpm: nat, tokens: real, last: real, events: seq<Event>, from: real)
    requires rpm >= 1 && 0.0 <= tokens <= rpm as real && last <= from
    requires Ordered(events, from, from + 60.0) && Requests(events)
    ensures GrantedRequests(RequestBucket(rpm, tokens, last), events) <= 2 * rpm
  {
    var b := RequestBucket(rpm, tokens, last);
    WindowBound(b, events, from, from + 60.0);
    RequestsCountTokens(b, events);
    MinuteEarns(rpm, from);
  }

  function Burst(n: nat, now: real): seq<Event>
  {
    seq(n, _ => Event(now, 1.0))
  }

  lemma {:induction false} BurstIsGranted(b: Bucket, n: nat, now: real, more: seq<Event>)
    requires b.capacity >= 1.0 && b.last == now && b.tokens >= n as real
    ensures GrantedRequests(b, Burst(n, now) + more)
         == n + GrantedRequests(b.(tokens := b.tokens - n as real), more)
    decreases n
  {
    var events := Burst(n, now) + more;
    if n == 0 {
      assert events == more && b.(tokens := b.tokens - 0.0) == b;
    } else {
      assert events[1..] == Burst(n - 1, now) + more;
      var b' := b.(tokens := b.tokens - 1.0);
      BurstIsGranted(b', n - 1, now, more);
      assert b'.(tokens := b'.tokens - (n - 1) as real) == b.(tokens := b.tokens - n as real);
    }
  }

  // The bound is exact: a full bucket grants rpm requests at once and rpm more a minute later.
  lemma TwiceRpmIsReached(rpm: nat, from: real)
    requires rpm >= 1
    ensures var events := Burst(rpm, from) + Burst(rpm, from + 60.0);
            && Ordered(events, from, from + 60.0) && Requests(events)
            && GrantedRequests(RequestBucket(rpm, rpm as real, from), events) == 2 * rpm
  {
    var full, later := RequestBucket(rpm, rpm as real, from), Burst(rpm, from + 60.0);
    BurstIsGranted(full, rpm, from, later);
    var empty := full.(tokens := 0.0);
    var refilled := RequestBucket(rpm, rpm as real, from + 60.0);
    MinuteEarns(rpm, from);
    assert Refill(empty, from + 60.0) == refilled;
    assert Attempt(empty, later[0].now, 1.0) == Attempt(refilled, later[0].now, 1.0);
    assert GrantedRequests(empty, later) == GrantedRequests(refilled, later);
    assert later + [] == later;
    BurstIsGranted(refilled, rpm, from + 60.0, []);
  }

  // ---- The bucket itself ---------------------------------------------------------------------------

  // The injected clock: sleeping takes at least the time asked for.
  class Clock {
    var t: real

    constructor (t: real)
      ensures this.t == t
    {
      this.t := t;
    }

    // `meanwhile` is what the other coroutines do before this one runs again.
    method Sleep(seconds: real, meanwhile: seq<Event>)
      modifies this
      ensures t >= old(t) + seconds && forall e <- meanwhile :: e.now <= t
    {
      var late: real :| late >= 0.0;
      t := t + seconds + late;
      for i := 0 to |meanwhile|
        invariant t >= old(t) + seconds && forall j | 0 <= j < i :: meanwhile[j].now <= t
      {
        if meanwhile[i].now > t { t := meanwhile[i].now; }
      }
    }
  }

  // ---- Waiting for tokens among others -------------------------------------------------------------

  type Rivals = seq<seq<Event>>

  function Meanwhile(rivals: Rivals): seq<Event>
  {
    if rivals == [] then [] else rivals[0]
  }

  function Later(rivals: Rivals): Rivals
  {
    if rivals == [] then [] else rivals[1..]
  }

  predicate NoneNegative(events: seq<Event>)
  {
    forall e <- events :: e.amount >= 0.0
  }

  // One coroutine waits: refused at every time but the last, while the others do what they do.
  predicate Waits(b: Bucket, times: seq<real>, rivals: Rivals, amount: real, after: Bucket)
    decreases |times|
  {
    && times != [] && (Enough(b, times[0], amount) <==> |times| == 1)
    && var next := Attempt(b, times[0], amount);
    if |times| == 1 then after == next
    else Waits(Final(next, Meanwhile(rivals)), times[1..], Later(rivals), amount, after)
  }

  // Everyone's attempts in the order they happen.
  function History(times: seq<real>, rivals: Rivals, amount: real): seq<Event>
  {
    if times == [] then [] else
    var own := [Event(times[0], amount)];
    if |times| == 1 then own else own + Meanwhile(rivals) + History(times[1..], Later(rivals), amount)
  }

  lemma {:induction false} FinalOfBoth(b: Bucket, first: seq<Event>, second: seq<Event>)
    ensures Final(b, first + second) == Final(Final(b, first), second)
    ensures Granted(b, first + second) == Granted(b, first) + Granted(Final(b, first), second)
    decreases |first|
  {
    if first == [] {
      assert first + second == second;
    } else {
      assert (first + second)[1..] == first[1..] + second;
      FinalOfBoth(Attempt(b, first[0].now, first[0].amount), first[1..], second);
    }
  }

  // What the others were granted while one waited.
  function GrantedMeanwhile(b: Bucket, times: seq<real>, rivals: Rivals, amount: real): real
    decreases |times|
  {
    if |times| <= 1 then 0.0 else
    var next := Attempt(b, times[0], amount);
    Granted(next, Meanwhile(rivals))
    + GrantedMeanwhile(Final(next, Meanwhile(rivals)), times[1..], Later(rivals), amount)
  }

  // The wait is one interleaving of attempts, of the kind `WindowBound` speaks about, in which the
  // waiting coroutine gets its tokens once.
  lemma {:induction false} WaitIsAnInterleaving(b: Bucket, times: seq<real>, rivals: Rivals, amount: real,
          after: Bucket)
    requires Waits(b, times, rivals, amount, after)
    ensures after == Final(b, History(times, rivals, amount))
    ensures Granted(b, History(times, rivals, amount))
         == Clamp(amount, b.capacity) + GrantedMeanwhile(b, times, rivals, amount)
    decreases |times|
  {
    var own, next := [Event(times[0], amount)], Attempt(b, times[0], amount);
    FinalOfBoth(b, own, []);
    assert own[1..] == [] && Final(b, own) == next && Granted(b, own) == Grant(b, own[0]);
    if |times| > 1 {
      var mid, rest := Meanwhile(rivals), History(times[1..], Later(rivals), amount);
      SameCapacity(next, mid);
      WaitIsAnInterleaving(Final(next, mid), times[1..], Later(rivals), amount, after);
      FinalOfBoth(next, mid, rest);
      FinalOfBoth(b, own, mid + rest);
      assert own + mid + rest == own + (mid + rest);
    }
  }

  lemma {:induction false} SameCapacity(b: Bucket, events: seq<Event>)
    ensures Final(b, events).capacity == b.capacity && Final(b, events).rate == b.rate
    decreases |events|
  {
    if events != [] { SameCapacity(Attempt(b, events[0].now, events[0].amount), events[1..]); }
  }

  lemma {:induction false} FinalKeepsOk(b: Bucket, events: seq<Event>, to: real)
    requires b.Ok() && b.last <= to && NoneNegative(events) && forall e <- events :: e.now <= to
    ensures Final(b, events).Ok() && Final(b, events).last <= to
    decreases |events|
  {
    if events != [] {
      assert events[0] in events && forall e <- events[1..] :: e in events;
      AttemptSpends(b, events[0], to);
      FinalKeepsOk(Attempt(b, events[0].now, events[0].amount), events[1..], to);
    }
  }

  // However a wait from here ends, with these refusals before it it is a wait from the start.
  ghost predicate Refused(b: Bucket, times: seq<real>, rivals: Rivals, amount: real, now: Bucket, ahead: Rivals)
  {
    forall more, after | more != [] && Waits(now, more, ahead, amount, after) ::
      Waits(b, times + more, rivals, amount, after)
  }

  lemma NoRefusals(b: Bucket, rivals: Rivals, amount: real)
    ensures Refused(b, [], rivals, amount, b, rivals)
  {
    forall more: seq<real>, after | more != [] && Waits(b, more, rivals, amount, after)
      ensures Waits(b, [] + more, rivals, amount, after)
    {
      assert [] + more == more;
    }
  }

  lemma OneMoreRefusal(b: Bucket, times: seq<real>, rivals: Rivals, amount: real, now: Bucket, ahead: Rivals, t: real)
    requires Refused(b, times, rivals, amount, now, ahead) && !Enough(now, t, amount)
    ensures Refused(b, times + [t], rivals, amount, Final(Attempt(now, t, amount), Meanwhile(ahead)), Later(ahead))
  {
    var next := Final(Attempt(now, t, amount), Meanwhile(ahead));
    forall more, after | more != [] && Waits(next, more, Later(ahead), amount, after)
      ensures Waits(b, times + [t] + more, rivals, amount, after)
    {
      assert ([t] + more)[1..] == more && Waits(now, [t] + more, ahead, amount, after);
      assert times + [t] + more == times + ([t] + more);
    }
  }

  lemma ThenGranted(b: Bucket, times: seq<real>, rivals: Rivals, amount: real, now: Bucket, ahead: Rivals, t: real)
    requires Refused(b, times, rivals, amount, now, ahead) && Enough(now, t, amount)
    ensures Waits(b, times + [t], rivals, amount, Attempt(now, t, amount))
  {
    assert Waits(now, [t], ahead, amount, Attempt(now, t, amount));
  }

  class TokenBucket {
    const rate: real
    const capacity: real
    var tokens: real
    var last: real

    ghost function Level(): Bucket
      reads this
    {
      Bucket(rate, capacity, tokens, last)
    }

    constructor (rate: real, capacity: real, now: real)
      ensures Level() == Bucket(rate, capacity, capacity, now)
    {
      this.rate, this.capacity, tokens, last := rate, capacity, capacity, now;
    }

    // The constructor's check: no bucket without a positive rate.
    static method Create(rate: real, capacity: real, now: real) returns (b: TokenBucket?)
      ensures b == null <==> rate <= 0.0
      ensures b != null ==> fresh(b) && b.Level() == Bucket(rate, capacity, capacity, now)
    {
      if rate <= 0.0 { return null; }
      b := new TokenBucket(rate, capacity, now);
    }

    method RefillTo(now: real)
      modifies this
      ensures Level() == Refill(old(Level()), now)
    {
      var elapsed := now - last;
      if elapsed > 0.0 {
        tokens := Clamp(tokens + Earned(elapsed, rate), capacity);
        last := now;
      }
    }

    // The other coroutines' turns at the bucket, while this one sleeps.
    method LetOthers(events: seq<Event>)
      modifies this
      ensures Level() == Final(old(Level()), events)
    {
      ghost var b := Level();
      for i := 0 to |events|
        invariant Final(b, events) == Final(Level(), events[i..])
      {
        assert events[i..][0] == events[i] && events[i..][1..] == events[i + 1..];
        RefillTo(events[i].now);
        if tokens >= Clamp(events[i].amount, capacity) { tokens := tokens - Clamp(events[i].amount, capacity); }
      }
    }

    // `acquire`, with the others' attempts during each of its sleeps: it is refused until the tokens are
    // there and then takes them, and it sleeps at most once more than the others keep it from them.
    method Acquire(amount: real, clock: Clock, rivals: Rivals) returns (ghost times: seq<real>)
      requires Level().Ok() && last <= clock.t && forall r <- rivals :: NoneNegative(r)
      modifies this, clock
      ensures Waits(old(Level()), times, rivals, amount, Level())
      ensures |times| <= |rivals| + 2 && times[0] == old(clock.t) && times[|times| - 1] == clock.t
      ensures amount >= 0.0 ==> Level().Ok()
    {
      var want := Clamp(amount, capacity);
      var ahead := rivals;
      times := [];
      ghost var b := Level();
      NoRefusals(b, rivals, amount);
      while true
        invariant Level().Ok() && last <= clock.t && forall r <- ahead :: NoneNegative(r)
        invariant if |times| <= |rivals| then |times| + |ahead| == |rivals|
                  else |times| == |rivals| + 1 && Enough(Level(), clock.t, amount)
        invariant times == [] ==> clock.t == old(clock.t)
        invariant times != [] ==> times[0] == old(clock.t)
        invariant Refused(b, times, rivals, amount, Level(), ahead)
        decreases |rivals| + 1 - |times|
      {
        ghost var before, t := Level(), clock.t;
        RefillKeepsOk(before, t);
        RefillTo(clock.t);
        if tokens >= want {
          tokens := tokens - want;
          ThenGranted(b, times, rivals, amount, before, ahead, t);
          times := times + [t];
          return;
        }
        OneMoreRefusal(b, times, rivals, amount, before, ahead, t);
        var wait := (want - tokens) / rate;
        ghost var refused := Level();
        clock.Sleep(wait, Meanwhile(ahead));
        LetOthers(Meanwhile(ahead));
        FinalKeepsOk(refused, Meanwhile(ahead), clock.t);
        SleepWasEnough(refused, wait, clock.t, want);
        times, ahead := times + [t], Later(ahead);
      }
    }
  }

  lemma SleepWasEnough(b: Bucket, wait: real, later: real, want: real)
    requires b.Ok() && b.tokens < want <= b.capacity
    requires wait == (want - b.tokens) / b.rate && later >= b.last + wait
    ensures wait > 0.0 && Refill(b, later).tokens >= want
  {
    assert Earned(wait, b.rate) == want - b.tokens;
    assert wait > 0.0;
    EarnedAdds(b.rate, wait, later - b.last - wait);
    assert wait + (later - b.last - wait) == later - b.last;
  }
}
