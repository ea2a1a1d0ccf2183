/** The per-portfolio daily cap (backend/app/ratelimit/caps.py): two usage stores behind one façade,
    and the deferral to the next UTC day (`_next_utc_midnight` in the engine). */
module DailyCap {
  type PortfolioId = nat

  // A counter per portfolio and UTC day.
  type Usage = map<(PortfolioId, int), nat>

  datatype CapDecision = CapDecision(allowed: bool, used: int, cap: int)

  function Count(usage: Usage, key: (PortfolioId, int)): nat
  {
    if key in usage then usage[key] else 0
  }

  // One reservation against the table: the guarded UPSERT, then the read for the message.
  function Upsert(usage: Usage, key: (PortfolioId, int), cap: int): (CapDecision, Usage)
  {
    if key in usage && cap > 0 && usage[key] < cap then
      (CapDecision(true, usage[key] + 1, cap), usage[key := usage[key] + 1])
    else if key !in usage && cap > 0 then
      (CapDecision(true, 1, cap), usage[key := 1])
    else
      (CapDecision(false, if key in usage then usage[key] else cap, cap), usage)
  }

  // One reservation against the dictionary.
  function Bump(usage: Usage, key: (PortfolioId, int), cap: int): (CapDecision, Usage)
  {
    var used := Count(usage, key);
    if used >= cap then (CapDecision(false, used, cap), usage)
    else (CapDecision(true, used + 1, cap), usage[key := used + 1])
  }

  class PostgresDailyUsageStore {
    var rows: Usage

    constructor ()
      ensures rows == map[]
    {
      rows := map[];
    }

    method TryIncrement(portfolio: PortfolioId, day: int, cap: int) returns (d: CapDecision)
      modifies this
      ensures (d, rows) == Upsert(old(rows), (portfolio, day), cap)
      ensures forall key ::
        Count(rows, key) == Count(old(rows), key) + if d.allowed && key == (portfolio, day) then 1 else 0
      ensures d.cap == cap
      ensures d.used == if d.allowed || (portfolio, day) in rows then Count(rows, (portfolio, day)) else cap
      ensures d.allowed <==> old(Count(rows, (portfolio, day))) < cap
    {
      var key := (portfolio, day);
      if cap > 0 && key !in rows {
        rows := rows[key := 1];
        return CapDecision(true, 1, cap);
      }
      if cap > 0 && rows[key] < cap {
        rows := rows[key := rows[key] + 1];
        return CapDecision(true, rows[key], cap);
      }
      var used := if key in rows then rows[key] else cap;
      return CapDecision(false, used, cap);
    }
  }

  class InMemoryDailyUsageStore {
    var counts: Usage

    constructor ()
      ensures counts == map[]
    {
      counts := map[];
    }

    method TryIncrement(portfolio: PortfolioId, day: int, cap: int) returns (d: CapDecision)
      modifies this
      ensures (d, counts) == Bump(old(counts), (portfolio, day), cap)
      ensures forall key ::
        Count(counts, key) == Count(old(counts), key) + if d.allowed && key == (portfolio, day) then 1 else 0
      ensures d.cap == cap && d.used == Count(counts, (portfolio, day))
      ensures d.allowed <==> old(Count(counts, (portfolio, day))) < cap
    {
      var key := (portfolio, day);
      var used := Count(counts, key);
      if used >= cap {
        return CapDecision(false, used, cap);
      }
      counts := counts[key := used + 1];
      return CapDecision(true, used + 1, cap);
    }
  }

  // The table is said to match the dictionary exactly.  It does, except that a first request under a
  // negative cap is reported with `used == cap` instead of 0.
  lemma StoresAgreeExactlyWhen(usage: Usage, key: (PortfolioId, int), cap: int)
    ensures Upsert(usage, key, cap) == Bump(usage, key, cap) <==> key in usage || cap >= 0
    ensures Upsert(usage, key, cap).0.allowed == Bump(usage, key, cap).0.allowed
    ensures Upsert(usage, key, cap).1 == Bump(usage, key, cap).1
  {
    assert cap < 0 && key !in usage ==> Upsert(usage, key, cap).0.used != Bump(usage, key, cap).0.used;
  }

  // ---- Any sequence of reservations --------------------------------------------------------------

  type Requests = seq<(PortfolioId, int)>

  function Serve(usage: Usage, requests: Requests, cap: int): (seq<CapDecision>, Usage)
    decreases |requests|
  {
    if requests == [] then ([], usage) else
    var (d, next) := Upsert(usage, requests[0], cap);
    var (ds, end) := Serve(next, requests[1..], cap);
    ([d] + ds, end)
  }

  function Granted(requests: Requests, decisions: seq<CapDecision>, key: (PortfolioId, int)): nat
    requires |requests| == |decisions|
  {
    if requests == [] then 0
    else (if requests[0] == key && decisions[0].allowed then 1 else 0) + Granted(requests[1..], decisions[1..], key)
  }

  function Asked(requests: Requests, key: (PortfolioId, int)): nat
  {
    if requests == [] then 0 else (if requests[0] == key then 1 else 0) + Asked(requests[1..], key)
  }

  function Min(a: int, b: int): int
  {
    if a <= b then a else b
  }

  // For every portfolio and day, whatever the interleaving with other keys, the counter grows by the
  // reservations granted, and those are as many as were asked for or as the cap still allowed.
  lemma {:induction false} GrantsFillTheCap(usage: Usage, requests: Requests, cap: nat, key: (PortfolioId, int))
    requires Count(usage, key) <= cap
    ensures var (ds, end) := Serve(usage, requests, cap);
            && |ds| == |requests|
            && Count(end, key) == Count(usage, key) + Granted(requests, ds, key) <= cap
            && Granted(requests, ds, key) == Min(Asked(requests, key), cap - Count(usage, key))
    decreases |requests|
  {
    if requests != [] {
      var (d, next) := Upsert(usage, requests[0], cap);
      GrantsFillTheCap(next, requests[1..], cap, key);
      var (ds, end) := Serve(next, requests[1..], cap);
      assert ([d] + ds)[1..] == ds;
    }
  }

  // ---- Deferral to the next UTC day --------------------------------------------------------------

  const DAY := 86400.0

  function DayOf(t: real): int
  {
    (t / DAY).Floor
  }

  function NextUtcMidnight(t: real): (next: real)
    ensures t < next <= t + DAY
    ensures DayOf(next) == DayOf(t) + 1
    ensures forall u | t <= u < next :: DayOf(u) == DayOf(t)
  {
    var next := (DayOf(t) + 1) as real * DAY;
    assert next / DAY == (DayOf(t) + 1) as real;
    forall u | t <= u < next
      ensures DayOf(u) == DayOf(t)
    {
      assert t / DAY <= u / DAY < (DayOf(t) + 1) as real;
    }
    next
  }

  // Days start at the epoch and last 86400 seconds; the next one is never further away than that.
  lemma DaysAreUtcDays(t: real)
    ensures DayOf(0.0) == 0 && DayOf(t + 86400.0) == DayOf(t) + 1 && NextUtcMidnight(t) <= t + 86400.0
  {
    assert (t + 86400.0) / DAY == t / DAY + 1.0;
  }

  // ---- Draining a backlog ------------------------------------------------------------------------

  // The daily windows a backlog needs: each serves up to the cap and leaves the rest to the next.
  function DaysFor(n: nat, cap: nat): nat
    requires cap > 0
    decreases n
  {
    if n == 0 then 0 else 1 + DaysFor(n - Min(n, cap), cap)
  }

  // That is the ceiling of n / cap: so many suffice, one fewer does not.
  lemma {:induction false} DaysForIsCeiling(n: nat, cap: nat)
    requires cap > 0
    ensures var w := DaysFor(n, cap); n <= w * cap && (n > 0 ==> (w - 1) * cap < n)
    decreases n
  {
    if n > 0 {
      var w := DaysFor(n - Min(n, cap), cap);
      DaysForIsCeiling(n - Min(n, cap), cap);
      assert (1 + w) * cap == cap + w * cap && w * cap == (w - 1) * cap + cap;
    }
  }
}
