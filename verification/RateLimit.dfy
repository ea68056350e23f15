/** The token bucket of src/utils/ratelimit/ratelimit.go. Times are whole clock units since some origin and the clock
    does not go back; a tick is one fill interval since the bucket's start. */
module RateLimit {

  datatype Config = Config(start: int, capacity: int, quantum: int, fillInterval: int) {
    predicate Valid() { capacity > 0 && quantum > 0 && fillInterval > 0 }
  }

  /** The fields the bucket updates: the tokens available as of a tick, negative while callers wait. */
  datatype State = State(tokens: int, tick: int)

  datatype Request =
    | Take(now: int, count: int, maxWait: int)
    | TakeAvailable(now: int, count: int)
    | Available(now: int)

  /** Tokens handed out, and the tick from which they count; `tick` and `left` are the bucket's fields then. */
  datatype Grant = Grant(count: int, release: int, tick: int, left: int)

  function CurrentTick(c: Config, now: int): int
    requires c.Valid()
  {
    (now - c.start) / c.fillInterval
  }

  function Adjust(c: Config, s: State, tick: int): State {
    var filled := s.tokens + (tick - s.tick) * c.quantum;
    State(if s.tokens >= c.capacity then s.tokens else if filled > c.capacity then c.capacity else filled, tick)
  }

  /** The tick at which `tokens` owed have been filled in. */
  function EndTick(c: Config, tick: int, owed: int): int
    requires c.Valid()
  {
    tick + (owed + c.quantum - 1) / c.quantum
  }

  class Bucket {
    const config: Config
    var availableTokens: int
    var latestTick: int

    ghost predicate Valid()
      reads this
    {
      config.Valid()
    }

    ghost function Fields(): State
      reads this
    {
      State(availableTokens, latestTick)
    }

    constructor (config: Config)
      requires config.Valid()
      ensures Valid() && this.config == config && Fields() == Initial(config)
    {
      this.config := config;
      availableTokens := config.capacity;
      latestTick := 0;
    }

    method AdjustAvailableTokens(tick: int)
      modifies this
      ensures Fields() == Adjust(config, old(Fields()), tick)
    {
      var lastTick := latestTick;
      latestTick := tick;
      if availableTokens >= config.capacity {
        return;
      }
      availableTokens := availableTokens + (tick - lastTick) * config.quantum;
      if availableTokens > config.capacity {
        availableTokens := config.capacity;
      }
    }

    method TakeAvailable(now: int, count: int) returns (taken: int)
      requires Valid()
      modifies this
      ensures taken >= 0
      ensures (Fields(), Answers(taken, CurrentTick(config, now), availableTokens))
           == Ask(config, old(Fields()), Request.TakeAvailable(now, count))
    {
      if count <= 0 {
        return 0;
      }
      AdjustAvailableTokens(CurrentTick(config, now));
      if availableTokens <= 0 {
        return 0;
      }
      taken := count;
      if taken > availableTokens {
        taken := availableTokens;
      }
      availableTokens := availableTokens - taken;
    }

    method Take(now: int, count: int, maxWait: int) returns (wait: int, ok: bool)
      requires Valid()
      modifies this
      ensures Fields() == Ask(config, old(Fields()), Request.Take(now, count, maxWait)).0
      ensures (wait, ok) == Waits(config, old(Fields()), now, count, maxWait)
    {
      if count <= 0 {
        return 0, true;
      }
      var tick := CurrentTick(config, now);
      AdjustAvailableTokens(tick);
      var avail := availableTokens - count;
      if avail >= 0 {
        availableTokens := avail;
        return 0, true;
      }
      var endTick := tick + (-avail + config.quantum - 1) / config.quantum;
      var endTime := config.start + endTick * config.fillInterval;
      var waitTime := endTime - now;
      if waitTime > maxWait {
        return 0, false;
      }
      availableTokens := avail;
      return waitTime, true;
    }

    method CountAvailable(now: int) returns (tokens: int)
      requires Valid()
      modifies this
      ensures Fields() == Ask(config, old(Fields()), Request.Available(now)).0 && tokens == availableTokens
    {
      AdjustAvailableTokens(CurrentTick(config, now));
      tokens := availableTokens;
    }
  }

  function Initial(c: Config): State { State(c.capacity, 0) }

  function Answers(count: int, tick: int, left: int): seq<Grant> {
    if count <= 0 then [] else [Grant(count, tick, tick, left)]
  }

  /** What a call does: the new fields and the grant it makes, if any. */
  function Ask(c: Config, s: State, r: Request): (State, seq<Grant>)
    requires c.Valid()
  {
    var tick := CurrentTick(c, r.now);
    var s1 := Adjust(c, s, tick);
    match r
    case Available(_) => (s1, [])
    case TakeAvailable(_, count) =>
      if count <= 0 then (s, [])
      else
        var taken := if s1.tokens <= 0 then 0 else if count > s1.tokens then s1.tokens else count;
        (s1.(tokens := s1.tokens - taken), Answers(taken, tick, s1.tokens - taken))
    case Take(now, count, maxWait) =>
      var left := s1.tokens - count;
      if count <= 0 then (s, [])
      else if left >= 0 then (s1.(tokens := left), [Grant(count, tick, tick, left)])
      else
        var endTick := EndTick(c, tick, -left);
        if c.start + endTick * c.fillInterval - now > maxWait then (s1, [])
        else (s1.(tokens := left), [Grant(count, endTick, tick, left)])
  }

  /** What take returns: the time to wait, and whether the tokens were taken. */
  function Waits(c: Config, s: State, now: int, count: int, maxWait: int): (int, bool)
    requires c.Valid()
  {
    var grants := Ask(c, s, Take(now, count, maxWait)).1;
    if count <= 0 then (0, true)
    else if grants == [] then (0, false)
    else (if grants[0].left >= 0 then 0 else c.start + grants[0].release * c.fillInterval - now, true)
  }

  // ---- Runs

  /** The bucket after a sequence of calls, and all grants made. */
  function Run(c: Config, rs: seq<Request>): (State, seq<Grant>)
    requires c.Valid()
  {
    if rs == [] then (Initial(c), [])
    else
      var (s, grants) := Run(c, rs[..|rs| - 1]);
      var (s', more) := Ask(c, s, rs[|rs| - 1]);
      (s', grants + more)
  }

  /** The clock does not go back, nor before the start. */
  ghost predicate Ordered(c: Config, rs: seq<Request>) {
    && (forall i :: 0 <= i < |rs| ==> rs[i].now >= c.start)
    && forall i, j :: 0 <= i < j < |rs| ==> rs[i].now <= rs[j].now
  }

  /** The tokens of the first `k` grants. */
  function Given(grants: seq<Grant>, k: nat): int
    requires k <= |grants|
  {
    if k == 0 then 0 else Given(grants, k - 1) + grants[k - 1].count
  }

  // ---- The invariant

  /** A grant covers what it owes at its release and not a tick earlier. */
  predicate GrantOk(c: Config, g: Grant) {
    && g.count >= 1 && g.release >= g.tick >= 0 && g.left + g.count <= c.capacity
    && g.left + c.quantum * (g.release - g.tick) >= 0
    && (g.release > g.tick ==> g.left + c.quantum * (g.release - g.tick) < c.quantum)
  }

  ghost predicate Inv(c: Config, s: State, grants: seq<Grant>) {
    && s.tokens <= c.capacity && s.tick >= 0
    && Given(grants, |grants|) + s.tokens <= c.capacity + c.quantum * s.tick
    && (forall i :: 0 <= i < |grants| ==> GrantOk(c, grants[i]) && grants[i].tick <= s.tick)
    && (forall i :: 0 <= i < |grants| ==> Bounded(c, s, grants, i))
    && (forall i, j :: 0 <= i < j < |grants| ==> grants[i].release <= grants[j].release)
    && (forall i, j :: 0 <= i < j < |grants| ==> Apart(c, grants, i, j))
    && (forall i :: 0 <= i < |grants| ==> Given(grants, i + 1) <= c.capacity + c.quantum * grants[i].release)
  }

  /** Since grant `i` no more has been given than was left then and filled in since; and a release still to come is
      not later than the tokens owed make it. */
  predicate Bounded(c: Config, s: State, grants: seq<Grant>, i: nat)
    requires i < |grants|
  {
    && Given(grants, |grants|) - Given(grants, i + 1) + s.tokens
       <= grants[i].left + c.quantum * (s.tick - grants[i].tick)
    && (grants[i].release > s.tick ==> s.tokens + c.quantum * (grants[i].release - s.tick) < c.quantum)
  }

  predicate Apart(c: Config, grants: seq<Grant>, i: nat, j: nat)
    requires i < j < |grants|
  {
    Given(grants, j + 1) - Given(grants, i + 1) + grants[j].left
    <= grants[i].left + c.quantum * (grants[j].tick - grants[i].tick)
  }

  lemma {:induction false} GivenPrefix(a: seq<Grant>, b: seq<Grant>, k: nat)
    requires k <= |a|
    ensures Given(a + b, k) == Given(a, k)
  {
    if k > 0 { GivenPrefix(a, b, k - 1); }
  }

  lemma AdjustBounded(c: Config, s: State, grants: seq<Grant>, tick: int, i: nat)
    requires c.Valid() && tick >= s.tick && i < |grants| && Bounded(c, s, grants, i)
    ensures Bounded(c, Adjust(c, s, tick), grants, i)
  {
    hide Given;
    var g := grants[i];
    Fill(c.quantum, s.tick, tick);
    assert c.quantum * (tick - g.tick) == c.quantum * (tick - s.tick) + c.quantum * (s.tick - g.tick);
    assert c.quantum * (g.release - s.tick) == c.quantum * (g.release - tick) + c.quantum * (tick - s.tick);
    if g.release > tick { Fill(c.quantum, tick, g.release - 1); }
  }

  /** Filling up to a later tick keeps the invariant. */
  lemma AdjustKeeps(c: Config, s: State, grants: seq<Grant>, tick: int)
    requires c.Valid() && Inv(c, s, grants) && tick >= s.tick
    ensures Inv(c, Adjust(c, s, tick), grants)
  {
    hide Bounded, Apart, GrantOk, Given;
    Fill(c.quantum, s.tick, tick);
    forall i | 0 <= i < |grants| ensures Bounded(c, Adjust(c, s, tick), grants, i) {
      AdjustBounded(c, s, grants, tick, i);
    }
  }

  /** Multiplication by a positive number keeps the order. */
  lemma Fill(q: int, a: int, b: int)
    requires q > 0 && a <= b
    ensures q * a <= q * b && q * (b - a) == q * b - q * a == (b - a) * q
  {
  }

  /** What a call owes is due at the first tick that covers it. */
  lemma EndTickCovers(c: Config, tick: int, owed: int)
    requires c.Valid() && owed > 0
    ensures var e := EndTick(c, tick, owed); e > tick && owed <= c.quantum * (e - tick) < owed + c.quantum
  {
    var n := (owed + c.quantum - 1) / c.quantum;
    assert owed + c.quantum - 1 == c.quantum * n + (owed + c.quantum - 1) % c.quantum;
    if n <= 0 { Fill(c.quantum, n, 0); }
  }

  /** The grant that a call makes when it takes tokens at the bucket's tick. */
  predicate Makes(c: Config, s: State, g: Grant)
    requires c.Valid()
  {
    && g.count >= 1 && g.tick == s.tick && g.left == s.tokens - g.count
    && g.release == if g.left >= 0 then s.tick else EndTick(c, s.tick, -g.left)
  }

  lemma MakesOk(c: Config, s: State, g: Grant)
    requires c.Valid() && s.tick >= 0 && s.tokens <= c.capacity && Makes(c, s, g)
    ensures GrantOk(c, g) && c.quantum * (g.release - g.tick) == c.quantum * g.release - c.quantum * g.tick
  {
    if g.left < 0 { EndTickCovers(c, s.tick, -g.left); }
  }

  /** No earlier grant is released later. */
  lemma MakesLater(c: Config, s: State, grants: seq<Grant>, g: Grant, i: nat)
    requires c.Valid() && s.tick >= 0 && s.tokens <= c.capacity && Makes(c, s, g) && i < |grants|
        && Bounded(c, s, grants, i)
    ensures grants[i].release <= g.release
  {
    MakesOk(c, s, g);
    hide EndTick;
    if grants[i].release > g.release { Fill(c.quantum, g.release - g.tick + 1, grants[i].release - g.tick); }
  }

  lemma GivenWith(grants: seq<Grant>, g: Grant)
    ensures forall k :: 0 <= k <= |grants| ==> Given(grants + [g], k) == Given(grants, k)
    ensures Given(grants + [g], |grants| + 1) == Given(grants, |grants|) + g.count
  {
    forall k | 0 <= k <= |grants| ensures Given(grants + [g], k) == Given(grants, k) { GivenPrefix(grants, [g], k); }
  }

  lemma GrantBounded(c: Config, s: State, grants: seq<Grant>, g: Grant, i: nat)
    requires c.Valid() && Makes(c, s, g) && GrantOk(c, g)
    requires i <= |grants| && (i < |grants| ==> Bounded(c, s, grants, i))
    ensures Bounded(c, s.(tokens := g.left), grants + [g], i)
  {
    GivenWith(grants, g);
    hide EndTick, Given;
    assert i < |grants| ==> (grants + [g])[i] == grants[i];
  }

  lemma GrantApart(c: Config, s: State, grants: seq<Grant>, g: Grant, i: nat, j: nat)
    requires c.Valid() && Makes(c, s, g) && i < j <= |grants|
    requires if j < |grants| then Apart(c, grants, i, j) else Bounded(c, s, grants, i)
    ensures Apart(c, grants + [g], i, j)
  {
    GivenWith(grants, g);
    hide EndTick, Given;
    assert forall k :: 0 <= k < |grants| ==> (grants + [g])[k] == grants[k];
  }

  lemma GrantGiven(c: Config, s: State, grants: seq<Grant>, g: Grant)
    requires c.Valid() && Makes(c, s, g) && GrantOk(c, g)
    requires Given(grants, |grants|) + s.tokens <= c.capacity + c.quantum * s.tick
    ensures Given(grants + [g], |grants| + 1) <= c.capacity + c.quantum * g.release
    ensures Given(grants + [g], |grants| + 1) + g.left <= c.capacity + c.quantum * s.tick
  {
    GivenWith(grants, g);
    hide EndTick, Given;
    assert c.quantum * (g.release - g.tick) == c.quantum * g.release - c.quantum * g.tick;
  }

  lemma GrantKeeps(c: Config, s: State, grants: seq<Grant>, g: Grant)
    requires c.Valid() && Inv(c, s, grants) && Makes(c, s, g)
    ensures Inv(c, s.(tokens := g.left), grants + [g])
  {
    var n := |grants|;
    var all := grants + [g];
    MakesOk(c, s, g);
    assert g.left <= c.capacity && g.tick == s.tick;
    hide Makes, GrantOk, Bounded, Apart, Given;
    assert all[n] == g && forall i :: 0 <= i < n ==> all[i] == grants[i];
    forall i | 0 <= i < n ensures all[i].release <= g.release { MakesLater(c, s, grants, g, i); }
    forall i | 0 <= i <= n ensures Bounded(c, s.(tokens := g.left), all, i) { GrantBounded(c, s, grants, g, i); }
    forall i, j | 0 <= i < j <= n ensures Apart(c, all, i, j) { GrantApart(c, s, grants, g, i, j); }
    GivenWith(grants, g);
    GrantGiven(c, s, grants, g);
  }

  lemma AskKeeps(c: Config, s: State, grants: seq<Grant>, r: Request)
    requires c.Valid() && Inv(c, s, grants) && CurrentTick(c, r.now) >= s.tick
    ensures Inv(c, Ask(c, s, r).0, grants + Ask(c, s, r).1)
    ensures Ask(c, s, r).0.tick == s.tick || Ask(c, s, r).0.tick == CurrentTick(c, r.now)
  {
    hide Inv;
    var (s', more) := Ask(c, s, r);
    var s1 := Adjust(c, s, CurrentTick(c, r.now));
    AdjustKeeps(c, s, grants, CurrentTick(c, r.now));
    if more == [] {
      assert grants + more == grants;
      assert s' == s || s' == s1;
    } else {
      GrantKeeps(c, s1, grants, more[0]);
      assert more == [more[0]];
    }
  }

  /** The current tick is the last one that has begun. */
  lemma TickHasBegun(c: Config, now: int)
    requires c.Valid()
    ensures var tick := CurrentTick(c, now);
            c.start + tick * c.fillInterval <= now < c.start + (tick + 1) * c.fillInterval
  {
    var x := now - c.start;
    assert x == c.fillInterval * (x / c.fillInterval) + x % c.fillInterval;
    assert (x / c.fillInterval + 1) * c.fillInterval == c.fillInterval * (x / c.fillInterval) + c.fillInterval;
  }

  lemma Later(c: Config, a: int, b: int)
    requires c.Valid() && c.start <= a <= b
    ensures 0 <= CurrentTick(c, a) <= CurrentTick(c, b)
  {
    var x, y := CurrentTick(c, a), CurrentTick(c, b);
    assert a - c.start == c.fillInterval * x + (a - c.start) % c.fillInterval;
    assert b - c.start == c.fillInterval * y + (b - c.start) % c.fillInterval;
    if y < x { Fill(c.fillInterval, y + 1, x); }
    if x < 0 { Fill(c.fillInterval, x, -1); }
  }

  lemma {:induction false} RunKeeps(c: Config, rs: seq<Request>)
    requires c.Valid() && Ordered(c, rs)
    ensures Inv(c, Run(c, rs).0, Run(c, rs).1)
    ensures forall now :: now >= c.start && (forall i :: 0 <= i < |rs| ==> rs[i].now <= now)
              ==> CurrentTick(c, now) >= Run(c, rs).0.tick
  {
    if rs == [] {
      forall now | now >= c.start ensures CurrentTick(c, now) >= 0 { Later(c, now, now); }
    } else {
      hide Inv;
      var n := |rs| - 1;
      var past := rs[..n];
      RunKeeps(c, past);
      AskKeeps(c, Run(c, past).0, Run(c, past).1, rs[n]);
      forall now | now >= c.start && (forall i :: 0 <= i < |rs| ==> rs[i].now <= now)
        ensures CurrentTick(c, now) >= Run(c, rs).0.tick
      {
        assert rs[n].now <= now;
        Later(c, rs[n].now, now);
      }
    }
  }

  // ---- Main results

  /** Calls are released in the order in which they were made. */
  lemma ReleasesInOrder(c: Config, rs: seq<Request>, i: nat, j: nat)
    requires c.Valid() && Ordered(c, rs) && i < j < |Run(c, rs).1|
    ensures Run(c, rs).1[i].release <= Run(c, rs).1[j].release
  {
    RunKeeps(c, rs);
  }

  /** The tokens released at ticks from `a` up to but not including `b`. */
  function Released(grants: seq<Grant>, a: int, b: int): int {
    if grants == [] then 0
    else
      var g := grants[|grants| - 1];
      Released(grants[..|grants| - 1], a, b) + if a <= g.release < b then g.count else 0
  }

  ghost predicate Sorted(grants: seq<Grant>) {
    && (forall i :: 0 <= i < |grants| ==> grants[i].count >= 1)
    && forall i, j :: 0 <= i < j < |grants| ==> grants[i].release <= grants[j].release
  }

  /** The grants from `i` to `j` are those released from `a` up to `b`. */
  ghost predicate IsSpan(grants: seq<Grant>, a: int, b: int, i: nat, j: nat) {
    && i <= j < |grants| && a <= grants[i].release <= grants[j].release < b
    && Released(grants, a, b) == Given(grants, j + 1) - Given(grants, i)
  }

  /** The grants of a window of ticks are consecutive ones. */
  lemma {:induction false} ReleasedSpan(grants: seq<Grant>, a: int, b: int) returns (i: nat, j: nat)
    requires Sorted(grants)
    ensures Released(grants, a, b) == 0 || IsSpan(grants, a, b, i, j)
    ensures grants != [] && a <= grants[|grants| - 1].release < b ==> Released(grants, a, b) > 0 && j == |grants| - 1
  {
    i, j := 0, 0;
    if grants != [] {
      var n := |grants| - 1;
      var past, last := grants[..n], grants[n];
      SortedPast(grants);
      i, j := ReleasedSpan(past, a, b);
      if a <= last.release < b {
        SpanGrows(grants, a, b, i, j);
        if Released(past, a, b) == 0 { i := n; }
        j := n;
      } else if Released(past, a, b) != 0 {
        SpanStays(grants, a, b, i, j);
      }
    }
  }

  lemma SortedPast(grants: seq<Grant>)
    requires Sorted(grants) && grants != []
    ensures Sorted(grants[..|grants| - 1])
  {
  }

  lemma SpanStays(grants: seq<Grant>, a: int, b: int, i: nat, j: nat)
    requires grants != [] && IsSpan(grants[..|grants| - 1], a, b, i, j) && !(a <= grants[|grants| - 1].release < b)
    ensures IsSpan(grants, a, b, i, j)
  {
    var past, last := grants[..|grants| - 1], grants[|grants| - 1];
    assert grants == past + [last];
    GivenPrefix(past, [last], i);
    GivenPrefix(past, [last], j + 1);
    hide Given;
  }

  /** A last grant within the window extends the span, or is one of its own. */
  lemma SpanGrows(grants: seq<Grant>, a: int, b: int, i: nat, j: nat)
    requires Sorted(grants) && grants != [] && a <= grants[|grants| - 1].release < b
    requires var past := grants[..|grants| - 1]; Released(past, a, b) == 0 || IsSpan(past, a, b, i, j)
    requires |grants| > 1 && a <= grants[|grants| - 2].release < b ==>
        Released(grants[..|grants| - 1], a, b) > 0 && j == |grants| - 2
    ensures Released(grants, a, b) > 0
    ensures IsSpan(grants, a, b, if Released(grants[..|grants| - 1], a, b) == 0 then |grants| - 1 else i, |grants| - 1)
  {
    var n := |grants| - 1;
    var past, last := grants[..n], grants[n];
    assert grants == past + [last];
    SortedPast(grants);
    ReleasedPositive(past, a, b);
    GivenPrefix(past, [last], n);
    assert Given(grants, n + 1) == Given(grants, n) + last.count;
    assert Released(grants, a, b) == Released(past, a, b) + last.count;
    if Released(past, a, b) != 0 {
      GivenPrefix(past, [last], i);
      hide Given, Released;
      assert past[i] == grants[i] && past[j] == grants[j];
      assert grants[j].release <= grants[n - 1].release <= last.release;
    }
  }

  lemma {:induction false} ReleasedPositive(grants: seq<Grant>, a: int, b: int)
    requires Sorted(grants)
    ensures Released(grants, a, b) >= 0
  {
    if grants != [] { ReleasedPositive(grants[..|grants| - 1], a, b); }
  }

  /** The tokens released by tick T are at most the capacity and what T ticks fill in. */
  lemma ReleasedByTick(c: Config, rs: seq<Request>, T: nat)
    requires c.Valid() && Ordered(c, rs)
    ensures Released(Run(c, rs).1, 0, T + 1) <= c.capacity + c.quantum * T
  {
    RunKeeps(c, rs);
    var grants := Run(c, rs).1;
    var i, j := ReleasedSpan(grants, 0, T + 1);
    if Released(grants, 0, T + 1) != 0 {
      Fill(c.quantum, grants[j].release, T);
      GivenGrows(grants, i);
    }
  }

  lemma {:induction false} GivenGrows(grants: seq<Grant>, k: nat)
    requires k <= |grants| && forall i :: 0 <= i < |grants| ==> grants[i].count >= 1
    ensures Given(grants, k) >= 0
  {
    if k > 0 { GivenGrows(grants, k - 1); }
  }

  /** In any `w` consecutive ticks at most the capacity, or what one tick fills in beyond the first call's own
      request, is released on top of what the other ticks fill in. */
  lemma ReleasedInWindow(c: Config, rs: seq<Request>, a: int, w: nat, most: int)
    requires c.Valid() && Ordered(c, rs) && w >= 1 && most >= 1
    requires forall i :: 0 <= i < |Run(c, rs).1| ==> Run(c, rs).1[i].count <= most
    ensures Released(Run(c, rs).1, a, a + w)
         <= (if c.capacity >= c.quantum - 1 + most then c.capacity else c.quantum - 1 + most) + c.quantum * (w - 1)
  {
    RunKeeps(c, rs);
    var grants := Run(c, rs).1;
    var i, j := ReleasedSpan(grants, a, a + w);
    Fill(c.quantum, 0, w - 1);
    if Released(grants, a, a + w) != 0 {
      var g, h := grants[i], grants[j];
      SpanBound(c, Run(c, rs).0, grants, i, j);
      Fill(c.quantum, h.release - g.release, w - 1);
    }
  }

  lemma Regroup(q: int, gt: int, gr: int, ht: int, hr: int)
    ensures q * (ht - gt) + q * (hr - ht) == q * (gr - gt) + q * (hr - gr)
  {
  }

  /** From one grant to a later one no more is given than the first one's share and what fills in between. */
  lemma SpanBound(c: Config, s: State, grants: seq<Grant>, i: nat, j: nat)
    requires c.Valid() && Inv(c, s, grants) && i <= j < |grants|
    ensures var g, h := grants[i], grants[j];
      Given(grants, j + 1) - Given(grants, i)
      <= (if c.capacity >= c.quantum - 1 + g.count then c.capacity else c.quantum - 1 + g.count)
          + c.quantum * (h.release - g.release)
  {
    var g, h := grants[i], grants[j];
    assert GrantOk(c, g) && GrantOk(c, h) && (i < j ==> Apart(c, grants, i, j));
    assert Given(grants, i + 1) == Given(grants, i) + g.count;
    hide Inv, GrantOk, Given;
    if i == j { assert c.quantum * (h.tick - g.tick) == 0; }
    TwoGrants(c, g, h, Given(grants, j + 1) - Given(grants, i));
  }

  lemma TwoGrants(c: Config, g: Grant, h: Grant, given: int)
    requires c.Valid() && GrantOk(c, g) && GrantOk(c, h)
    requires given - g.count + h.left <= g.left + c.quantum * (h.tick - g.tick)
    ensures given <= (if c.capacity >= c.quantum - 1 + g.count then c.capacity else c.quantum - 1 + g.count)
                     + c.quantum * (h.release - g.release)
  {
    Regroup(c.quantum, g.tick, g.release, h.tick, h.release);
    var x, y, z, w := c.quantum * (h.tick - g.tick), c.quantum * (h.release - h.tick),
                      c.quantum * (g.release - g.tick), c.quantum * (h.release - g.release);
    assert x + y == z + w && h.left + y >= 0;
    if g.release == g.tick { assert z == 0; }
  }

  /** Requests of take for one token, and in fact for up to one more than the capacity, keep every window within the
      capacity and what the window fills in; takeAvailable may be asked for any number. */
  lemma WindowBound(c: Config, rs: seq<Request>, a: int, w: nat)
    requires c.Valid() && Ordered(c, rs) && w >= 1
    requires forall i :: 0 <= i < |rs| && rs[i].Take? ==> rs[i].count <= c.capacity + 1
    ensures Released(Run(c, rs).1, a, a + w) <= c.capacity + c.quantum * w
  {
    GrantsAsAsked(c, rs, c.capacity + 1);
    ReleasedInWindow(c, rs, a, w, c.capacity + 1);
  }

  lemma {:induction false} GrantsAsAsked(c: Config, rs: seq<Request>, most: int)
    requires c.Valid() && most >= c.capacity && forall i :: 0 <= i < |rs| && rs[i].Take? ==> rs[i].count <= most
    ensures Run(c, rs).0.tokens <= c.capacity
    ensures forall i :: 0 <= i < |Run(c, rs).1| ==> Run(c, rs).1[i].count <= most
  {
    if rs != [] { GrantsAsAsked(c, rs[..|rs| - 1], most); }
  }

  /** Calls at the start: single tokens, the `quantum`th of them replaced by two more than the capacity. */
  function Crowd(c: Config, k: nat): seq<Request> {
    if k == 0 then []
    else Crowd(c, k - 1) + [Take(c.start, if k == c.quantum then c.capacity + 2 else 1, 2 * c.fillInterval)]
  }

  function CrowdLeft(c: Config, k: int): int {
    if k < c.quantum then c.capacity - k else -k - 1
  }

  lemma EndTickNear(c: Config, owed: int)
    requires c.Valid() && 0 < owed <= 2 * c.quantum
    ensures EndTick(c, 0, owed) == if owed <= c.quantum then 1 else 2
  {
    EndTickCovers(c, 0, owed);
    var e := EndTick(c, 0, owed);
    hide EndTick;
    if e > 2 { Fill(c.quantum, 3, e); }
    if owed <= c.quantum && e > 1 { Fill(c.quantum, 2, e); }
  }

  /** One call of the crowd. */
  lemma CrowdCall(c: Config, k: int, r: Request)
    requires c.Valid() && 0 < k < 2 * c.quantum
    requires r == Take(c.start, if k == c.quantum then c.capacity + 2 else 1, 2 * c.fillInterval)
    ensures var (s, more) := Ask(c, State(CrowdLeft(c, k - 1), 0), r);
      s == State(CrowdLeft(c, k), 0) && |more| == 1 && more[0].count == r.count
      && (more[0].release == 2 <==> k >= c.quantum)
  {
    assert CurrentTick(c, c.start) == 0;
    var left := CrowdLeft(c, k);
    if left < 0 {
      EndTickNear(c, -left);
      assert EndTick(c, 0, -left) * c.fillInterval <= 2 * c.fillInterval;
    }
  }

  lemma {:induction false} CrowdRun(c: Config, k: nat)
    requires c.Valid() && k < 2 * c.quantum
    ensures Run(c, Crowd(c, k)).0 == State(CrowdLeft(c, k), 0)
    ensures Released(Run(c, Crowd(c, k)).1, 2, 3) == if k < c.quantum then 0 else c.capacity + 2 + k - c.quantum
  {
    if k > 0 {
      CrowdRun(c, k - 1);
      CrowdLength(c, k - 1);
      var rs := Crowd(c, k);
      assert rs[..k - 1] == Crowd(c, k - 1);
      var (s, grants) := Run(c, Crowd(c, k - 1));
      CrowdCall(c, k, rs[k - 1]);
      var more := Ask(c, s, rs[k - 1]).1;
      assert Run(c, rs) == (Ask(c, s, rs[k - 1]).0, grants + more);
      hide Ask, Run, Crowd, CrowdLeft;
      var all := grants + more;
      assert all[..|all| - 1] == grants && all[|all| - 1] == more[0];
    }
  }

  lemma {:induction false} CrowdLength(c: Config, k: nat)
    ensures |Crowd(c, k)| == k
    ensures forall i :: 0 <= i < k ==> Crowd(c, k)[i].Take? && Crowd(c, k)[i].now == c.start
    ensures c.Valid() ==> forall i :: 0 <= i < k ==> Crowd(c, k)[i].count <= c.capacity + 2
  {
    if k > 0 { CrowdLength(c, k - 1); }
  }

  /** WindowBound is exact: whatever the bucket, requests of up to two more than the capacity can break it. */
  lemma BiggerRequestsBreakWindow(c: Config) returns (rs: seq<Request>)
    requires c.Valid()
    ensures Ordered(c, rs) && forall i :: 0 <= i < |rs| ==> rs[i].Take? && rs[i].count <= c.capacity + 2
    ensures Released(Run(c, rs).1, 2, 3) > c.capacity + c.quantum
  {
    rs := Crowd(c, 2 * c.quantum - 1);
    CrowdLength(c, 2 * c.quantum - 1);
    CrowdRun(c, 2 * c.quantum - 1);
  }

  /** A caller that is told to wait wakes up in the tick its tokens are released in. */
  lemma WaitEndsAtRelease(c: Config, s: State, now: int, count: int, maxWait: int)
    requires c.Valid() && Ask(c, s, Take(now, count, maxWait)).1 != [] && s.tick <= CurrentTick(c, now)
    ensures var (wait, ok) := Waits(c, s, now, count, maxWait);
      var g := Ask(c, s, Take(now, count, maxWait)).1[0];
      ok && g.count == count && CurrentTick(c, now + wait) == g.release && (wait > 0 ==> wait <= maxWait) && wait >= 0
  {
    var g := Ask(c, s, Take(now, count, maxWait)).1[0];
    if g.left < 0 {
      EndTickCovers(c, CurrentTick(c, now), -g.left);
      var x := now - c.start;
      assert x == c.fillInterval * (x / c.fillInterval) + x % c.fillInterval;
      Fill(c.fillInterval, x / c.fillInterval + 1, g.release);
      Exact(g.release, c.fillInterval);
    }
  }

  lemma Exact(n: int, d: int)
    requires d > 0
    ensures (n * d) / d == n
  {
    assert n * d == d * ((n * d) / d) + (n * d) % d;
    if (n * d) / d < n { Fill(d, (n * d) / d + 1, n); }
    if (n * d) / d > n { Fill(d, n + 1, (n * d) / d); }
  }

  // ---- Nothing is withheld

  /** The tokens that filling up to a tick adds beyond the capacity, and loses. */
  function Overflow(c: Config, s: State, tick: int): int {
    s.tokens + (tick - s.tick) * c.quantum - Adjust(c, s, tick).tokens
  }

  /** What a call loses. */
  function Lost(c: Config, s: State, r: Request): int
    requires c.Valid()
  {
    if !r.Available? && r.count <= 0 then 0 else Overflow(c, s, CurrentTick(c, r.now))
  }

  function AllLost(c: Config, rs: seq<Request>): int
    requires c.Valid()
  {
    if rs == [] then 0
    else AllLost(c, rs[..|rs| - 1]) + Lost(c, Run(c, rs[..|rs| - 1]).0, rs[|rs| - 1])
  }

  /** Tokens are lost only at the capacity. */
  lemma LostOnlyWhenFull(c: Config, s: State, r: Request)
    requires c.Valid() && s.tokens <= c.capacity && CurrentTick(c, r.now) >= s.tick
    ensures Lost(c, s, r) >= 0
    ensures Lost(c, s, r) > 0 ==> Adjust(c, s, CurrentTick(c, r.now)).tokens == c.capacity
  {
    Fill(c.quantum, 0, CurrentTick(c, r.now) - s.tick);
  }

  lemma AskConserves(c: Config, s: State, r: Request)
    requires c.Valid()
    ensures var (s', more) := Ask(c, s, r);
      |more| <= 1 && Given(more, |more|) + s'.tokens + Lost(c, s, r) - c.quantum * s'.tick
          == s.tokens - c.quantum * s.tick
  {
    var (s', more) := Ask(c, s, r);
    var tick := CurrentTick(c, r.now);
    assert (tick - s.tick) * c.quantum == c.quantum * tick - c.quantum * s.tick;
    assert more != [] ==> Given(more, 1) == Given(more, 0) + more[0].count;
  }

  lemma {:induction false} TokensBalance(c: Config, rs: seq<Request>)
    requires c.Valid()
    ensures var (s, grants) := Run(c, rs);
            Given(grants, |grants|) + s.tokens + AllLost(c, rs) == c.capacity + c.quantum * s.tick
  {
    if rs == [] {
      assert c.quantum * 0 == 0;
    } else {
      var past := rs[..|rs| - 1];
      TokensBalance(c, past);
      var (s, grants) := Run(c, past);
      AskConserves(c, s, rs[|rs| - 1]);
      var more := Ask(c, s, rs[|rs| - 1]).1;
      hide Ask, Lost;
      GivenConcat(grants, more);
    }
  }

  /** The reference: tokens drip in one by one, and one that finds the bucket full is spilled. */
  function Spilled(capacity: int, tokens: int, drops: int): nat
    decreases drops
  {
    if drops <= 0 then 0
    else if tokens < capacity then Spilled(capacity, tokens + 1, drops - 1)
    else 1 + Spilled(capacity, tokens, drops - 1)
  }

  lemma {:induction false} SpilledIs(capacity: int, tokens: int, drops: int)
    requires tokens <= capacity && drops >= 0
    ensures Spilled(capacity, tokens, drops) == if tokens + drops <= capacity then 0 else tokens + drops - capacity
    decreases drops
  {
    if drops > 0 { SpilledIs(capacity, if tokens < capacity then tokens + 1 else tokens, drops - 1); }
  }

  /** What spills while the bucket is filled up to the tick of a call. */
  function SpilledAt(c: Config, s: State, r: Request): nat
    requires c.Valid()
  {
    if !r.Available? && r.count <= 0 then 0
    else Spilled(c.capacity, s.tokens, (CurrentTick(c, r.now) - s.tick) * c.quantum)
  }

  function AllSpilled(c: Config, rs: seq<Request>): nat
    requires c.Valid()
  {
    if rs == [] then 0
    else AllSpilled(c, rs[..|rs| - 1]) + SpilledAt(c, Run(c, rs[..|rs| - 1]).0, rs[|rs| - 1])
  }

  lemma LostIsSpilled(c: Config, s: State, r: Request)
    requires c.Valid() && s.tokens <= c.capacity && CurrentTick(c, r.now) >= s.tick
    ensures Lost(c, s, r) == SpilledAt(c, s, r)
  {
    var drops := (CurrentTick(c, r.now) - s.tick) * c.quantum;
    Fill(c.quantum, 0, CurrentTick(c, r.now) - s.tick);
    SpilledIs(c.capacity, s.tokens, drops);
  }

  lemma {:induction false} AllLostIsSpilled(c: Config, rs: seq<Request>)
    requires c.Valid() && Ordered(c, rs)
    ensures AllLost(c, rs) == AllSpilled(c, rs)
  {
    if rs != [] {
      var n := |rs| - 1;
      AllLostIsSpilled(c, rs[..n]);
      RunKeeps(c, rs[..n]);
      assert rs[n].now >= c.start && forall i :: 0 <= i < n ==> rs[..n][i].now <= rs[n].now;
      LostIsSpilled(c, Run(c, rs[..n]).0, rs[n]);
    }
  }

  /** Over any calls the tokens handed out and those left are the capacity and what the ticks drip in, less the
      tokens that drip into a full bucket: a call withholds nothing, and no token is lost while there is room. */
  lemma {:induction false} TokensAreConserved(c: Config, rs: seq<Request>)
    requires c.Valid() && Ordered(c, rs)
    ensures var (s, grants) := Run(c, rs);
            Given(grants, |grants|) + s.tokens == c.capacity + c.quantum * s.tick - AllSpilled(c, rs)
  {
    TokensBalance(c, rs);
    AllLostIsSpilled(c, rs);
  }

  /** What Available answers is what a call at the same time can have without waiting: take succeeds at once exactly
      for as many tokens, and takeAvailable takes what there is of them. */
  lemma {:induction false} AvailableCanBeTaken(c: Config, s: State, now: int, count: int)
    requires c.Valid() && count > 0
    ensures var tokens := Ask(c, s, Available(now)).0.tokens;
            && Waits(c, s, now, count, 0) == (0, count <= tokens)
            && var taken := if tokens <= 0 then 0 else if count < tokens then count else tokens;
               Ask(c, s, Request.TakeAvailable(now, count)).1 == Answers(taken, CurrentTick(c, now), tokens - taken)
  {
    var tokens := Ask(c, s, Available(now)).0.tokens;
    if count > tokens {
      var tick, owed := CurrentTick(c, now), count - tokens;
      EndTickCovers(c, tick, owed);
      NotBeforeNextTick(c, now, EndTick(c, tick, owed));
    }
  }

  lemma NotBeforeNextTick(c: Config, now: int, tick: int)
    requires c.Valid() && tick > CurrentTick(c, now)
    ensures c.start + tick * c.fillInterval > now
  {
    var x := now - c.start;
    assert x == c.fillInterval * (x / c.fillInterval) + x % c.fillInterval;
    Fill(c.fillInterval, x / c.fillInterval + 1, tick);
  }

  lemma {:induction false} GivenConcat(a: seq<Grant>, b: seq<Grant>)
    ensures Given(a + b, |a + b|) == Given(a, |a|) + Given(b, |b|)
  {
    if b == [] {
      assert a + b == a;
    } else {
      var n := |b| - 1;
      GivenConcat(a, b[..n]);
      assert a + b == (a + b[..n]) + [b[n]] && b == b[..n] + [b[n]];
      GivenPrefix(a + b[..n], [b[n]], |a| + n);
      GivenPrefix(b[..n], [b[n]], n);
    }
  }

  /** take refuses exactly when no tick within the caller's limit covers the request. */
  lemma RefusesOnlyTooLong(c: Config, s: State, now: int, count: int, maxWait: int)
    requires c.Valid() && count > 0
    ensures var tick := CurrentTick(c, now);
      var owed := count - Adjust(c, s, tick).tokens;
      Ask(c, s, Take(now, count, maxWait)).1 == [] <==>
        owed > 0 && forall e :: e >= tick && c.quantum * (e - tick) >= owed ==>
            c.start + e * c.fillInterval - now > maxWait
  {
    var tick := CurrentTick(c, now);
    var owed := count - Adjust(c, s, tick).tokens;
    if owed > 0 {
      EndTickCovers(c, tick, owed);
      var end := EndTick(c, tick, owed);
      forall e | e >= tick && c.quantum * (e - tick) >= owed ensures end * c.fillInterval <= e * c.fillInterval {
        if e < end { Fill(c.quantum, e - tick, end - tick - 1); }
        Fill(c.fillInterval, if e < end then e else end, e);
      }
    }
  }
}
