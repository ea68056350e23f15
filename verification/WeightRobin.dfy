/** Smooth weighted round robin, src/lbs/weightrobin.go. */
module WeightRobin {
  import opened Laps

  datatype Server = Server(id: nat, weight: int)

  datatype Opt = Opt(effectiveWeight: int, currentWeight: int)

  // ---- The balancer

  /** The table entry of a server, made with its weight when it is missing. */
  function Entry(opts: map<nat, Opt>, svr: Server): Opt {
    if svr.id in opts then opts[svr.id] else Opt(svr.weight, 0)
  }

  /** An entry after its server's turn in the loop. */
  function Bump(o: Opt, svr: Server): Opt {
    Opt(if o.effectiveWeight < svr.weight then o.effectiveWeight + 1 else o.effectiveWeight,
        o.currentWeight + o.effectiveWeight)
  }

  /** What one round of the loop does to the table, the total and the best id so far. */
  function Round(opts: map<nat, Opt>, svr: Server, total: int, best: nat): (map<nat, Opt>, int, nat) {
    var o := Entry(opts, svr);
    var opts' := opts[svr.id := Bump(o, svr)];
    var better := best == 0 || best !in opts' || opts'[svr.id].currentWeight > opts'[best].currentWeight;
    (opts', total + o.effectiveWeight, if better then svr.id else best)
  }

  /** The loop over the servers below `i`, from the last to the first. */
  function Pass(opts: map<nat, Opt>, servers: seq<Server>, i: nat, total: int, best: nat): (map<nat, Opt>, int, nat)
    requires i <= |servers|
    decreases i
  {
    if i == 0 then (opts, total, best)
    else
      var (opts', total', best') := Round(opts, servers[i - 1], total, best);
      Pass(opts', servers, i - 1, total', best')
  }

  function Selected(opts: map<nat, Opt>, servers: seq<Server>): (map<nat, Opt>, nat) {
    var (opts', total, best) := Pass(opts, servers, |servers|, 0, 0);
    if best == 0 || best !in opts' then (opts', best)
    else (opts'[best := opts'[best].(currentWeight := opts'[best].currentWeight - total)], best)
  }

  class Balancer {
    var opts: map<nat, Opt>

    constructor ()
      ensures opts == map[]
    {
      opts := map[];
    }

    method Select(servers: seq<Server>) returns (best: nat)
      modifies this
      ensures (opts, best) == Selected(old(opts), servers)
    {
      var total := 0;
      var l := |servers|;
      best := 0;
      if 0 >= l {
        return;
      }
      var i := l - 1;
      while i >= 0
        invariant -1 <= i < |servers|
        invariant Pass(old(opts), servers, |servers|, 0, 0) == Pass(opts, servers, i + 1, total, best)
        invariant best != 0 ==> best in opts
      {
        var svr := servers[i];
        var id := svr.id;
        ghost var round := Round(opts, svr, total, best);
        if id !in opts {
          opts := opts[id := Opt(svr.weight, 0)];
        }
        var wt := opts[id];
        total := total + wt.effectiveWeight;
        wt := wt.(currentWeight := wt.currentWeight + wt.effectiveWeight);
        if wt.effectiveWeight < svr.weight {
          wt := wt.(effectiveWeight := wt.effectiveWeight + 1);
        }
        opts := opts[id := wt];
        assert opts == round.0;
        if best == 0 || best !in opts || wt.currentWeight > opts[best].currentWeight {
          best := id;
        }
        assert (opts, total, best) == round;
        i := i - 1;
      }
      if best == 0 {
        return;
      }
      opts := opts[best := opts[best].(currentWeight := opts[best].currentWeight - total)];
    }
  }

  predicate IsMember(servers: seq<Server>, id: nat) {
    exists j :: 0 <= j < |servers| && servers[j].id == id
  }

  lemma {:induction false} PassMember(opts: map<nat, Opt>, servers: seq<Server>, i: nat, total: int, best: nat)
    requires i <= |servers| && forall j :: 0 <= j < |servers| ==> servers[j].id != 0
    requires if best == 0 then i > 0 else IsMember(servers, best)
    ensures IsMember(servers, Pass(opts, servers, i, total, best).2)
    decreases i
  {
    if i > 0 {
      var (opts', total', best') := Round(opts, servers[i - 1], total, best);
      assert IsMember(servers, servers[i - 1].id);
      PassMember(opts', servers, i - 1, total', best');
    }
  }

  /** Whatever its table holds, the balancer returns one of the servers it is given, and 0 when there are none. */
  lemma SelectsMember(opts: map<nat, Opt>, servers: seq<Server>)
    requires forall j :: 0 <= j < |servers| ==> servers[j].id != 0
    ensures if servers == [] then Selected(opts, servers).1 == 0 else IsMember(servers, Selected(opts, servers).1)
  {
    if servers != [] { PassMember(opts, servers, |servers|, 0, 0); }
  }

  // ---- A fixed list of servers

  function Sum(xs: seq<int>): int {
    if xs == [] then 0 else xs[0] + Sum(xs[1..])
  }

  function Weights(servers: seq<Server>): (ws: seq<int>)
    ensures |ws| == |servers| && forall i :: 0 <= i < |ws| ==> ws[i] == servers[i].weight
  {
    seq(|servers|, i requires 0 <= i < |servers| => servers[i].weight)
  }

  /** Distinct non-zero ids, non-negative weights, not all zero. */
  ghost predicate Fixed(servers: seq<Server>) {
    && (forall i :: 0 <= i < |servers| ==> servers[i].id != 0 && servers[i].weight >= 0)
    && (forall i, j :: 0 <= i < j < |servers| ==> servers[i].id != servers[j].id)
    && |servers| > 0 && Sum(Weights(servers)) > 0
  }

  /** The weights a server stands with when it is compared. */
  function Raised(cur: seq<int>, ws: seq<int>): (r: seq<int>)
    requires |cur| == |ws|
    ensures |r| == |ws| && forall i :: 0 <= i < |ws| ==> r[i] == cur[i] + ws[i]
  {
    seq(|ws|, i requires 0 <= i < |ws| => cur[i] + ws[i])
  }

  /** The largest of `xs` from `i` on; of equals the last. */
  function Largest(xs: seq<int>, i: nat): (k: nat)
    requires i < |xs|
    ensures i <= k < |xs| && forall j :: i <= j < |xs| ==> xs[j] <= xs[k] && (j > k ==> xs[j] < xs[k])
    decreases |xs| - i
  {
    if i + 1 == |xs| then i
    else var k := Largest(xs, i + 1); if xs[i] > xs[k] then i else k
  }

  function Pick(cur: seq<int>, ws: seq<int>): (k: nat)
    requires |cur| == |ws| > 0
    ensures k < |ws|
  {
    Largest(Raised(cur, ws), 0)
  }

  /** The current weights after one more selection. */
  function NextWeights(cur: seq<int>, ws: seq<int>): (r: seq<int>)
    requires |cur| == |ws| > 0
    ensures |r| == |ws|
  {
    var k := Pick(cur, ws);
    Raised(cur, ws)[k := cur[k] + ws[k] - Sum(ws)]
  }

  /** The table holds `effs` as the servers' effective weights, and `cur` as their current ones. */
  ghost predicate HoldsBoth(opts: map<nat, Opt>, servers: seq<Server>, effs: seq<int>, cur: seq<int>) {
    && |cur| == |effs| == |servers|
    && forall i :: 0 <= i < |servers| ==> Entry(opts, servers[i]) == Opt(effs[i], cur[i])
  }

  /** The table holds the servers' weights, and `cur` as their current ones. */
  ghost predicate Holds(opts: map<nat, Opt>, servers: seq<Server>, cur: seq<int>) {
    HoldsBoth(opts, servers, Weights(servers), cur)
  }

  /** Distinct non-zero ids. */
  ghost predicate Listed(servers: seq<Server>) {
    && |servers| > 0 && (forall i :: 0 <= i < |servers| ==> servers[i].id != 0)
    && forall i, j :: 0 <= i < j < |servers| ==> servers[i].id != servers[j].id
  }

  /** An effective weight below the server's weight goes up by one with every selection; it never goes down. */
  function Stepped(eff: int, weight: int): int {
    if eff < weight then eff + 1 else eff
  }

  function SteppedAll(effs: seq<int>, servers: seq<Server>): (r: seq<int>)
    requires |effs| == |servers|
    ensures |r| == |effs|
  {
    seq(|effs|, i requires 0 <= i < |effs| => Stepped(effs[i], servers[i].weight))
  }

  /** The loop's state with the servers from `i` on done. */
  ghost predicate Passing(opts: map<nat, Opt>, servers: seq<Server>, effs: seq<int>, cur: seq<int>, i: nat, total: int,
                          best: nat) {
    && |cur| == |effs| == |servers| && i <= |servers|
    && (forall j :: 0 <= j < i ==> Entry(opts, servers[j]) == Opt(effs[j], cur[j]))
    && (forall j :: i <= j < |servers| ==>
          servers[j].id in opts
          && opts[servers[j].id] == Opt(Stepped(effs[j], servers[j].weight), cur[j] + effs[j]))
    && total == Sum(effs[i..])
    && best == if i == |servers| then 0 else servers[Largest(Raised(cur, effs), i)].id
  }

  /** The loop's choice among the servers from `i` on goes over to the choice from `i - 1` on. */
  lemma PassStep(opts: map<nat, Opt>, servers: seq<Server>, effs: seq<int>, cur: seq<int>, i: nat, total: int,
                 best: nat)
    requires Listed(servers) && 0 < i && Passing(opts, servers, effs, cur, i, total, best)
    ensures var (opts', total', best') := Round(opts, servers[i - 1], total, best);
            Passing(opts', servers, effs, cur, i - 1, total', best')
  {
    hide Sum, Largest;
    var svr := servers[i - 1];
    var (opts', total', best') := Round(opts, svr, total, best);
    assert forall j :: 0 <= j < |servers| && j != i - 1 ==> servers[j].id != svr.id;
    assert total' == Sum(effs[i - 1..]) by { SumFront(effs, i - 1); }
    assert best' == servers[Largest(Raised(cur, effs), i - 1)].id by {
      PassBest(opts, servers, effs, cur, i, total, best);
    }
    hide Raised;
  }

  /** The best id after a round is that of the largest from `i - 1` on. */
  lemma PassBest(opts: map<nat, Opt>, servers: seq<Server>, effs: seq<int>, cur: seq<int>, i: nat, total: int,
                 best: nat)
    requires Listed(servers) && 0 < i && Passing(opts, servers, effs, cur, i, total, best)
    ensures Round(opts, servers[i - 1], total, best).2 == servers[Largest(Raised(cur, effs), i - 1)].id
  {
    hide Sum, Largest;
    var svr := servers[i - 1];
    var r := Raised(cur, effs);
    var opts' := Round(opts, svr, total, best).0;
    LargestFront(r, i - 1);
    if i < |servers| {
      var k := Largest(r, i);
      assert servers[k].id != svr.id;
      assert opts'[servers[k].id] == opts[servers[k].id];
    }
  }

  lemma LargestFront(xs: seq<int>, i: nat)
    requires i < |xs|
    ensures Largest(xs, i) == if i + 1 == |xs| || xs[i] > xs[Largest(xs, i + 1)] then i else Largest(xs, i + 1)
  {
  }

  lemma SumFront(xs: seq<int>, i: nat)
    requires i < |xs|
    ensures Sum(xs[i..]) == xs[i] + Sum(xs[i + 1..])
  {
    assert xs[i..][1..] == xs[i + 1..];
  }

  lemma {:induction false} PassPicks(opts: map<nat, Opt>, servers: seq<Server>, effs: seq<int>, cur: seq<int>, i: nat,
                                     total: int, best: nat)
    requires Listed(servers) && Passing(opts, servers, effs, cur, i, total, best)
    ensures var (opts', total', best') := Pass(opts, servers, i, total, best);
            Passing(opts', servers, effs, cur, 0, total', best')
    decreases i
  {
    if i > 0 {
      PassStep(opts, servers, effs, cur, i, total, best);
      hide Listed, Passing, Round;
      var (opts', total', best') := Round(opts, servers[i - 1], total, best);
      PassPicks(opts', servers, effs, cur, i - 1, total', best');
    }
  }

  /** On any table, Select picks the last of the largest current weights, each raised by its effective weight, lowers it
      by their total, and moves the effective weights one step towards the servers' weights. */
  lemma SelectPicksAny(opts: map<nat, Opt>, servers: seq<Server>, effs: seq<int>, cur: seq<int>)
    requires Listed(servers) && HoldsBoth(opts, servers, effs, cur)
    ensures var (opts', best) := Selected(opts, servers);
            best == servers[Pick(cur, effs)].id
            && HoldsBoth(opts', servers, SteppedAll(effs, servers), NextWeights(cur, effs))
  {
    assert effs[|effs|..] == [] && effs[0..] == effs;
    PassPicks(opts, servers, effs, cur, |servers|, 0, 0);
  }

  /** Select does on the table what Pick and NextWeights do on the list of current weights. */
  lemma SelectPicks(opts: map<nat, Opt>, servers: seq<Server>, cur: seq<int>)
    requires Fixed(servers) && Holds(opts, servers, cur)
    ensures var ws := Weights(servers); var (opts', best) := Selected(opts, servers);
      best == servers[Pick(cur, ws)].id && Holds(opts', servers, NextWeights(cur, ws))
  {
    var ws := Weights(servers);
    SelectPicksAny(opts, servers, ws, cur);
    assert SteppedAll(ws, servers) == ws;
  }

  // ---- Runs of a fresh balancer

  /** The current weights after `n` selections. */
  function Turn(ws: seq<int>, n: nat): (cur: seq<int>)
    requires |ws| > 0
    ensures |cur| == |ws|
  {
    if n == 0 then seq(|ws|, _ => 0) else NextWeights(Turn(ws, n - 1), ws)
  }

  function PickAt(ws: seq<int>, n: nat): (k: nat)
    requires |ws| > 0
    ensures k < |ws|
  {
    Pick(Turn(ws, n), ws)
  }

  /** How often `i` is picked in the selections from `a` up to `b`. */
  function Chosen(ws: seq<int>, i: nat, a: nat, b: nat): int
    requires |ws| > 0
    decreases b
  {
    if b <= a then 0 else Chosen(ws, i, a, b - 1) + if PickAt(ws, b - 1) == i then 1 else 0
  }

  lemma {:induction false} SumUpdate(xs: seq<int>, k: nat, x: int)
    requires k < |xs|
    ensures Sum(xs[k := x]) == Sum(xs) - xs[k] + x
  {
    if k > 0 {
      SumUpdate(xs[1..], k - 1, x);
      assert xs[k := x][1..] == xs[1..][k - 1 := x];
    } else {
      assert xs[k := x][1..] == xs[1..];
    }
  }

  lemma {:induction false} SumRaised(cur: seq<int>, ws: seq<int>)
    requires |cur| == |ws|
    ensures Sum(Raised(cur, ws)) == Sum(cur) + Sum(ws)
  {
    if cur != [] {
      SumRaised(cur[1..], ws[1..]);
      assert Raised(cur, ws)[1..] == Raised(cur[1..], ws[1..]);
    }
  }

  /** If the numbers add up to something positive, one of them is positive, so the largest is. */
  lemma {:induction false} SumAtMost(xs: seq<int>, most: int)
    requires most <= 0 && forall i :: 0 <= i < |xs| ==> xs[i] <= most
    ensures Sum(xs) <= 0
  {
    if xs != [] { SumAtMost(xs[1..], most); }
  }

  lemma {:induction false} SumZero(xs: seq<int>)
    requires Sum(xs) == 0 && forall i :: 0 <= i < |xs| ==> xs[i] >= 0
    ensures forall i :: 0 <= i < |xs| ==> xs[i] == 0
  {
    if xs != [] {
      SumNonNegative(xs[1..]);
      SumZero(xs[1..]);
      assert xs == [xs[0]] + xs[1..];
    }
  }

  lemma {:induction false} SumNonNegative(xs: seq<int>)
    requires forall i :: 0 <= i < |xs| ==> xs[i] >= 0
    ensures Sum(xs) >= 0
  {
    if xs != [] { SumNonNegative(xs[1..]); }
  }

  ghost predicate Positive(ws: seq<int>) {
    |ws| > 0 && Sum(ws) > 0 && forall i :: 0 <= i < |ws| ==> ws[i] >= 0
  }

  /** What a selection keeps: the current weights add up to zero and none is a whole turn ahead. */
  ghost predicate Balanced(cur: seq<int>, ws: seq<int>) {
    |cur| == |ws| && Sum(cur) == 0 && forall i :: 0 <= i < |ws| ==> cur[i] > -Sum(ws)
  }

  lemma NextBalanced(cur: seq<int>, ws: seq<int>)
    requires Positive(ws) && Balanced(cur, ws)
    ensures Balanced(NextWeights(cur, ws), ws)
  {
    var r := Raised(cur, ws);
    var k := Pick(cur, ws);
    SumRaised(cur, ws);
    SumUpdate(r, k, cur[k] + ws[k] - Sum(ws));
    if r[k] <= 0 { SumAtMost(r, r[k]); }
    hide Sum;
    forall i | 0 <= i < |ws| ensures NextWeights(cur, ws)[i] > -Sum(ws) {}
  }

  lemma {:induction false} ZerosSum(n: nat)
    ensures Sum(seq(n, _ => 0)) == 0
  {
    if n > 0 {
      ZerosSum(n - 1);
      assert seq(n, _ => 0)[1..] == seq(n - 1, _ => 0);
    }
  }

  lemma {:induction false} TurnBalanced(ws: seq<int>, n: nat)
    requires Positive(ws)
    ensures Balanced(Turn(ws, n), ws)
  {
    if n == 0 {
      ZerosSum(|ws|);
    } else {
      TurnBalanced(ws, n - 1);
      NextBalanced(Turn(ws, n - 1), ws);
    }
  }

  lemma TurnGains(ws: seq<int>, n: nat, i: nat)
    requires i < |ws|
    ensures Turn(ws, n + 1)[i] == Turn(ws, n)[i] + ws[i] - if PickAt(ws, n) == i then Sum(ws) else 0
  {
    hide Sum, Largest;
    assert Turn(ws, n + 1) == NextWeights(Turn(ws, n), ws);
  }

  /** What a server of weight `x` is owed after `n` selections that chose it `c` times, turns being `w`. */
  function Credit(n: int, x: int, w: int, c: int): int {
    n * x - w * c
  }

  lemma CreditStep(n: int, x: int, w: int, c: int)
    ensures Credit(0, x, w, 0) == 0
    ensures Credit(n + 1, x, w, c) == Credit(n, x, w, c) + x
    ensures Credit(n + 1, x, w, c + 1) == Credit(n, x, w, c) + x - w
  {
  }

  /** A current weight is what its server has gained, less a whole turn for each time it was chosen. */
  lemma {:induction false} TurnAccount(ws: seq<int>, n: nat, i: nat)
    requires i < |ws|
    ensures Turn(ws, n)[i] == Credit(n, ws[i], Sum(ws), Chosen(ws, i, 0, n))
  {
    hide Credit, Sum, Turn, PickAt;
    if n > 0 {
      TurnAccount(ws, n - 1, i);
      TurnGains(ws, n - 1, i);
      CreditStep(n - 1, ws[i], Sum(ws), Chosen(ws, i, 0, n - 1));
    } else {
      TurnStart(ws);
      CreditStep(0, ws[i], Sum(ws), 0);
    }
  }

  /** Multiples of `w` less than one `w` below zero are not below zero. */
  lemma WholeTurns(w: int, a: int, b: int)
    requires w > 0 && w * a - w * b > -w
    ensures w * a - w * b >= 0 && (w * a == w * b ==> a == b)
  {
    assert w * (b - a) == w * b - w * a;
    Multiple(w, b - a);
    if w * (b - a) == 0 { assert b - a == 0; }
  }

  /** After as many selections as the weights add up to, everything is as at the start. */
  lemma TurnComesRound(ws: seq<int>)
    requires Positive(ws)
    ensures Turn(ws, Sum(ws)) == Turn(ws, 0)
  {
    var w := Sum(ws);
    var cur := Turn(ws, w);
    TurnBalanced(ws, w);
    hide Sum, Turn, Chosen;
    forall i | 0 <= i < |ws| ensures cur[i] >= 0 {
      TurnAccount(ws, w, i);
      WholeTurns(w, ws[i], Chosen(ws, i, 0, w));
    }
    SumZero(cur);
    assert Turn(ws, 0) == seq(|ws|, _ => 0) by { TurnStart(ws); }
  }

  lemma TurnStep(ws: seq<int>, n: nat)
    requires |ws| > 0
    ensures Turn(ws, n + 1) == NextWeights(Turn(ws, n), ws)
  {
  }

  lemma TurnStart(ws: seq<int>)
    requires |ws| > 0
    ensures Turn(ws, 0) == seq(|ws|, _ => 0)
  {
  }

  lemma {:induction false} TurnRepeats(ws: seq<int>, n: nat)
    requires Positive(ws)
    ensures Turn(ws, n + Sum(ws)) == Turn(ws, n)
  {
    hide Turn, Sum, NextWeights;
    if n == 0 {
      TurnComesRound(ws);
    } else {
      TurnRepeats(ws, n - 1);
      TurnStep(ws, n - 1);
      TurnStep(ws, n - 1 + Sum(ws));
    }
  }

  lemma {:induction false} ChosenShifts(ws: seq<int>, i: nat, a: nat, b: nat)
    requires |ws| > 0 && a < b
    ensures Chosen(ws, i, a, b) == Chosen(ws, i, a + 1, b) + if PickAt(ws, a) == i then 1 else 0
  {
    hide PickAt;
    if b > a + 1 {
      ChosenShifts(ws, i, a, b - 1);
    } else {
      assert Chosen(ws, i, a, a) == 0 == Chosen(ws, i, a + 1, a + 1);
    }
  }

  lemma {:induction false} ChosenInWindow(ws: seq<int>, i: nat, m: nat)
    requires Positive(ws) && i < |ws|
    ensures Chosen(ws, i, m, m + Sum(ws)) == ws[i]
  {
    hide Sum, Turn, Pick;
    var w := Sum(ws);
    if m == 0 {
      TurnAccount(ws, w, i);
      TurnComesRound(ws);
      TurnStart(ws);
      hide Chosen;
      WholeTurns(w, ws[i], Chosen(ws, i, 0, w));
    } else {
      ChosenInWindow(ws, i, m - 1);
      ChosenShifts(ws, i, m - 1, m - 1 + w);
      TurnRepeats(ws, m - 1);
      assert PickAt(ws, m - 1 + w) == PickAt(ws, m - 1);
    }
  }

  // ---- Main results, in the balancer's own terms

  /** The table of a fresh balancer after `n` selections from `servers`. */
  function Table(servers: seq<Server>, n: nat): map<nat, Opt> {
    if n == 0 then map[] else Selected(Table(servers, n - 1), servers).0
  }

  /** The server that selection `n` (from 0) returns. */
  function Choice(servers: seq<Server>, n: nat): nat {
    Selected(Table(servers, n), servers).1
  }

  function Count(servers: seq<Server>, id: nat, a: nat, b: nat): int
    decreases b
  {
    if b <= a then 0 else Count(servers, id, a, b - 1) + if Choice(servers, b - 1) == id then 1 else 0
  }

  lemma FixedPositive(servers: seq<Server>)
    requires Fixed(servers)
    ensures Positive(Weights(servers))
  {
  }

  lemma {:induction false} TableHolds(servers: seq<Server>, n: nat)
    requires Fixed(servers)
    ensures Holds(Table(servers, n), servers, Turn(Weights(servers), n))
    ensures Choice(servers, n) == servers[PickAt(Weights(servers), n)].id
  {
    hide Selected, Holds, Pick, NextWeights;
    if n == 0 {
      assert Holds(map[], servers, Turn(Weights(servers), 0)) by { FreshHolds(servers); }
    } else {
      TableHolds(servers, n - 1);
      SelectPicks(Table(servers, n - 1), servers, Turn(Weights(servers), n - 1));
    }
    SelectPicks(Table(servers, n), servers, Turn(Weights(servers), n));
  }

  lemma FreshHolds(servers: seq<Server>)
    requires |servers| > 0
    ensures Holds(map[], servers, Turn(Weights(servers), 0))
  {
  }

  lemma {:induction false} CountIsChosen(servers: seq<Server>, i: nat, a: nat, b: nat)
    requires Fixed(servers) && i < |servers|
    ensures Count(servers, servers[i].id, a, b) == Chosen(Weights(servers), i, a, b)
    decreases b
  {
    hide Choice, PickAt, Weights;
    if b > a {
      CountIsChosen(servers, i, a, b - 1);
      TableHolds(servers, b - 1);
      assert PickAt(Weights(servers), b - 1) != i ==> Choice(servers, b - 1) != servers[i].id;
    }
  }

  /** Any W consecutive selections, W being the sum of the weights, return each server exactly its weight's number
      of times. */
  lemma EveryWindowIsFair(servers: seq<Server>, i: nat, m: nat)
    requires Fixed(servers) && i < |servers|
    ensures Count(servers, servers[i].id, m, m + Sum(Weights(servers))) == servers[i].weight
  {
    FixedPositive(servers);
    ChosenInWindow(Weights(servers), i, m);
    CountIsChosen(servers, i, m, m + Sum(Weights(servers)));
  }

  /** No server runs a full turn ahead of its share. */
  lemma NeverATurnAhead(servers: seq<Server>, i: nat, n: nat)
    requires Fixed(servers) && i < |servers|
    ensures Sum(Weights(servers)) * Count(servers, servers[i].id, 0, n) < n * servers[i].weight + Sum(Weights(servers))
  {
    FixedPositive(servers);
    TurnBalanced(Weights(servers), n);
    TurnAccount(Weights(servers), n, i);
    CountIsChosen(servers, i, 0, n);
  }

  /** The current weights in the table always add up to zero, and the effective weights are the servers' own. */
  lemma TableBalances(servers: seq<Server>, n: nat) returns (cur: seq<int>)
    requires Fixed(servers)
    ensures |cur| == |servers| && Sum(cur) == 0
    ensures forall i :: 0 <= i < |servers| ==> Entry(Table(servers, n), servers[i]) == Opt(servers[i].weight, cur[i])
  {
    cur := Turn(Weights(servers), n);
    FixedPositive(servers);
    TurnBalanced(Weights(servers), n);
    TableHolds(servers, n);
  }

  // ---- Weights that change

  /** Current weights keep their sum in every selection, whatever the effective weights are. */
  lemma {:induction false} NextKeepsSum(cur: seq<int>, effs: seq<int>)
    requires |cur| == |effs| > 0
    ensures Sum(NextWeights(cur, effs)) == Sum(cur)
  {
    hide Sum, Pick;
    var k := Pick(cur, effs);
    SumRaised(cur, effs);
    SumUpdate(Raised(cur, effs), k, cur[k] + effs[k] - Sum(effs));
  }

  /** The table after `n` selections from the same list, starting with any table. */
  function TableFrom(opts: map<nat, Opt>, servers: seq<Server>, n: nat): map<nat, Opt> {
    if n == 0 then opts else Selected(TableFrom(opts, servers, n - 1), servers).0
  }

  /** The effective weight after `n` selections. */
  function Ramp(eff: int, weight: int, n: nat): int {
    if eff >= weight then eff else if eff + n >= weight then weight else eff + n
  }

  function Effs(opts: map<nat, Opt>, servers: seq<Server>): (r: seq<int>)
    ensures |r| == |servers|
  {
    seq(|servers|, i requires 0 <= i < |servers| => Entry(opts, servers[i]).effectiveWeight)
  }

  function Curs(opts: map<nat, Opt>, servers: seq<Server>): (r: seq<int>)
    ensures |r| == |servers|
  {
    seq(|servers|, i requires 0 <= i < |servers| => Entry(opts, servers[i]).currentWeight)
  }

  lemma SelectSteps(t: map<nat, Opt>, servers: seq<Server>)
    requires Listed(servers)
    ensures var t' := Selected(t, servers).0;
            Effs(t', servers) == SteppedAll(Effs(t, servers), servers)
            && Curs(t', servers) == NextWeights(Curs(t, servers), Effs(t, servers))
  {
    hide Selected, NextWeights, SteppedAll, Entry, Pick;
    SelectPicksAny(t, servers, Effs(t, servers), Curs(t, servers));
  }

  /** A server whose weight is raised reaches it by one with every selection; one whose weight is lowered keeps the
      higher one. Meanwhile the current weights keep their sum. */
  lemma {:induction false} WeightsRamp(opts: map<nat, Opt>, servers: seq<Server>, n: nat, i: nat)
    requires Listed(servers) && i < |servers|
    ensures Effs(TableFrom(opts, servers, n), servers)[i] == Ramp(Effs(opts, servers)[i], servers[i].weight, n)
    ensures Sum(Curs(TableFrom(opts, servers, n), servers)) == Sum(Curs(opts, servers))
  {
    hide Selected, NextWeights, Sum, Listed, Entry;
    if n > 0 {
      WeightsRamp(opts, servers, n - 1, i);
      var t := TableFrom(opts, servers, n - 1);
      SelectSteps(t, servers);
      NextKeepsSum(Curs(t, servers), Effs(t, servers));
      hide Effs, Curs, TableFrom;
      assert Effs(Selected(t, servers).0, servers)[i] == Stepped(Effs(t, servers)[i], servers[i].weight);
      assert TableFrom(opts, servers, n) == Selected(t, servers).0 by { FromStep(opts, servers, n); }
    }
  }

  lemma FromStep(opts: map<nat, Opt>, servers: seq<Server>, n: nat)
    requires n > 0
    ensures TableFrom(opts, servers, n) == Selected(TableFrom(opts, servers, n - 1), servers).0
  {
  }

  /** So after `n` selections the table works with the servers' own weights exactly when none was lowered and none was
      raised by more than `n`. */
  lemma WeightsArrive(opts: map<nat, Opt>, servers: seq<Server>, n: nat)
    requires Listed(servers)
    ensures Effs(TableFrom(opts, servers, n), servers) == Weights(servers) <==>
              forall i :: 0 <= i < |servers| ==>
                servers[i].weight - n <= Effs(opts, servers)[i] <= servers[i].weight
  {
    var t := TableFrom(opts, servers, n);
    forall i | 0 <= i < |servers|
      ensures Effs(t, servers)[i] == Ramp(Effs(opts, servers)[i], servers[i].weight, n)
    {
      WeightsRamp(opts, servers, n, i);
    }
    hide TableFrom, Entry, Listed;
    if Effs(t, servers) == Weights(servers) {
      forall i | 0 <= i < |servers|
        ensures servers[i].weight - n <= Effs(opts, servers)[i] <= servers[i].weight
      {
        assert Effs(t, servers)[i] == Weights(servers)[i];
      }
    }
  }
}
