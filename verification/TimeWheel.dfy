/** The timing wheel of src/goetty/timewheel.go as a state machine: schedulers, the ticker, the callout worker and
    callers of Stop interleave at every lock section and every access to `ticks`. A lock section is one step. */
module TimeWheel {
  import opened Laps
  import opened Lists

  /** The lists a node can be on: a bucket, a free list, the ticker's expired list, the list being called out. */
  datatype ListId = Bucket(b: nat) | Free(k: nat) | Expired | Callout

  datatype Status = Inactive | Elapsed | Active

  /** A node; `lock` is the index of its mutex. `at` and `call` are history: its list and its current call. */
  datatype Timeout = Timeout(generation: nat, status: Status, deadline: nat, lock: nat, at: ListId, call: nat)

  /** What became of one call of Schedule. */
  datatype Fate = Waiting | Due | Called | Cancelled

  /** One call of Schedule; node and generation are the handle it returns. */
  datatype Call = Call(node: nat, generation: nat, deadline: nat, fate: Fate)

  /** A scheduler that has read `ticks` holds the deadline it computed. */
  datatype Scheduler = Resting | Holding(deadline: nat)

  /** The ticker waits, has counted a tick it has not swept yet, or is about to offer the expired list. */
  datatype Ticker = Sleeping | Counted | Swept

  datatype State = State(
    ticks: nat, lastTick: seq<nat>, lists: map<ListId, seq<nat>>, nodes: seq<Timeout>,
    schedulers: seq<Scheduler>, ticker: Ticker, calls: seq<Call>)

  /** The sizes: `locks` free lists and mutexes, and a multiple of it buckets. */
  datatype Size = Size(locks: nat, laps: nat) {
    predicate Valid() { locks > 0 && laps > 0 }
    function Buckets(): nat { locks * laps }
  }

  function On(s: State, l: ListId): seq<nat> {
    if l in s.lists then s.lists[l] else []
  }

  // ---- The list operations, as the pointer operations do them (see TimeoutList)

  /** Takes node `x` off its list and puts it, as `t`, to the front of list `l`. */
  function Move(s: State, x: nat, l: ListId, t: Timeout): State
    requires x < |s.nodes|
  {
    var from := s.nodes[x].at;
    var off := s.lists[from := Without(On(s, from), x)];
    var lists := off[l := [x] + (if l in off then off[l] else [])];
    s.(lists := lists, nodes := s.nodes[x := t.(at := l)])
  }

  /** putTimeoutLocked after removeLocked: back to the free list of its deadline, with the next generation. */
  function Release(s: State, x: nat, z: Size): State
    requires x < |s.nodes| && z.Valid()
  {
    var t := s.nodes[x];
    Move(s, x, Free(t.deadline % z.locks), t.(status := Inactive, generation := t.generation + 1))
  }

  /** History: the call `c` is settled or comes due. */
  function SetFate(s: State, c: nat, f: Fate): State {
    if c < |s.calls| then s.(calls := s.calls[c := s.calls[c].(fate := f)]) else s
  }

  // ---- The steps

  ghost predicate Init(s: State, z: Size) {
    && z.Valid() && s.ticks == 0 && |s.lastTick| == z.Buckets()
    && (forall b :: 0 <= b < |s.lastTick| ==> s.lastTick[b] == 0)
    && s.lists == map[] && s.nodes == [] && s.ticker == Sleeping && s.calls == []
    && forall j :: 0 <= j < |s.schedulers| ==> s.schedulers[j] == Resting
  }

  /** Lists hold nodes. */
  ghost predicate Shape(s: State, z: Size) {
    z.Valid() && |s.lastTick| == z.Buckets() && forall l, x :: x in On(s, l) ==> x < |s.nodes|
  }

  /** Schedule reads `ticks`, outside any lock. */
  function ReadTicks(s: State, j: nat, dTicks: nat): State
    requires j < |s.schedulers|
  {
    s.(schedulers := s.schedulers[j := Holding(s.ticks + dTicks)])
  }

  /** getTimeoutLocked: the head of the free list, or a new node made for this lock. A new node is put on the
      free list first, so that it can be taken from there like the others. */
  function WithFreeNode(s: State, k: nat): State {
    if On(s, Free(k)) != [] then s
    else s.(nodes := s.nodes + [Timeout(0, Inactive, 0, k, Free(k), 0)], lists := s.lists[Free(k) := [|s.nodes|]])
  }

  /** The locked part of Schedule on a free node `x`: into the bucket, or, when the bucket has been swept for the
      deadline already, back to the free list and the callback run at once. */
  function Place(s: State, x: nat, deadline: nat, z: Size): State
    requires z.Valid() && |s.lastTick| == z.Buckets() && x < |s.nodes|
  {
    var b := deadline % z.Buckets();
    var t := s.nodes[x].(deadline := deadline, status := Active, call := |s.calls|);
    var inline := s.lastTick[b] >= deadline;
    var call := Call(x, t.generation, deadline, if inline then Called else Waiting);
    var s2 := s.(calls := s.calls + [call], nodes := s.nodes[x := t]);
    if inline then Release(s2, x, z) else Move(s2, x, Bucket(b), t)
  }

  ghost function Insert(s: State, j: nat, z: Size): State
    requires Shape(s, z) && j < |s.schedulers| && s.schedulers[j].Holding?
  {
    var deadline := s.schedulers[j].deadline;
    var k := deadline % z.locks;
    var s1 := WithFreeNode(s.(schedulers := s.schedulers[j := Resting]), k);
    assert On(s, Free(k)) != [] ==> On(s, Free(k))[0] in On(s, Free(k));
    Place(s1, On(s1, Free(k))[0], deadline, z)
  }

  function CountTick(s: State): State {
    s.(ticks := s.ticks + 1, ticker := Counted)
  }

  /** The loop of doTick over the nodes that were in the bucket. */
  function SweepNodes(s: State, xs: seq<nat>): State
    requires forall i :: 0 <= i < |xs| ==> xs[i] < |s.nodes|
    decreases |xs|
  {
    if xs == [] then s
    else
      var t := s.nodes[xs[0]];
      SweepNodes(if t.deadline <= s.ticks then Elapse(s, xs[0]) else s, xs[1..])
  }

  function Elapse(s: State, x: nat): State
    requires x < |s.nodes|
  {
    var t := s.nodes[x];
    SetFate(Move(s, x, Expired, t.(status := Elapsed)), t.call, Due)
  }

  /** The locked part of doTick. */
  ghost function Sweep(s: State, z: Size): State
    requires Shape(s, z)
  {
    var b := s.ticks % z.Buckets();
    var xs := On(s, Bucket(b));
    assert forall i :: 0 <= i < |xs| ==> xs[i] in xs;
    SweepNodes(s.(lastTick := s.lastTick[b := s.ticks], ticker := Swept), xs)
  }

  /** The channel takes the expired list when the callout worker has finished the one before. */
  function HandOver(s: State): State {
    s.(ticker := Sleeping,
       lists := s.lists[Callout := On(s, Expired)][Expired := []],
       nodes := seq(|s.nodes|, x requires 0 <= x < |s.nodes| =>
                       if s.nodes[x].at == Expired then s.nodes[x].(at := Callout) else s.nodes[x]))
  }

  /** doExpired frees the next node under its lock; its callback runs right after. */
  ghost function CallOut(s: State, z: Size): State
    requires Shape(s, z) && On(s, Callout) != []
  {
    var x := On(s, Callout)[0];
    assert x in On(s, Callout);
    SetFate(Release(s, x, z), s.nodes[x].call, Called)
  }

  /** Whether Stop on the handle that call `c` returned cancels. */
  predicate Stops(s: State, c: nat) {
    && c < |s.calls| && s.calls[c].node < |s.nodes|
    && var t := s.nodes[s.calls[c].node]; t.generation == s.calls[c].generation && t.status == Active
  }

  /** Stop that cancels: what it cancels is whatever call its node holds now. */
  function Stop(s: State, c: nat, z: Size): State
    requires Stops(s, c) && z.Valid()
  {
    var x := s.calls[c].node;
    SetFate(Release(s, x, z), s.nodes[x].call, Cancelled)
  }

  datatype Action =
    | DoRead(j: nat, dTicks: nat) | DoInsert(j: nat)
    | DoCount | DoSweep | DoHandOver | DoSkip | DoCallOut
    | DoStop(c: nat)

  ghost predicate Step(s: State, a: Action, s': State, z: Size) {
    && Shape(s, z)
    && match a
       case DoRead(j, dTicks) => j < |s.schedulers| && s.schedulers[j].Resting? && s' == ReadTicks(s, j, dTicks)
       case DoInsert(j) => j < |s.schedulers| && s.schedulers[j].Holding? && s' == Insert(s, j, z)
       case DoCount => s.ticker == Sleeping && s' == CountTick(s)
       case DoSweep => s.ticker == Counted && s' == Sweep(s, z)
       case DoHandOver => s.ticker == Swept && On(s, Expired) != [] && On(s, Callout) == [] && s' == HandOver(s)
       case DoSkip => s.ticker == Swept && s' == s.(ticker := Sleeping)
       case DoCallOut => On(s, Callout) != [] && s' == CallOut(s, z)
       case DoStop(c) => Stops(s, c) && s' == Stop(s, c, z)
  }

  // ---- The invariant

  ghost predicate StandsOn(s: State, x: nat, l: ListId) {
    x < |s.nodes| && s.nodes[x].at == l
  }

  /** Every node stands on exactly one list, once. */
  ghost predicate Placed(s: State) {
    && (forall l :: NoDup(On(s, l)))
    && (forall l, x :: x in On(s, l) ==> StandsOn(s, x, l))
    && (forall x :: 0 <= x < |s.nodes| ==> x in On(s, s.nodes[x].at))
  }

  /** The next tick that will sweep bucket `b`. */
  function NextTick(s: State, b: nat, z: Size): nat
    requires b < |s.lastTick|
  {
    if s.lastTick[b] == 0 && b > 0 then b else s.lastTick[b] + z.Buckets()
  }

  function SweptTicks(s: State): int {
    if s.ticker == Counted then s.ticks - 1 else s.ticks
  }

  ghost predicate Clock(s: State, z: Size) {
    && z.Valid() && |s.lastTick| == z.Buckets() && SweptTicks(s) >= 0
    && forall b :: 0 <= b < z.Buckets() ==>
         s.lastTick[b] <= SweptTicks(s) < NextTick(s, b, z)
         && NextTick(s, b, z) % z.Buckets() == b
  }

  /** A node's list says what its status, its lock and its current call are. While a sweep runs, the nodes `todo`
      that it has not reached may be due at the very tick. */
  ghost predicate NodeOk(s: State, x: nat, z: Size, todo: seq<nat>)
    requires x < |s.nodes| && z.Valid() && |s.lastTick| == z.Buckets()
  {
    var t := s.nodes[x];
    && (t.at.Free? ==> t.status == Inactive && t.at.k == t.lock)
    && (!t.at.Free? ==>
          && t.call < |s.calls| && t.lock == t.deadline % z.locks
          && var c := s.calls[t.call];
             c.node == x && c.generation == t.generation && c.deadline == t.deadline
             && c.fate == (if t.at.Bucket? then Waiting else Due)
             && t.status == (if t.at.Bucket? then Active else Elapsed))
    && (t.at.Bucket? ==>
          t.at.b == t.deadline % z.Buckets() && t.at.b < z.Buckets()
          && (s.lastTick[t.at.b] < t.deadline || (x in todo && s.lastTick[t.at.b] == t.deadline)))
  }

  /** A call that is not settled is the current call of its node; a settled one has lost its generation. */
  ghost predicate CallOk(s: State, c: nat)
    requires c < |s.calls|
  {
    var call := s.calls[c];
    && call.node < |s.nodes|
    && (if call.fate == Waiting || call.fate == Due
        then
          && s.nodes[call.node].call == c && s.nodes[call.node].generation == call.generation
          && !s.nodes[call.node].at.Free?
        else s.nodes[call.node].generation > call.generation)
    && (call.fate == Due || call.fate == Called ==> call.deadline <= SweptTicks(s))
  }

  /** `todo` are the nodes a running sweep has not reached. */
  ghost predicate Sound(s: State, z: Size, todo: seq<nat>) {
    && Clock(s, z) && Placed(s)
    && (forall x :: 0 <= x < |s.nodes| ==> NodeOk(s, x, z, todo))
    && (forall c :: 0 <= c < |s.calls| ==> CallOk(s, c))
  }

  ghost predicate Inv(s: State, z: Size) {
    Sound(s, z, [])
  }

  lemma InvShape(s: State, z: Size)
    requires Inv(s, z)
    ensures Shape(s, z)
  {
  }

  // ---- Lists

  /** What a move does to each list. */
  lemma MoveLists(s: State, x: nat, l: ListId, t: Timeout)
    requires Placed(s) && x < |s.nodes|
    ensures forall l' :: NoDup(On(Move(s, x, l, t), l'))
    ensures forall l', y :: y in On(Move(s, x, l, t), l') <==> (if y == x then l' == l else y in On(s, l'))
  {
    var s' := Move(s, x, l, t);
    var from := s.nodes[x].at;
    WithoutFacts(On(s, from), x);
    var rest := if l == from then Without(On(s, from), x) else On(s, l);
    assert x in On(s, l) ==> StandsOn(s, x, l);
    assert x !in rest && On(s', l) == [x] + rest;
    assert forall l' :: l' != l && l' != from ==> On(s', l') == On(s, l');
    assert from != l ==> On(s', from) == Without(On(s, from), x);
    forall l', y ensures y in On(s', l') <==> (if y == x then l' == l else y in On(s, l')) {
      assert x in On(s, l') ==> StandsOn(s, x, l');
    }
    forall l' ensures NoDup(On(s', l')) {
      assert NoDup(On(s, l'));
      if l' == l { NoDupFront(x, rest); }
    }
  }

  lemma MovePlaced(s: State, x: nat, l: ListId, t: Timeout)
    requires Placed(s) && x < |s.nodes|
    ensures Placed(Move(s, x, l, t))
  {
    hide NoDup, Without, On;
    var s' := Move(s, x, l, t);
    MoveLists(s, x, l, t);
    forall l', y | y in On(s', l') ensures StandsOn(s', y, l') {
      if y != x { assert StandsOn(s, y, l'); }
    }
    forall y | 0 <= y < |s'.nodes| ensures y in On(s', s'.nodes[y].at) {
      if y != x { assert y in On(s, s.nodes[y].at); }
    }
  }

  // ---- The steps keep the invariant

  /** A waiting or due node is freed and its call settled. */
  lemma SettleKeeps(s: State, x: nat, f: Fate, z: Size)
    requires Inv(s, z) && x < |s.nodes| && if f == Called then s.nodes[x].at == Callout else f == Cancelled
    requires !s.nodes[x].at.Free?
    ensures Inv(SetFate(Release(s, x, z), s.nodes[x].call, f), z)
  {
    hide Placed, Without;
    var t := s.nodes[x];
    var s1 := Release(s, x, z);
    var s' := SetFate(s1, t.call, f);
    MovePlaced(s, x, Free(t.deadline % z.locks), t.(status := Inactive, generation := t.generation + 1));
    assert NodeOk(s, x, z, []) && CallOk(s, t.call);
    assert Placed(s') by { SamePlaced(s1, s'); }
    forall y | 0 <= y < |s'.nodes| ensures NodeOk(s', y, z, []) { assert NodeOk(s, y, z, []); }
    forall c | 0 <= c < |s'.calls| ensures CallOk(s', c) { assert CallOk(s, c); }
  }

  lemma SamePlaced(s: State, s': State)
    requires Placed(s) && s'.lists == s.lists && |s'.nodes| == |s.nodes|
    requires forall x :: 0 <= x < |s.nodes| ==> s'.nodes[x].at == s.nodes[x].at
    ensures Placed(s')
  {
    assert forall l :: On(s', l) == On(s, l);
    assert forall l, x :: x in On(s', l) ==> StandsOn(s, x, l) && StandsOn(s', x, l);
  }

  lemma ElapseKeeps(s: State, x: nat, todo: seq<nat>, z: Size)
    requires Sound(s, z, [x] + todo) && x < |s.nodes| && s.nodes[x].at.Bucket? && s.nodes[x].deadline <= SweptTicks(s)
    ensures Sound(Elapse(s, x), z, todo)
  {
    hide Placed, Without;
    var t := s.nodes[x];
    var s1 := Move(s, x, Expired, t.(status := Elapsed));
    var s' := Elapse(s, x);
    MovePlaced(s, x, Expired, t.(status := Elapsed));
    assert NodeOk(s, x, z, [x] + todo);
    assert Placed(s') by { SamePlaced(s1, s'); }
    forall y | 0 <= y < |s'.nodes| ensures NodeOk(s', y, z, todo) { assert NodeOk(s, y, z, [x] + todo); }
    forall c | 0 <= c < |s'.calls| ensures CallOk(s', c) { assert CallOk(s, c); }
  }

  /** Between `before` and `after`, the waiting calls on the nodes `xs` with a deadline up to `tick`, and no other,
      have become due. */
  ghost predicate MadeDue(before: seq<Call>, after: seq<Call>, xs: seq<nat>, tick: nat) {
    && |after| == |before|
    && forall c :: 0 <= c < |before| ==>
         after[c] == if before[c].fate == Waiting && before[c].node in xs && before[c].deadline <= tick
                     then before[c].(fate := Due) else before[c]
  }

  /** A node whose deadline is still to come is passed over. */
  lemma PassKeeps(s: State, x: nat, todo: seq<nat>, z: Size)
    requires Sound(s, z, [x] + todo) && x < |s.nodes| && s.nodes[x].at.Bucket? && s.nodes[x].deadline > s.ticks
    ensures Sound(s, z, todo)
    ensures MadeDue(s.calls, s.calls, [x], s.ticks)
  {
    hide Placed, Without;
    assert NodeOk(s, x, z, [x] + todo);
    forall y | 0 <= y < |s.nodes| ensures NodeOk(s, y, z, todo) { assert NodeOk(s, y, z, [x] + todo); }
    forall c | 0 <= c < |s.calls| && s.calls[c].fate == Waiting && s.calls[c].node == x
      ensures s.calls[c].deadline > s.ticks
    {
      assert CallOk(s, c);
    }
  }

  lemma ElapseMakesDue(s: State, x: nat, todo: seq<nat>, z: Size)
    requires Sound(s, z, [x] + todo) && x < |s.nodes| && s.nodes[x].at.Bucket? && s.nodes[x].deadline <= s.ticks
    ensures MadeDue(s.calls, Elapse(s, x).calls, [x], s.ticks)
  {
    hide Placed, Without;
    assert NodeOk(s, x, z, [x] + todo);
    forall c | 0 <= c < |s.calls| && s.calls[c].fate == Waiting && s.calls[c].node == x
      ensures c == s.nodes[x].call
    {
      assert CallOk(s, c);
    }
  }

  lemma Combine(a: seq<Call>, b: seq<Call>, c: seq<Call>, x: nat, xs: seq<nat>, tick: nat)
    requires MadeDue(a, b, [x], tick) && MadeDue(b, c, xs, tick)
    ensures MadeDue(a, c, [x] + xs, tick)
  {
  }

  /** The sweep's loop: it keeps the invariant and makes due exactly the calls whose node it saw and whose deadline
      has come. */
  lemma {:induction false} SweepNodesKeeps(s: State, xs: seq<nat>, z: Size)
    requires Sound(s, z, xs) && NoDup(xs) && s.ticker == Swept
    requires forall x :: x in xs ==> x < |s.nodes| && s.nodes[x].at.Bucket?
    requires forall i :: 0 <= i < |xs| ==> xs[i] < |s.nodes|
    ensures Sound(SweepNodes(s, xs), z, [])
    ensures var s' := SweepNodes(s, xs);
      s' == s.(lists := s'.lists, nodes := s'.nodes, calls := s'.calls) && |s'.nodes| == |s.nodes|
      && MadeDue(s.calls, s'.calls, xs, s.ticks)
    decreases |xs|
  {
    hide Sound, MadeDue, Move;
    if xs != [] {
      var x, rest := xs[0], xs[1..];
      assert xs == [x] + rest;
      assert x in xs && forall y :: y in rest ==> y in xs && y != x;
      var s1 := if s.nodes[x].deadline <= s.ticks then Elapse(s, x) else s;
      if s.nodes[x].deadline <= s.ticks {
        ElapseKeeps(s, x, rest, z);
        ElapseMakesDue(s, x, rest, z);
        ElapseOnly(s, x);
      } else {
        PassKeeps(s, x, rest, z);
      }
      SweepNodesKeeps(s1, rest, z);
      Combine(s.calls, s1.calls, SweepNodes(s1, rest).calls, x, rest, s.ticks);
    } else {
      assert MadeDue(s.calls, s.calls, [], s.ticks) by { NoneDue(s.calls, s.ticks); }
    }
  }

  lemma NoneDue(calls: seq<Call>, tick: nat)
    ensures MadeDue(calls, calls, [], tick)
  {
  }

  lemma ElapseOnly(s: State, x: nat)
    requires x < |s.nodes|
    ensures var s' := Elapse(s, x);
      s' == s.(lists := s'.lists, nodes := s'.nodes, calls := s'.calls) && |s'.nodes| == |s.nodes|
      && forall y :: 0 <= y < |s.nodes| && y != x ==> s'.nodes[y] == s.nodes[y]
  {
  }

  // ---- The clock

  lemma NextInSlot(last: nat, d: nat, n: nat)
    requires n > 0 && last < d
    ensures last == 0 ==> d % n <= d
    ensures (last + n) % n == d % n ==> last + n <= d
  {
    NextLap(last, n);
    if last % n == d % n { LapApart(last, d, n); }
    if d < n { assert d % n == d; }
  }

  /** A deadline later than its bucket's last sweep is not before the bucket's next one. */
  lemma NotBeforeNext(s: State, d: nat, z: Size)
    requires Clock(s, z) && s.lastTick[d % z.Buckets()] < d
    ensures NextTick(s, d % z.Buckets(), z) <= d
  {
    var n := z.Buckets();
    var b: nat := d % n;
    assert NextTick(s, b, z) % n == b;
    hide Size.Buckets;
    NextInSlot(s.lastTick[b], d, n);
  }

  /** The tick being swept is the one its bucket was waiting for. */
  lemma SweepsNext(s: State, z: Size)
    requires Clock(s, z) && s.ticker == Counted
    ensures NextTick(s, s.ticks % z.Buckets(), z) == s.ticks
  {
    NotBeforeNext(s, s.ticks, z);
  }

  /** The bucket a deadline selects and the mutex it selects agree: deadlines that share a bucket share its lock. */
  lemma OneLock(d: nat, e: nat, z: Size)
    requires z.Valid() && d % z.Buckets() == e % z.Buckets()
    ensures d % z.locks == e % z.locks
  {
    BucketLock(d, z);
    BucketLock(e, z);
  }

  lemma BucketLock(d: nat, z: Size)
    requires z.Valid()
    ensures d % z.locks == d % z.Buckets() % z.locks
  {
    var q := d / z.Buckets();
    var r: nat := d % z.Buckets();
    assert d == z.Buckets() * q + r;
    assert z.Buckets() * q == z.locks * (z.laps * q);
    AddLaps(r, z.locks, z.laps * q);
  }

  // ---- The remaining steps

  lemma SweepKeeps(s: State, z: Size)
    requires Inv(s, z) && s.ticker == Counted
    ensures Shape(s, z) && Inv(Sweep(s, z), z)
    ensures Sweep(s, z).ticks == s.ticks && Sweep(s, z).ticker == Swept
    ensures MadeDue(s.calls, Sweep(s, z).calls, On(s, Bucket(s.ticks % z.Buckets())), s.ticks)
  {
    var b: nat := s.ticks % z.Buckets();
    var xs := On(s, Bucket(b));
    var s1 := s.(lastTick := s.lastTick[b := s.ticks], ticker := Swept);
    assert forall i :: 0 <= i < |xs| ==> xs[i] in xs;
    assert forall x :: x in xs ==> StandsOn(s, x, Bucket(b));
    SweepsNext(s, z);
    NextLap(s.ticks, z.Buckets());
    SamePlaced(s, s1);
    assert Clock(s1, z) by {
      forall b' | 0 <= b' < z.Buckets()
        ensures s1.lastTick[b'] <= SweptTicks(s1) < NextTick(s1, b', z) && NextTick(s1, b', z) % z.Buckets() == b'
      {
        assert s.lastTick[b'] <= SweptTicks(s) < NextTick(s, b', z);
        if b' != b && NextTick(s, b', z) == s.ticks { assert false; }
      }
    }
    forall x | 0 <= x < |s1.nodes| ensures NodeOk(s1, x, z, xs) {
      assert NodeOk(s, x, z, []);
      if s.nodes[x].at == Bucket(b) {
        assert x in On(s, s.nodes[x].at);
        NotBeforeNext(s, s.nodes[x].deadline, z);
      }
    }
    forall c | 0 <= c < |s1.calls| ensures CallOk(s1, c) { assert CallOk(s, c); }
    SweepNodesKeeps(s1, xs, z);
  }

  lemma CountKeeps(s: State, z: Size)
    requires Inv(s, z) && s.ticker == Sleeping
    ensures Inv(CountTick(s), z)
  {
    var s' := CountTick(s);
    SamePlaced(s, s');
    forall b | 0 <= b < z.Buckets()
      ensures s'.lastTick[b] <= SweptTicks(s') < NextTick(s', b, z) && NextTick(s', b, z) % z.Buckets() == b
    {
      assert s.lastTick[b] <= SweptTicks(s) < NextTick(s, b, z);
    }
    forall x | 0 <= x < |s'.nodes| ensures NodeOk(s', x, z, []) { assert NodeOk(s, x, z, []); }
    forall c | 0 <= c < |s'.calls| ensures CallOk(s', c) { assert CallOk(s, c); }
  }

  /** Steps that change only which schedulers hold a deadline, or that the ticker has been offered its list. */
  lemma IdleKeeps(s: State, s': State, z: Size)
    requires Inv(s, z) && s' == s.(schedulers := s'.schedulers, ticker := s'.ticker)
    requires s'.ticker == s.ticker || (s.ticker == Swept && s'.ticker == Sleeping)
    ensures Inv(s', z)
  {
    SamePlaced(s, s');
    forall b | 0 <= b < z.Buckets()
      ensures s'.lastTick[b] <= SweptTicks(s') < NextTick(s', b, z) && NextTick(s', b, z) % z.Buckets() == b
    {
      assert s.lastTick[b] <= SweptTicks(s) < NextTick(s, b, z);
    }
    forall x | 0 <= x < |s'.nodes| ensures NodeOk(s', x, z, []) { assert NodeOk(s, x, z, []); }
    forall c | 0 <= c < |s'.calls| ensures CallOk(s', c) { assert CallOk(s, c); }
  }

  lemma FreeNodeKeeps(s: State, k: nat, z: Size)
    requires Inv(s, z)
    ensures Inv(WithFreeNode(s, k), z) && On(WithFreeNode(s, k), Free(k)) != []
    ensures var s' := WithFreeNode(s, k); s' == s.(nodes := s'.nodes, lists := s'.lists) && s.nodes <= s'.nodes
  {
    var s' := WithFreeNode(s, k);
    var x := |s.nodes|;
    if On(s, Free(k)) == [] {
      assert On(s', Free(k)) == [x] && forall l :: l != Free(k) ==> On(s', l) == On(s, l);
      forall l, y | y in On(s', l) ensures StandsOn(s', y, l) {
        assert l != Free(k) ==> StandsOn(s, y, l);
      }
      forall l ensures NoDup(On(s', l)) { assert NoDup(On(s, l)); }
      forall y | 0 <= y < |s'.nodes| ensures y in On(s', s'.nodes[y].at) {
        if y < x { assert y in On(s, s.nodes[y].at); }
      }
      forall y | 0 <= y < |s'.nodes| ensures NodeOk(s', y, z, []) { if y < x { assert NodeOk(s, y, z, []); } }
      forall c | 0 <= c < |s'.calls| ensures CallOk(s', c) { assert CallOk(s, c); }
    }
  }

  lemma PlaceKeeps(s: State, x: nat, d: nat, z: Size)
    requires Inv(s, z) && x in On(s, Free(d % z.locks)) && x < |s.nodes|
    ensures Inv(Place(s, x, d, z), z)
  {
    hide Placed, Without;
    var b: nat := d % z.Buckets();
    var t := s.nodes[x].(deadline := d, status := Active, call := |s.calls|);
    var inline := s.lastTick[b] >= d;
    var call := Call(x, t.generation, d, if inline then Called else Waiting);
    var s2 := s.(calls := s.calls + [call], nodes := s.nodes[x := t]);
    var s' := Place(s, x, d, z);
    assert s.nodes[x].at == Free(d % z.locks) by { AtPlace(s, x, Free(d % z.locks)); }
    SamePlaced(s, s2);
    if inline {
      MovePlaced(s2, x, Free(d % z.locks), t.(status := Inactive, generation := t.generation + 1));
    } else {
      MovePlaced(s2, x, Bucket(b), t);
    }
    assert NodeOk(s, x, z, []);
    forall y | 0 <= y < |s'.nodes| ensures NodeOk(s', y, z, []) { assert NodeOk(s, y, z, []); }
    forall c | 0 <= c < |s'.calls| ensures CallOk(s', c) { if c < |s.calls| { assert CallOk(s, c); } }
  }

  lemma AtPlace(s: State, x: nat, l: ListId)
    requires Placed(s) && x in On(s, l)
    ensures x < |s.nodes| && s.nodes[x].at == l
  {
    assert StandsOn(s, x, l);
  }

  lemma InsertKeeps(s: State, j: nat, z: Size)
    requires Inv(s, z) && j < |s.schedulers| && s.schedulers[j].Holding?
    ensures Shape(s, z) && Inv(Insert(s, j, z), z)
    ensures var d := s.schedulers[j].deadline; var s' := Insert(s, j, z);
      |s'.calls| == |s.calls| + 1 && s'.calls[..|s.calls|] == s.calls && s'.calls[|s.calls|].deadline == d
      && s'.calls[|s.calls|].fate == (if d <= SweptTicks(s) then Called else Waiting)
  {
    hide Placed, Without, NodeOk, CallOk;
    InvShape(s, z);
    var d := s.schedulers[j].deadline;
    var s0 := s.(schedulers := s.schedulers[j := Resting]);
    IdleKeeps(s, s0, z);
    FreeNodeKeeps(s0, d % z.locks, z);
    var s1 := WithFreeNode(s0, d % z.locks);
    var x := On(s1, Free(d % z.locks))[0];
    assert x in On(s1, Free(d % z.locks));
    AtPlace(s1, x, Free(d % z.locks));
    PlaceKeeps(s1, x, d, z);
    assert s.lastTick[d % z.Buckets()] <= SweptTicks(s);
    if s.lastTick[d % z.Buckets()] < d { NotBeforeNext(s, d, z); }
  }

  lemma HandOverKeeps(s: State, z: Size)
    requires Inv(s, z) && s.ticker == Swept && On(s, Callout) == []
    ensures Inv(HandOver(s), z)
  {
    var s' := HandOver(s);
    assert On(s', Callout) == On(s, Expired) && On(s', Expired) == [];
    assert forall l :: l != Callout && l != Expired ==> On(s', l) == On(s, l);
    assert Placed(s') by {
      forall l ensures NoDup(On(s', l)) { assert NoDup(On(s, l)) && NoDup(On(s, Expired)); }
      forall l, x | x in On(s', l) ensures StandsOn(s', x, l) {
        assert StandsOn(s, x, if l == Callout then Expired else l);
      }
      forall x | 0 <= x < |s'.nodes| ensures x in On(s', s'.nodes[x].at) { assert x in On(s, s.nodes[x].at); }
    }
    forall b | 0 <= b < z.Buckets()
      ensures s'.lastTick[b] <= SweptTicks(s') < NextTick(s', b, z) && NextTick(s', b, z) % z.Buckets() == b
    {
      assert s.lastTick[b] <= SweptTicks(s) < NextTick(s, b, z);
    }
    forall x | 0 <= x < |s'.nodes| ensures NodeOk(s', x, z, []) { assert NodeOk(s, x, z, []); }
    forall c | 0 <= c < |s'.calls| ensures CallOk(s', c) { assert CallOk(s, c); }
  }

  // ---- Main results

  /** A call is in exactly one place: waiting in its deadline's bucket, due on the expired list or the one being
      called out, or settled, its node's generation having moved past the handle's. */
  lemma CallInOnePlace(s: State, c: nat, z: Size)
    requires Inv(s, z) && c < |s.calls|
    ensures var call := s.calls[c];
      && call.node < |s.nodes| && s.nodes[call.node].generation >= call.generation
      && (call.fate == Waiting <==>
           s.nodes[call.node].generation == call.generation && call.node in On(s, Bucket(call.deadline % z.Buckets())))
      && (call.fate == Due <==>
           s.nodes[call.node].generation == call.generation
           && (call.node in On(s, Expired) || call.node in On(s, Callout)))
  {
    var x := s.calls[c].node;
    assert CallOk(s, c) && NodeOk(s, x, z, []);
    assert x in On(s, s.nodes[x].at);
    assert forall l :: x in On(s, l) ==> StandsOn(s, x, l);
  }

  /** A call waits exactly as long as its deadline has not been swept, unless it is cancelled first; and its
      callback is never run earlier. */
  lemma WaitsUntilDeadline(s: State, c: nat, z: Size)
    requires Inv(s, z) && c < |s.calls| && s.calls[c].fate != Cancelled
    ensures s.calls[c].fate == Waiting <==> SweptTicks(s) < s.calls[c].deadline
  {
    assert CallOk(s, c) && NodeOk(s, s.calls[c].node, z, []);
    if s.calls[c].fate == Waiting {
      NotBeforeNext(s, s.calls[c].deadline, z);
    }
  }

  /** Stop on a handle succeeds exactly while its own call waits, and then it is that call's node that it frees. */
  lemma StopsWhileWaiting(s: State, c: nat, z: Size)
    requires Inv(s, z) && c < |s.calls|
    ensures Stops(s, c) <==> s.calls[c].fate == Waiting
    ensures Stops(s, c) ==> s.nodes[s.calls[c].node].call == c
  {
    assert CallOk(s, c) && NodeOk(s, s.calls[c].node, z, []);
  }

  /** What each step does to the calls. */
  ghost predicate Effect(s: State, a: Action, s': State) {
    match a
    case DoInsert(j) =>
      && j < |s.schedulers| && s.schedulers[j].Holding?
      && |s'.calls| == |s.calls| + 1 && s'.calls[..|s.calls|] == s.calls
      && s'.calls[|s.calls|].deadline == s.schedulers[j].deadline
      && s'.calls[|s.calls|].fate == (if s.schedulers[j].deadline <= SweptTicks(s) then Called else Waiting)
    case DoSweep =>
      && |s'.calls| == |s.calls|
      && forall c :: 0 <= c < |s.calls| ==>
           s'.calls[c] == if s.calls[c].fate == Waiting && s.calls[c].deadline == s.ticks
                          then s.calls[c].(fate := Due) else s.calls[c]
    case DoCallOut =>
      exists c :: 0 <= c < |s.calls| && s.calls[c].fate == Due && s'.calls == s.calls[c := s.calls[c].(fate := Called)]
    case DoStop(c) =>
      c < |s.calls| && s.calls[c].fate == Waiting && s'.calls == s.calls[c := s.calls[c].(fate := Cancelled)]
    case _ => s'.calls == s.calls
  }

  /** A tick makes due exactly the calls whose deadline it is. */
  lemma SweepIsOnTime(s: State, z: Size)
    requires Inv(s, z) && s.ticker == Counted
    ensures Shape(s, z) && Effect(s, DoSweep, Sweep(s, z))
  {
    SweepKeeps(s, z);
    var s' := Sweep(s, z);
    forall c | 0 <= c < |s.calls|
      ensures s'.calls[c] == if s.calls[c].fate == Waiting && s.calls[c].deadline == s.ticks
                             then s.calls[c].(fate := Due) else s.calls[c]
    {
      hide Placed, Sweep;
      CallInOnePlace(s, c, z);
      if s.calls[c].fate == Waiting {
        WaitsUntilDeadline(s, c, z);
        assert NodeOk(s, s.calls[c].node, z, []);
        if s.calls[c].node in On(s, Bucket(s.ticks % z.Buckets())) {
          AtPlace(s, s.calls[c].node, Bucket(s.ticks % z.Buckets()));
        }
      }
    }
  }

  /** Every step keeps the invariant and does to the calls what Effect says. */
  lemma StepKeeps(s: State, a: Action, s': State, z: Size)
    requires Inv(s, z) && Step(s, a, s', z)
    ensures Inv(s', z) && Effect(s, a, s')
  {
    hide Inv, Sound, Insert, Sweep, Release, SweptTicks;
    match a
    case DoInsert(j) => InsertKeeps(s, j, z);
    case DoCount => CountKeeps(s, z);
    case DoSweep => SweepKeeps(s, z); SweepIsOnTime(s, z);
    case DoHandOver => HandOverKeeps(s, z);
    case DoCallOut => CallOutKeeps(s, z);
    case DoStop(c) => StopKeeps(s, c, z);
    case _ => IdleKeeps(s, s', z);
  }

  lemma CallOutKeeps(s: State, z: Size)
    requires Inv(s, z) && Shape(s, z) && On(s, Callout) != []
    ensures Inv(CallOut(s, z), z) && Effect(s, DoCallOut, CallOut(s, z))
  {
    hide Placed;
    var x := On(s, Callout)[0];
    assert x in On(s, Callout);
    AtPlace(s, x, Callout);
    SettleKeeps(s, x, Called, z);
    assert NodeOk(s, x, z, []);
    var c := s.nodes[x].call;
    assert 0 <= c < |s.calls| && s.calls[c].fate == Due;
    assert CallOut(s, z).calls == s.calls[c := s.calls[c].(fate := Called)];
  }

  lemma StopKeeps(s: State, c: nat, z: Size)
    requires Inv(s, z) && Stops(s, c)
    ensures Inv(Stop(s, c, z), z) && Effect(s, DoStop(c), Stop(s, c, z))
  {
    hide Placed;
    StopsWhileWaiting(s, c, z);
    assert CallOk(s, c);
    SettleKeeps(s, s.calls[c].node, Cancelled, z);
  }

  /** A run: any interleaving of schedulers, ticker, callout worker and callers of Stop. */
  ghost predicate IsRun(run: seq<State>, z: Size) {
    && |run| > 0 && Init(run[0], z)
    && forall k :: 0 <= k < |run| - 1 ==> Next(run[k], run[k + 1], z)
  }

  ghost predicate Next(s: State, s': State, z: Size) {
    exists a :: Step(s, a, s', z)
  }

  lemma InitInv(s: State, z: Size)
    requires Init(s, z)
    ensures Inv(s, z)
  {
    hide NodeOk, CallOk, Placed, Clock;
    FirstTick(s, z);
    NothingPlaced(s);
  }

  lemma FirstTick(s: State, z: Size)
    requires Init(s, z)
    ensures Clock(s, z)
  {
    var n := z.Buckets();
    SmallRemainder(n);
    forall b | 0 <= b < n ensures s.lastTick[b] == 0 && NextTick(s, b, z) % n == b {}
  }

  lemma SmallRemainder(n: nat)
    requires n > 0
    ensures n % n == 0 && forall b: nat :: b < n ==> b % n == b
  {
  }

  lemma NothingPlaced(s: State)
    requires s.lists == map[] && s.nodes == []
    ensures Placed(s)
  {
  }

  lemma {:induction false} RunKeeps(run: seq<State>, k: nat, z: Size)
    requires IsRun(run, z) && k < |run|
    ensures Inv(run[k], z)
  {
    hide Inv, Step;
    if k == 0 {
      InitInv(run[0], z);
    } else {
      RunKeeps(run, k - 1, z);
      assert Next(run[k - 1], run[k - 1 + 1], z);
      var a :| Step(run[k - 1], a, run[k], z);
      StepKeeps(run[k - 1], a, run[k], z);
    }
  }

  /** The lives a call can have: waiting, then cancelled, or due and then called. */
  predicate Later(before: Call, after: Call) {
    && after == before.(fate := after.fate)
    && (after.fate == before.fate || before.fate == Waiting || (before.fate == Due && after.fate == Called))
  }

  /** Over a run each call goes through its life once; a called or cancelled call stays what it is, so Stop
      succeeds at most once for a handle, and then the callback never runs. */
  lemma {:induction false} RunOfCall(run: seq<State>, i: nat, k: nat, c: nat, z: Size)
    requires IsRun(run, z) && i <= k < |run| && c < |run[i].calls|
    ensures c < |run[k].calls| && Later(run[i].calls[c], run[k].calls[c])
    ensures Stops(run[k], c) <==> run[k].calls[c].fate == Waiting
    decreases k
  {
    hide Inv, Step, Stops;
    if i < k {
      RunOfCall(run, i, k - 1, c, z);
      RunKeeps(run, k - 1, z);
      assert Next(run[k - 1], run[k - 1 + 1], z);
      var a :| Step(run[k - 1], a, run[k], z);
      StepKeeps(run[k - 1], a, run[k], z);
      if a.DoInsert? { assert run[k].calls[c] == run[k].calls[..|run[k - 1].calls|][c]; }
    }
    RunKeeps(run, k, z);
    StopsWhileWaiting(run[k], c, z);
  }

  /** A handle that Stop has cancelled is never cancelled or called again, whoever uses its node since. */
  lemma StopIsFinal(run: seq<State>, i: nat, k: nat, c: nat, z: Size)
    requires IsRun(run, z) && i < k < |run| && Step(run[i], DoStop(c), run[i + 1], z)
    ensures c < |run[k].calls| && run[k].calls[c].fate == Cancelled && !Stops(run[k], c)
  {
    hide Inv, Step, Stops;
    RunKeeps(run, i, z);
    StepKeeps(run[i], DoStop(c), run[i + 1], z);
    RunOfCall(run, i + 1, k, c, z);
  }

  // ---- From the duration to the callback

  /** The number of ticks that Schedule waits for a duration: the interval goes into it rounded up. */
  function TicksFor(duration: nat, interval: nat): nat
    requires interval > 0
  {
    (duration + interval - 1) / interval
  }

  /** It is the least number of ticks that lasts as long as the duration. */
  lemma TicksCover(duration: nat, interval: nat)
    requires interval > 0
    ensures var n := TicksFor(duration, interval);
            duration <= n * interval && (n > 0 ==> (n - 1) * interval < duration)
  {
    var x := duration + interval - 1;
    var n := x / interval;
    assert x == interval * n + x % interval;
    assert n * interval == interval * n && (n - 1) * interval == interval * n - interval;
  }

  /** What a scheduler holds is the tick that it read, and its duration on top, until it has scheduled the call. */
  lemma {:induction false} HeldDeadline(run: seq<State>, a: nat, b: nat, j: nat, dTicks: nat, z: Size)
    requires IsRun(run, z) && a < b < |run| && Step(run[a], DoRead(j, dTicks), run[a + 1], z)
    requires forall k :: a < k <= b ==> j < |run[k].schedulers| && run[k].schedulers[j].Holding?
    ensures run[b].schedulers[j] == Holding(run[a].ticks + dTicks)
    decreases b
  {
    if a + 1 < b {
      HeldDeadline(run, a, b - 1, j, dTicks, z);
      assert Next(run[b - 1], run[b - 1 + 1], z);
      var e :| Step(run[b - 1], e, run[b], z);
      HolderWaits(run[b - 1], e, run[b], j, z);
    }
  }

  /** A scheduler that holds a deadline keeps it as long as it holds one. */
  lemma HolderWaits(s: State, a: Action, s': State, j: nat, z: Size)
    requires Step(s, a, s', z) && j < |s.schedulers| && s.schedulers[j].Holding?
    requires j < |s'.schedulers| && s'.schedulers[j].Holding?
    ensures s'.schedulers[j] == s.schedulers[j]
  {
    SchedulersMove(s, a, s', z);
  }

  lemma SchedulersMove(s: State, a: Action, s': State, z: Size)
    requires Step(s, a, s', z)
    ensures s'.schedulers ==
            match a
            case DoRead(j, dTicks) => s.schedulers[j := Holding(s.ticks + dTicks)]
            case DoInsert(j) => s.schedulers[j := Resting]
            case _ => s.schedulers
  {
    hide On, Move, Release, SetFate, Stops;
    match a
    case DoSweep => SweepSchedulers(s, z);
    case DoInsert(j) => InsertSchedulers(s, j, z);
    case DoCallOut => CallOutSchedulers(s, z);
    case DoStop(c) => StopSchedulers(s, c, z);
    case _ =>
  }

  lemma SettleSchedulers(s: State, x: nat, c: nat, f: Fate, z: Size)
    requires x < |s.nodes| && z.Valid()
    ensures SetFate(Release(s, x, z), c, f).schedulers == s.schedulers
  {
    hide On, Without;
  }

  lemma CallOutSchedulers(s: State, z: Size)
    requires Shape(s, z) && On(s, Callout) != []
    ensures CallOut(s, z).schedulers == s.schedulers
  {
    var x := On(s, Callout)[0];
    assert x in On(s, Callout);
    SettleSchedulers(s, x, s.nodes[x].call, Called, z);
    hide Release, SetFate;
  }

  lemma StopSchedulers(s: State, c: nat, z: Size)
    requires Stops(s, c) && z.Valid()
    ensures Stop(s, c, z).schedulers == s.schedulers
  {
    var x := s.calls[c].node;
    SettleSchedulers(s, x, s.nodes[x].call, Cancelled, z);
    hide Release, SetFate;
  }

  lemma InsertSchedulers(s: State, j: nat, z: Size)
    requires Shape(s, z) && j < |s.schedulers| && s.schedulers[j].Holding?
    ensures Insert(s, j, z).schedulers == s.schedulers[j := Resting]
  {
    hide Without;
  }

  lemma SweepSchedulers(s: State, z: Size)
    requires Shape(s, z)
    ensures Sweep(s, z).schedulers == s.schedulers
  {
    var xs := On(s, Bucket(s.ticks % z.Buckets()));
    assert forall i :: 0 <= i < |xs| ==> xs[i] in xs;
    SweptSchedulers(s.(lastTick := s.lastTick[s.ticks % z.Buckets() := s.ticks], ticker := Swept), xs);
    hide SweepNodes;
  }

  lemma {:induction false} SweptSchedulers(s: State, xs: seq<nat>)
    requires forall i :: 0 <= i < |xs| ==> xs[i] < |s.nodes|
    ensures SweepNodes(s, xs).schedulers == s.schedulers
    decreases |xs|
  {
    hide Move;
    if xs != [] {
      var t := s.nodes[xs[0]];
      ElapseNodes(s, xs[0]);
      SweptSchedulers(if t.deadline <= s.ticks then Elapse(s, xs[0]) else s, xs[1..]);
    }
  }

  lemma ElapseNodes(s: State, x: nat)
    requires x < |s.nodes|
    ensures Elapse(s, x).schedulers == s.schedulers && |Elapse(s, x).nodes| == |s.nodes|
  {
  }

  /** Schedule for a number of ticks, from its reading of the tick to the callback: the call is neither due nor called
      before so many more ticks have been swept, and does not wait after that unless it is cancelled, however long the
      scheduler takes to get the lock. */
  lemma ScheduleIsOnTime(run: seq<State>, a: nat, b: nat, k: nat, j: nat, dTicks: nat, z: Size)
    requires IsRun(run, z) && a < b < k < |run| && Step(run[a], DoRead(j, dTicks), run[a + 1], z)
    requires forall l :: a < l <= b ==> j < |run[l].schedulers| && run[l].schedulers[j].Holding?
    requires Step(run[b], DoInsert(j), run[b + 1], z)
    ensures var c, d := |run[b].calls|, run[a].ticks + dTicks;
            && c < |run[k].calls| && run[k].calls[c].deadline == d
            && (run[k].calls[c].fate == Due || run[k].calls[c].fate == Called ==> SweptTicks(run[k]) >= d)
            && (run[k].calls[c].fate == Waiting ==> SweptTicks(run[k]) < d)
  {
    var c := |run[b].calls|;
    HeldDeadline(run, a, b, j, dTicks, z);
    RunKeeps(run, b, z);
    RunKeeps(run, k, z);
    hide IsRun, Inv, Step, SweptTicks;
    StepKeeps(run[b], DoInsert(j), run[b + 1], z);
    RunOfCall(run, b + 1, k, c, z);
    if run[k].calls[c].fate != Cancelled { WaitsUntilDeadline(run[k], c, z); }
  }

  // ---- Progress

  /** A step of the ticker or of the callout worker. */
  predicate Unaided(a: Action) {
    a.DoCount? || a.DoSweep? || a.DoHandOver? || a.DoSkip? || a.DoCallOut?
  }

  ghost predicate Runs(s: State, s': State, z: Size) {
    exists a :: Unaided(a) && Step(s, a, s', z)
  }

  /** Ticker and worker alone can bring the call `c` to its callback within `n` steps. */
  ghost predicate CanBeCalled(s: State, c: nat, n: nat, z: Size)
    decreases n
  {
    && c < |s.calls|
    && (s.calls[c].fate == Called || (n > 0 && exists s' :: Runs(s, s', z) && CanBeCalled(s', c, n - 1, z)))
  }

  lemma OneStepMore(s: State, a: Action, s': State, c: nat, n: nat, z: Size)
    requires Unaided(a) && Step(s, a, s', z) && c < |s.calls| && CanBeCalled(s', c, n, z)
    ensures CanBeCalled(s, c, n + 1, z)
  {
    hide Step;
    assert Runs(s, s', z);
  }

  lemma CalledAlready(s: State, c: nat, z: Size)
    requires c < |s.calls| && s.calls[c].fate == Called
    ensures CanBeCalled(s, c, 0, z)
  {
  }

  /** What the ticker and the worker do to a call that is not cancelled. */
  lemma UnaidedKeeps(s: State, a: Action, s': State, c: nat, z: Size)
    requires Inv(s, z) && Unaided(a) && Step(s, a, s', z) && c < |s.calls| && s.calls[c].fate != Cancelled
    ensures Inv(s', z) && c < |s'.calls| && s'.calls[c].fate != Cancelled && Later(s.calls[c], s'.calls[c])
    ensures s.calls[c].fate != Waiting && !a.DoCallOut? ==> s'.calls[c] == s.calls[c]
  {
    hide Inv, Step;
    StepKeeps(s, a, s', z);
  }

  /** The next callout shortens the worker's list, and leaves the call on its list unless it calls it. */
  lemma CallOutShortens(s: State, c: nat, z: Size)
    requires Inv(s, z) && On(s, Callout) != [] && c < |s.calls| && s.calls[c].fate == Due
    ensures Shape(s, z)
    ensures var s' := CallOut(s, z);
            && Inv(s', z) && s'.ticker == s.ticker && c < |s'.calls| && Later(s.calls[c], s'.calls[c])
            && |On(s', Callout)| < |On(s, Callout)|
            && (s'.calls[c].fate == Due ==> (s.calls[c].node in On(s, Callout) ==> s.calls[c].node in On(s', Callout)))
            && (s'.calls[c].fate == Due || s'.calls[c].fate == Called)
  {
    InvShape(s, z);
    var x := On(s, Callout)[0];
    assert x in On(s, Callout);
    var s' := CallOut(s, z);
    CallOutKeeps(s, z);
    CallInOnePlace(s, c, z);
    CallInOnePlace(s', c, z);
    AtPlace(s, x, Callout);
    CallOutLists(s, x, z);
  }

  lemma CallOutLists(s: State, x: nat, z: Size)
    requires Placed(s) && z.Valid() && x < |s.nodes| && s.nodes[x].at == Callout
    requires On(s, Callout) != [] && On(s, Callout)[0] == x
    ensures On(Release(s, x, z), Callout) == On(s, Callout)[1..]
  {
    WithoutFacts(On(s, Callout), x);
  }

  /** Once a call is due, the worker's list can be emptied, and then the list of expired calls be handed over. */
  lemma {:induction false} DueCanBeCalled(s: State, c: nat, z: Size) returns (n: nat)
    requires Inv(s, z) && c < |s.calls| && s.calls[c].fate == Due
    requires s.calls[c].node in On(s, Callout) || s.ticker == Swept
    ensures CanBeCalled(s, c, n, z)
    decreases if s.calls[c].node in On(s, Callout) then 0 else 1, |On(s, Callout)|
  {
    hide *;
    InvShape(s, z);
    if On(s, Callout) != [] {
      var s' := CallOut(s, z);
      CallOutShortens(s, c, z);
      assert Step(s, DoCallOut, s', z) by { CallOutStep(s, z); }
      LaterCall(s.calls[c], s'.calls[c]);
      if s'.calls[c].fate == Called {
        n := 0;
        CalledAlready(s', c, z);
      } else {
        n := DueCanBeCalled(s', c, z);
      }
      UnaidedOnes();
      OneStepMore(s, DoCallOut, s', c, n, z);
    } else {
      CallInOnePlace(s, c, z);
      var s' := HandOver(s);
      HandOverKeeps(s, z);
      HandsOver(s, s.calls[c].node, z);
      n := DueCanBeCalled(s', c, z);
      UnaidedOnes();
      OneStepMore(s, DoHandOver, s', c, n, z);
    }
    n := n + 1;
  }

  lemma LaterCall(before: Call, after: Call)
    requires Later(before, after)
    ensures after.node == before.node && after.deadline == before.deadline
  {
  }

  lemma UnaidedOnes()
    ensures Unaided(DoCount) && Unaided(DoSweep) && Unaided(DoHandOver) && Unaided(DoSkip) && Unaided(DoCallOut)
  {
  }

  lemma CallOutStep(s: State, z: Size)
    requires Shape(s, z) && On(s, Callout) != []
    ensures Step(s, DoCallOut, CallOut(s, z), z)
  {
  }

  lemma HandsOver(s: State, x: nat, z: Size)
    requires Shape(s, z) && s.ticker == Swept && On(s, Callout) == [] && x in On(s, Expired)
    ensures Step(s, DoHandOver, HandOver(s), z) && x in On(HandOver(s), Callout) && HandOver(s).calls == s.calls
  {
  }

  /** The next step of the ticker, when it need not hand over: it waits less long for the tick `d`. */
  lemma TickerMoves(s: State, z: Size) returns (a: Action, s': State)
    requires Inv(s, z)
    ensures Unaided(a) && Step(s, a, s', z) && !a.DoCallOut?
    ensures match s.ticker
            case Swept => s'.ticker == Sleeping && SweptTicks(s') == SweptTicks(s)
            case Sleeping => s'.ticker == Counted && SweptTicks(s') == SweptTicks(s)
            case Counted => s'.ticker == Swept && SweptTicks(s') == SweptTicks(s) + 1
  {
    InvShape(s, z);
    hide Inv;
    match s.ticker
    case Swept => a, s' := DoSkip, s.(ticker := Sleeping);
    case Sleeping => a, s' := DoCount, CountTick(s);
    case Counted =>
      SweepKeeps(s, z);
      a, s' := DoSweep, Sweep(s, z);
  }

  function Phase(s: State, due: bool): nat {
    match s.ticker
    case Swept => if due then 0 else 2
    case Sleeping => if due then 2 else 1
    case Counted => if due then 1 else 0
  }

  /** No call is missed: from every state, ticker and worker can by themselves bring every call that is not cancelled
      to its callback. */
  lemma {:induction false} EveryCallCanBeCalled(s: State, c: nat, z: Size) returns (n: nat)
    requires Inv(s, z) && c < |s.calls| && s.calls[c].fate != Cancelled
    ensures CanBeCalled(s, c, n, z)
    decreases if s.calls[c].fate == Waiting then s.calls[c].deadline - SweptTicks(s) else 0,
              Phase(s, s.calls[c].fate != Waiting)
  {
    hide Inv, Step, CanBeCalled, Unaided, Later, SweptTicks;
    var call := s.calls[c];
    if call.fate == Called {
      n := 0;
      CalledAlready(s, c, z);
    } else if call.fate == Due && s.ticker == Swept {
      n := DueCanBeCalled(s, c, z);
    } else {
      var a, s' := TickerMoves(s, z);
      UnaidedKeeps(s, a, s', c, z);
      LaterCall(call, s'.calls[c]);
      WaitsUntilDeadline(s, c, z);
      WaitsUntilDeadline(s', c, z);
      n := EveryCallCanBeCalled(s', c, z);
      OneStepMore(s, a, s', c, n, z);
      n := n + 1;
    }
  }
}
