/** The lock-free ring of src/utils/task/ring.go: any number of threads, each load, store and compare-and-swap
    one atomic step. Tickets are the values of the two counters; ticket p uses slot p mod N. */
module Ring {
  import opened Bits
  import opened Bytes
  import opened Laps

  datatype Node<T> = Node(position: nat, data: Option<T>)

  /** Where a thread is in put or Poll: each constructor names the next atomic step. */
  datatype Thread<T> =
    | Idle
    | PutCheck(item: T, pos: nat) | PutLoad(item: T, pos: nat) | PutCas(item: T, pos: nat) | PutReload(item: T)
    | PutWrite(item: T, pos: nat) | PutStore(pos: nat)
    | PollCheck(pos: nat) | PollLoad(pos: nat) | PollCas(pos: nat) | PollReload
    | PollRead(pos: nat) | PollClear(pos: nat, data: Option<T>) | PollStore(pos: nat, data: Option<T>)

  /** The ring and its threads; `enqueued` and `returned` are history: the item of each enqueue ticket, and what
      the Poll with each dequeue ticket returned. */
  datatype State<T> = State(
    queue: nat, dequeue: nat, disposed: bool, nodes: seq<Node<T>>, threads: seq<Thread<T>>,
    enqueued: seq<T>, returned: map<nat, Option<T>>)

  // ---- Slots

  function Slot(ticket: int, n: nat): (k: nat)
    requires n > 0
    ensures k < n
  {
    ticket % n
  }

  /** Tickets less than a lap apart use different slots, tickets a lap apart the same one. */
  lemma SlotsDiffer(p: int, q: int, n: nat)
    requires n > 0 && p < q < p + n
    ensures Slot(p, n) != Slot(q, n)
  {
    if p % n == q % n { LapApart(p, q, n); }
  }

  lemma SlotsRepeat(p: int, n: nat)
    requires n > 0
    ensures Slot(p + n, n) == Slot(p, n)
  {
    NextLap(p, n);
  }

  // ---- The steps

  ghost predicate Init<T>(s: State<T>, n: nat) {
    && n > 0 && s.queue == s.dequeue == 0 && !s.disposed && s.enqueued == [] && s.returned == map[]
    && |s.nodes| == n && (forall k :: 0 <= k < n ==> s.nodes[k] == Node(k, None))
    && forall i :: 0 <= i < |s.threads| ==> s.threads[i] == Idle
  }

  function Goto<T>(s: State<T>, i: nat, t: Thread<T>): State<T>
    requires i < |s.threads|
  {
    s.(threads := s.threads[i := t])
  }

  /** What one thread may do next from state `s`. Where a failed pass may also leave (an Offer on a full ring, a
      Poll whose time is up) both successors are allowed. */
  ghost predicate Step<T>(s: State<T>, i: nat, s': State<T>)
    requires |s.nodes| > 0
  {
    && i < |s.threads|
    && match s.threads[i]
       case Idle =>
         || (i < |s'.threads| && s'.threads[i].PutCheck? && s' == Goto(s, i, PutCheck(s'.threads[i].item, s.queue)))
         || s' == Goto(s, i, PollCheck(s.dequeue))
         || s' == s.(disposed := true)
       case PutCheck(item, pos) => s' == Goto(s, i, if s.disposed then Idle else PutLoad(item, pos))
       case PutLoad(item, pos) =>
         var seen := s.nodes[Slot(pos, |s.nodes|)].position;
         s' == Goto(s, i, if seen == pos then PutCas(item, pos) else PutReload(item))
       case PutCas(item, pos) =>
         if s.queue == pos
         then s' == Goto(s, i, PutWrite(item, pos)).(queue := pos + 1, enqueued := s.enqueued + [item])
         else s' == Goto(s, i, PutCheck(item, pos)) || s' == Goto(s, i, Idle)
       case PutReload(item) => s' == Goto(s, i, PutCheck(item, s.queue)) || s' == Goto(s, i, Idle)
       case PutWrite(item, pos) =>
         s' == SetNode(Goto(s, i, PutStore(pos)), pos, NodeAt(s, pos).(data := Some(item)))
       case PutStore(pos) =>
         s' == SetNode(Goto(s, i, Idle), pos, NodeAt(s, pos).(position := pos + 1))
       case PollCheck(pos) => s' == Goto(s, i, if s.disposed then Idle else PollLoad(pos))
       case PollLoad(pos) =>
         var seen := s.nodes[Slot(pos, |s.nodes|)].position;
         s' == Goto(s, i, if seen == pos + 1 then PollCas(pos) else PollReload)
       case PollCas(pos) =>
         if s.dequeue == pos then s' == Goto(s, i, PollRead(pos)).(dequeue := pos + 1)
         else s' == Goto(s, i, PollCheck(pos)) || s' == Goto(s, i, Idle)
       case PollReload => s' == Goto(s, i, PollCheck(s.dequeue)) || s' == Goto(s, i, Idle)
       case PollRead(pos) => s' == Goto(s, i, PollClear(pos, NodeAt(s, pos).data))
       case PollClear(pos, data) =>
         s' == SetNode(Goto(s, i, PollStore(pos, data)), pos, NodeAt(s, pos).(data := None))
       case PollStore(pos, data) =>
         s' == SetNode(Goto(s, i, Idle), pos, NodeAt(s, pos).(position := pos + |s.nodes|))
               .(returned := s.returned[pos := data])
  }

  function NodeAt<T>(s: State<T>, pos: nat): Node<T>
    requires |s.nodes| > 0
  {
    s.nodes[Slot(pos, |s.nodes|)]
  }

  function SetNode<T>(s: State<T>, pos: nat, n: Node<T>): State<T>
    requires |s.nodes| > 0
  {
    s.(nodes := s.nodes[Slot(pos, |s.nodes|) := n])
  }

  /** A run: any interleaving of the threads. */
  ghost predicate IsRun<T>(run: seq<State<T>>, n: nat) {
    && |run| > 0 && Init(run[0], n)
    && forall k :: 0 <= k < |run| - 1 ==> Next(run[k], run[k + 1])
  }

  ghost predicate Next<T>(s: State<T>, s': State<T>) {
    |s.nodes| > 0 && exists i :: Step(s, i, s')
  }

  // ---- The invariant

  predicate Puts<T>(t: Thread<T>, p: nat) {
    (t.PutWrite? || t.PutStore?) && t.pos == p
  }

  predicate Polls<T>(t: Thread<T>, p: nat) {
    (t.PollRead? || t.PollClear? || t.PollStore?) && t.pos == p
  }

  predicate Owner<T>(t: Thread<T>) {
    t.PutWrite? || t.PutStore? || t.PollRead? || t.PollClear? || t.PollStore?
  }

  /** The slot of an enqueued, not yet claimed ticket: still being written, or filled with its item. */
  ghost predicate Enqueued<T>(s: State<T>, p: nat)
    requires |s.nodes| > 0 && p < |s.enqueued|
  {
    NodeAt(s, p).position == p || NodeAt(s, p) == Node(p + 1, Some(s.enqueued[p]))
  }

  /** The slot of a claimed ticket, or of one before the first lap: still being read, or free for the next lap. */
  ghost predicate Claimed<T>(s: State<T>, p: int)
    requires |s.nodes| > 0
  {
    var position := s.nodes[Slot(p, |s.nodes|)].position;
    position == p + 1 || position == p + |s.nodes|
  }

  ghost predicate ThreadOk<T>(s: State<T>, t: Thread<T>)
    requires |s.nodes| > 0 && s.dequeue <= s.queue == |s.enqueued|
  {
    match t
    case PutCheck(_, pos) => pos <= s.queue
    case PutLoad(_, pos) => pos <= s.queue
    case PutCas(_, pos) => pos <= s.queue && (pos == s.queue ==> NodeAt(s, pos).position == pos)
    case PutWrite(item, pos) =>
      s.dequeue <= pos < s.queue && NodeAt(s, pos).position == pos && s.enqueued[pos] == item
    case PutStore(pos) =>
      s.dequeue <= pos < s.queue && NodeAt(s, pos) == Node(pos, Some(s.enqueued[pos]))
    case PollCheck(pos) => pos <= s.dequeue
    case PollLoad(pos) => pos <= s.dequeue
    case PollCas(pos) => pos <= s.dequeue && (pos == s.dequeue ==> NodeAt(s, pos).position == pos + 1)
    case PollRead(pos) =>
      s.queue - |s.nodes| <= pos < s.dequeue && NodeAt(s, pos) == Node(pos + 1, Some(s.enqueued[pos]))
    case PollClear(pos, data) =>
      s.queue - |s.nodes| <= pos < s.dequeue && NodeAt(s, pos).position == pos + 1 && data == Some(s.enqueued[pos])
    case PollStore(pos, data) =>
      s.queue - |s.nodes| <= pos < s.dequeue && NodeAt(s, pos).position == pos + 1 && data == Some(s.enqueued[pos])
    case _ => true
  }

  ghost predicate Counters<T>(s: State<T>, n: nat) {
    n >= 2 && |s.nodes| == n && s.dequeue <= s.queue <= s.dequeue + n && |s.enqueued| == s.queue
  }

  ghost predicate Slots<T>(s: State<T>, n: nat)
    requires Counters(s, n)
  {
    && (forall p :: s.dequeue <= p < s.queue ==> Enqueued(s, p))
    && (forall p :: s.queue - n <= p < s.dequeue ==> Claimed(s, p))
  }

  ghost predicate Threads<T>(s: State<T>, n: nat)
    requires Counters(s, n)
  {
    && (forall i :: 0 <= i < |s.threads| ==> ThreadOk(s, s.threads[i]))
    && (forall i, j, p :: 0 <= i < j < |s.threads| ==> !(Puts(s.threads[i], p) && Puts(s.threads[j], p)))
    && (forall i, j, p :: 0 <= i < j < |s.threads| ==> !(Polls(s.threads[i], p) && Polls(s.threads[j], p)))
  }

  /** Every claimed ticket was returned with its own item, or one thread is still reading it. */
  ghost predicate Returns<T>(s: State<T>, n: nat)
    requires Counters(s, n)
  {
    && (forall p :: p in s.returned ==> p < s.dequeue && s.returned[p] == Some(s.enqueued[p]))
    && (forall p, i :: p in s.returned && 0 <= i < |s.threads| ==> !Polls(s.threads[i], p))
    && (forall p: nat :: p < s.dequeue ==>
          p in s.returned || exists i :: 0 <= i < |s.threads| && Polls(s.threads[i], p))
  }

  ghost predicate Inv<T>(s: State<T>, n: nat) {
    Counters(s, n) && Slots(s, n) && Threads(s, n) && Returns(s, n)
  }

  lemma InitKeeps<T>(s: State<T>, n: nat)
    requires Init(s, n) && n >= 2
    ensures Inv(s, n)
  {
    forall p: int | 0 <= p + n && p < 0 ensures Claimed(s, p) {
      SlotsRepeat(p, n);
      assert Slot(p + n, n) == p + n;
    }
  }

  /** In a window of one lap every ticket has its own slot. */
  lemma OwnSlots(t: int, lo: int, n: nat)
    requires n > 0 && lo <= t < lo + n
    ensures forall p :: lo <= p < lo + n && p != t ==> Slot(p, n) != Slot(t, n)
    ensures t == lo ==> Slot(lo + n, n) == Slot(t, n)
    ensures t != lo ==> Slot(lo + n, n) != Slot(t, n)
  {
    forall p | lo <= p < lo + n && p != t ensures Slot(p, n) != Slot(t, n) {
      if p < t { SlotsDiffer(p, t, n); } else { SlotsDiffer(t, p, n); }
    }
    if t == lo { SlotsRepeat(lo, n); } else { SlotsDiffer(t, lo + n, n); }
  }

  /** A step that moves one thread between stages that own no ticket, and changes nothing else. */
  lemma MoveKeeps<T>(s: State<T>, i: nat, t: Thread<T>, n: nat)
    requires Inv(s, n) && i < |s.threads| && ThreadOk(s, t)
    requires !Owner(s.threads[i]) && !Owner(t)
    ensures Inv(Goto(s, i, t), n)
  {
    var s' := Goto(s, i, t);
    forall p | s.dequeue <= p < s.queue ensures Enqueued(s', p) { assert Enqueued(s, p); }
    forall p | s.queue - n <= p < s.dequeue ensures Claimed(s', p) { assert Claimed(s, p); }
    forall p: nat | p < s'.dequeue && p !in s'.returned
      ensures exists k :: 0 <= k < |s'.threads| && Polls(s'.threads[k], p)
    {
      var k :| 0 <= k < |s.threads| && Polls(s.threads[k], p);
      assert Polls(s'.threads[k], p);
    }
  }

  lemma PutCasKeeps<T>(s: State<T>, i: nat, item: T, n: nat)
    requires Inv(s, n) && i < |s.threads| && s.threads[i] == PutCas(item, s.queue)
    ensures Inv(Goto(s, i, PutWrite(item, s.queue)).(queue := s.queue + 1, enqueued := s.enqueued + [item]), n)
  {
    var q := s.queue;
    var s' := Goto(s, i, PutWrite(item, q)).(queue := q + 1, enqueued := s.enqueued + [item]);
    OwnSlots(q - n, q - n, n);
    assert ThreadOk(s, s.threads[i]);
    assert q < s.dequeue + n by {
      hide Returns, Threads;
      if s.dequeue < q { assert Enqueued(s, s.dequeue); }
    }
    assert Slots(s', n) by {
      hide Returns, Threads, ThreadOk;
      forall p | s.dequeue <= p < q ensures Enqueued(s', p) { assert Enqueued(s, p); }
      forall p | q + 1 - n <= p < s.dequeue ensures Claimed(s', p) { assert Claimed(s, p); }
    }
    forall k | 0 <= k < |s'.threads| ensures ThreadOk(s', s'.threads[k]) {
      hide Slots, Returns;
      assert ThreadOk(s, s.threads[k]);
    }
    assert Threads(s', n) by { hide Slots, Returns; OwnPut(s, s', i, n); }
    assert Returns(s', n) by { hide Slots, Threads; PollersStay(s, s', i); }
  }

  /** A thread that takes a fresh enqueue ticket, or leaves its ticket, keeps the owners apart. */
  lemma OwnPut<T>(s: State<T>, s': State<T>, i: nat, n: nat)
    requires Inv(s, n) && Counters(s', n) && i < |s.threads| == |s'.threads|
    requires forall k :: 0 <= k < |s.threads| && k != i ==> s'.threads[k] == s.threads[k]
    requires forall p: nat :: Puts(s'.threads[i], p) ==> p >= s.queue || Puts(s.threads[i], p)
    requires forall p: nat :: Polls(s'.threads[i], p) ==> p >= s.dequeue || Polls(s.threads[i], p)
    ensures forall a, b, p :: 0 <= a < b < |s'.threads| ==> !(Puts(s'.threads[a], p) && Puts(s'.threads[b], p))
    ensures forall a, b, p :: 0 <= a < b < |s'.threads| ==> !(Polls(s'.threads[a], p) && Polls(s'.threads[b], p))
  {
    hide Slots, Returns;
    forall k, p: nat | 0 <= k < |s.threads|
      ensures Puts(s.threads[k], p) ==> p < s.queue
      ensures Polls(s.threads[k], p) ==> p < s.dequeue
    {
      assert ThreadOk(s, s.threads[k]);
    }
  }

  lemma PollersStay<T>(s: State<T>, s': State<T>, i: nat)
    requires i < |s.threads| == |s'.threads|
    requires forall k :: 0 <= k < |s.threads| && k != i ==> s'.threads[k] == s.threads[k]
    requires forall p :: Polls(s.threads[i], p) ==> Polls(s'.threads[i], p)
    ensures forall p, k :: 0 <= k < |s.threads| && Polls(s.threads[k], p) ==> Polls(s'.threads[k], p)
  {
  }

  lemma PollCasKeeps<T>(s: State<T>, i: nat, n: nat)
    requires Inv(s, n) && i < |s.threads| && s.threads[i] == PollCas(s.dequeue)
    ensures Inv(Goto(s, i, PollRead(s.dequeue)).(dequeue := s.dequeue + 1), n)
  {
    var d := s.dequeue;
    var s' := Goto(s, i, PollRead(d)).(dequeue := d + 1);
    assert ThreadOk(s, s.threads[i]);
    assert d < s.queue && Enqueued(s, d) by {
      hide Returns, Threads;
      if s.queue - n < d {
        SlotsRepeat(s.queue - n, n);
        assert Claimed(s, s.queue - n);
      }
    }
    assert Slots(s', n) by {
      hide Returns, Threads, ThreadOk;
      forall p | d + 1 <= p < s.queue ensures Enqueued(s', p) { assert Enqueued(s, p); }
      forall p | s.queue - n <= p < d ensures Claimed(s', p) { assert Claimed(s, p); }
    }
    forall k | 0 <= k < |s'.threads| ensures ThreadOk(s', s'.threads[k]) {
      hide Slots, Returns;
      assert ThreadOk(s, s.threads[k]);
    }
    assert Threads(s', n) by { hide Slots, Returns; OwnPut(s, s', i, n); }
    assert Returns(s', n) by { hide Slots; ClaimReturns(s, s', i, n); }
  }

  lemma ClaimReturns<T>(s: State<T>, s': State<T>, i: nat, n: nat)
    requires Inv(s, n) && Counters(s', n) && i < |s.threads| == |s'.threads| && Polls(s'.threads[i], s.dequeue)
    requires s'.threads == s.threads[i := s'.threads[i]] && (forall p :: !Polls(s.threads[i], p))
    requires s'.dequeue == s.dequeue + 1 && s'.returned == s.returned && s'.enqueued == s.enqueued
    ensures Returns(s', n)
  {
    hide Slots, Threads, ThreadOk;
    PollersStay(s, s', i);
    forall p: nat | p < s'.dequeue && p !in s'.returned
      ensures exists k :: 0 <= k < |s'.threads| && Polls(s'.threads[k], p)
    {
      if p < s.dequeue {
        var k :| 0 <= k < |s.threads| && Polls(s.threads[k], p);
        assert Polls(s'.threads[k], p);
      } else {
        assert Polls(s'.threads[i], p);
      }
    }
  }

  /** A step of the owner of ticket `t` on its slot, to node `m`: the other tickets do not see it. */
  lemma OwnerKeeps<T>(s: State<T>, i: nat, t: nat, m: Node<T>, next: Thread<T>, n: nat)
    requires Inv(s, n) && i < |s.threads| && (Puts(s.threads[i], t) || Polls(s.threads[i], t))
    requires Puts(s.threads[i], t) ==>
               && (Puts(next, t) || next == Idle)
               && (m.position == t || m == Node(t + 1, Some(s.enqueued[t])))
    requires Polls(s.threads[i], t) ==>
               && Polls(next, t) && m.position == t + 1
    requires ThreadOk(SetNode(s, t, m), next)
    ensures Inv(SetNode(Goto(s, i, next), t, m), n)
  {
    var s' := SetNode(Goto(s, i, next), t, m);
    assert ThreadOk(s, s.threads[i]);
    assert Slots(s', n) by { hide Returns, Threads; OwnerSlots(s, s', t, m, n); }
    forall k | 0 <= k < |s'.threads| ensures ThreadOk(s', s'.threads[k]) {
      hide Slots, Returns, Threads;
      OthersOk(s, i, t, m, n, k, next);
    }
    assert Threads(s', n) by { hide Slots, Returns; OwnPut(s, s', i, n); }
    assert Returns(s', n) by { hide Slots, Threads; PollersStay(s, s', i); }
  }

  lemma OwnerSlots<T>(s: State<T>, s': State<T>, t: nat, m: Node<T>, n: nat)
    requires Counters(s, n) && Slots(s, n) && s.queue - n <= t < s.queue
    requires s'.queue == s.queue && s'.dequeue == s.dequeue && s'.enqueued == s.enqueued
    requires s'.nodes == s.nodes[Slot(t, n) := m]
    requires s.dequeue <= t ==> m.position == t || m == Node(t + 1, Some(s.enqueued[t]))
    requires t < s.dequeue ==> m.position == t + 1 || m.position == t + n
    ensures Slots(s', n)
  {
    OwnSlots(t, s.queue - n, n);
    forall p | s.dequeue <= p < s.queue ensures Enqueued(s', p) { assert Enqueued(s, p); }
    forall p | s.queue - n <= p < s.dequeue ensures Claimed(s', p) { assert Claimed(s, p); }
  }

  lemma OthersOk<T>(s: State<T>, i: nat, t: nat, m: Node<T>, n: nat, k: nat, next: Thread<T>)
    requires Inv(s, n) && i < |s.threads| && (Puts(s.threads[i], t) || Polls(s.threads[i], t))
    requires Puts(s.threads[i], t) ==> m.position == t || m == Node(t + 1, Some(s.enqueued[t]))
    requires Polls(s.threads[i], t) ==> m.position == t + 1 || m.position == t + n
    requires k < |s.threads| && (k == i ==> ThreadOk(SetNode(s, t, m), next))
    ensures ThreadOk(SetNode(s, t, m), if k == i then next else s.threads[k])
  {
    assert ThreadOk(s, s.threads[i]);
    if k != i {
      var other := s.threads[k];
      assert ThreadOk(s, other);
      OwnSlots(t, s.queue - n, n);
      assert Puts(other, t) ==> !Puts(s.threads[i], t);
      assert Polls(other, t) ==> !Polls(s.threads[i], t);
    }
  }

  lemma PollStoreKeeps<T>(s: State<T>, i: nat, n: nat)
    requires Inv(s, n) && i < |s.threads| && s.threads[i].PollStore?
    ensures var t := s.threads[i];
            t.pos !in s.returned && t.data == Some(s.enqueued[t.pos])
            && Inv(SetNode(Goto(s, i, Idle), t.pos, NodeAt(s, t.pos).(position := t.pos + n))
                   .(returned := s.returned[t.pos := t.data]), n)
  {
    var t, pos := s.threads[i], s.threads[i].pos;
    assert ThreadOk(s, t) && Polls(t, pos);
    var m := NodeAt(s, pos).(position := pos + n);
    var s' := SetNode(Goto(s, i, Idle), pos, m).(returned := s.returned[pos := t.data]);
    assert Slots(s', n) by { hide Returns, Threads; OwnerSlots(s, s', pos, m, n); }
    forall k | 0 <= k < |s'.threads| ensures ThreadOk(s', s'.threads[k]) {
      hide Slots, Returns, Threads;
      OthersOk(s, i, pos, m, n, k, Idle);
    }
    assert Threads(s', n) by { hide Slots, Returns; OwnPut(s, s', i, n); }
    assert Returns(s', n) by { hide Slots; ReturnReturns(s, s', i, pos, n); }
  }

  lemma ReturnReturns<T>(s: State<T>, s': State<T>, i: nat, pos: nat, n: nat)
    requires Inv(s, n) && Counters(s', n) && i < |s.threads| && Polls(s.threads[i], pos) && pos < s.dequeue
    requires s'.threads == s.threads[i := Idle] && s'.dequeue == s.dequeue && s'.enqueued == s.enqueued
    requires s'.returned == s.returned[pos := Some(s.enqueued[pos])]
    ensures Returns(s', n)
  {
    hide Slots, ThreadOk;
    forall p, k | p in s'.returned && 0 <= k < |s'.threads| ensures !Polls(s'.threads[k], p) {
      if p == pos && k != i { assert !Polls(s.threads[k], pos); }
    }
    forall p: nat | p < s'.dequeue && p !in s'.returned
      ensures exists k :: 0 <= k < |s'.threads| && Polls(s'.threads[k], p)
    {
      var k :| 0 <= k < |s.threads| && Polls(s.threads[k], p);
      assert Polls(s'.threads[k], p);
    }
  }

  /** Every atomic step of every thread keeps the invariant. */
  lemma StepKeeps<T>(s: State<T>, i: nat, s': State<T>, n: nat)
    requires Inv(s, n) && Step(s, i, s')
    ensures Inv(s', n)
  {
    hide Inv;
    var t := s.threads[i];
    OwnerOk(s, i, n);
    if Owner(t) {
      OwnerStepKeeps(s, i, s', n);
    } else if t.PutCas? && s.queue == t.pos {
      PutCasKeeps(s, i, t.item, n);
    } else if t.PollCas? && s.dequeue == t.pos {
      PollCasKeeps(s, i, n);
    } else if s' == s.(disposed := true) {
      DisposeKeeps(s, n);
    } else {
      IdlePassKeeps(s, i, s', n);
    }
  }

  /** The steps that own no ticket before or after. */
  lemma IdlePassKeeps<T>(s: State<T>, i: nat, s': State<T>, n: nat)
    requires Inv(s, n) && Step(s, i, s') && s' != s.(disposed := true)
    requires !Owner(s.threads[i])
    requires s.threads[i].PutCas? ==> s.queue != s.threads[i].pos
    requires s.threads[i].PollCas? ==> s.dequeue != s.threads[i].pos
    ensures Inv(s', n)
  {
    hide Inv, ThreadOk, Owner;
    OwnerOk(s, i, n);
    NextOk(s, i, s');
    MoveKeeps(s, i, s'.threads[i], n);
  }

  lemma NextOk<T>(s: State<T>, i: nat, s': State<T>)
    requires |s.nodes| > 0 && s.dequeue <= s.queue == |s.enqueued| && Step(s, i, s') && s' != s.(disposed := true)
    requires ThreadOk(s, s.threads[i]) && !Owner(s.threads[i])
    requires s.threads[i].PutCas? ==> s.queue != s.threads[i].pos
    requires s.threads[i].PollCas? ==> s.dequeue != s.threads[i].pos
    ensures i < |s'.threads| && s' == Goto(s, i, s'.threads[i]) && ThreadOk(s, s'.threads[i]) && !Owner(s'.threads[i])
  {
    hide SetNode;
    match s.threads[i]
    case PutLoad(item, pos) =>
    case PollLoad(pos) =>
    case Idle =>
    case _ => hide NodeAt;
  }

  lemma OwnerStepKeeps<T>(s: State<T>, i: nat, s': State<T>, n: nat)
    requires Inv(s, n) && Step(s, i, s') && Owner(s.threads[i])
    ensures Inv(s', n)
  {
    hide Inv, Slots, Returns;
    var t := s.threads[i];
    OwnerOk(s, i, n);
    match t
    case PutWrite(item, pos) => OwnerKeeps(s, i, pos, NodeAt(s, pos).(data := Some(item)), PutStore(pos), n);
    case PutStore(pos) => OwnerKeeps(s, i, pos, NodeAt(s, pos).(position := pos + 1), Idle, n);
    case PollRead(pos) =>
      OwnerKeeps(s, i, pos, NodeAt(s, pos), PollClear(pos, NodeAt(s, pos).data), n);
      assert s' == SetNode(s', pos, NodeAt(s, pos));
    case PollClear(pos, data) => OwnerKeeps(s, i, pos, NodeAt(s, pos).(data := None), PollStore(pos, data), n);
    case PollStore(pos, data) => PollStoreKeeps(s, i, n);
  }

  lemma OwnerOk<T>(s: State<T>, i: nat, n: nat)
    requires Inv(s, n) && i < |s.threads|
    ensures Counters(s, n) && ThreadOk(s, s.threads[i])
  {
  }

  lemma DisposeKeeps<T>(s: State<T>, n: nat)
    requires Inv(s, n)
    ensures Inv(s.(disposed := true), n)
  {
    var s' := s.(disposed := true);
    forall p | s.dequeue <= p < s.queue ensures Enqueued(s', p) { assert Enqueued(s, p); }
    forall p | s.queue - n <= p < s.dequeue ensures Claimed(s', p) { assert Claimed(s, p); }
    forall i | 0 <= i < |s.threads| ensures ThreadOk(s', s.threads[i]) { assert ThreadOk(s, s.threads[i]); }
  }

  // ---- What the invariant gives

  lemma {:induction false} RunKeeps<T>(run: seq<State<T>>, k: nat, n: nat)
    requires IsRun(run, n) && n >= 2 && k < |run|
    ensures Inv(run[k], n)
  {
    hide Inv, Init, Step;
    if k == 0 {
      InitKeeps(run[0], n);
    } else {
      RunKeeps(run, k - 1, n);
      assert Next(run[k - 1], run[k]);
      var i :| Step(run[k - 1], i, run[k]);
      StepKeeps(run[k - 1], i, run[k], n);
    }
  }

  /** The queue that the ring stands for; Len() is its length. */
  function Fifo<T>(s: State<T>): seq<T>
    requires s.dequeue <= s.queue == |s.enqueued|
  {
    s.enqueued[s.dequeue..]
  }

  datatype Event<T> = Quiet | Enqueue(item: T) | Dequeue

  /** The linearization points are the two successful compare-and-swaps. */
  function EventOf<T>(s: State<T>, i: nat): Event<T>
    requires i < |s.threads|
  {
    match s.threads[i]
    case PutCas(item, pos) => if s.queue == pos then Enqueue(item) else Quiet
    case PollCas(pos) => if s.dequeue == pos then Dequeue else Quiet
    case _ => Quiet
  }

  /** In every run, every step acts on the queue as a FIFO of at most N items: it leaves it alone, appends the
      item of the Put whose compare-and-swap succeeds, or takes the head for the Poll whose one does. */
  lemma RunIsFifo<T>(run: seq<State<T>>, k: nat, i: nat, n: nat)
    requires IsRun(run, n) && n >= 2 && k + 1 < |run| && |run[k].nodes| > 0 && Step(run[k], i, run[k + 1])
    ensures var s, s' := run[k], run[k + 1];
            && s.dequeue <= s.queue == |s.enqueued| && s'.dequeue <= s'.queue == |s'.enqueued|
            && s.queue - s.dequeue == |Fifo(s)| <= n
            && match EventOf(s, i)
               case Quiet => Fifo(s') == Fifo(s)
               case Enqueue(item) => |Fifo(s)| < n && Fifo(s') == Fifo(s) + [item]
               case Dequeue => Fifo(s) != [] && Fifo(s') == Fifo(s)[1..] && s.enqueued[s.dequeue] == Fifo(s)[0]
  {
    hide Slots, Threads, Returns, IsRun;
    RunKeeps(run, k, n);
    RunKeeps(run, k + 1, n);
  }

  /** Exactly once: in every run, a Poll that returns holds a ticket that no Poll has returned before, and
      returns the item of the enqueue ticket with the same number; and every ticket that was claimed has been
      returned so or is held by a thread, by no more than one, and not both. */
  lemma DeliveredOnce<T>(run: seq<State<T>>, k: nat, i: nat, n: nat)
    requires IsRun(run, n) && n >= 2 && k < |run| && i < |run[k].threads| && run[k].threads[i].PollStore?
    ensures var s, t := run[k], run[k].threads[i];
            && t.pos < s.dequeue <= |s.enqueued| && t.pos !in s.returned && t.data == Some(s.enqueued[t.pos])
            && (forall p :: p in s.returned ==> p < |s.enqueued| && s.returned[p] == Some(s.enqueued[p]))
            && (forall j :: 0 <= j < |s.threads| && Polls(s.threads[j], t.pos) ==> j == i)
            && (forall p: nat :: p < s.dequeue ==> p in s.returned || IsHeld(s, p))
  {
    RunKeeps(run, k, n);
    var s, t := run[k], run[k].threads[i];
    assert ThreadOk(s, t) && Polls(t, t.pos);
  }

  ghost predicate IsHeld<T>(s: State<T>, p: nat) {
    exists j :: 0 <= j < |s.threads| && Polls(s.threads[j], p)
  }

  /** Nothing is lost: in every state of every run, each ticket that a Poll has claimed was returned with its own
      item, or is held by exactly one thread that is still to return it, and not both; an enqueued ticket that no
      Poll has claimed is neither, and is in the queue. */
  lemma NothingIsLost<T>(run: seq<State<T>>, k: nat, p: nat, n: nat)
    requires IsRun(run, n) && n >= 2 && k < |run|
    ensures var s := run[k];
            && s.dequeue <= s.queue == |s.enqueued|
            && (p in s.returned ==> p < s.dequeue && s.returned[p] == Some(s.enqueued[p]))
            && (p < s.dequeue ==> (p in s.returned <==> !IsHeld(s, p)))
            && (p >= s.dequeue ==> p !in s.returned && !IsHeld(s, p))
            && (s.dequeue <= p < s.queue ==> Fifo(s)[p - s.dequeue] == s.enqueued[p])
            && (forall i, j :: 0 <= i < j < |s.threads| ==> !(Polls(s.threads[i], p) && Polls(s.threads[j], p)))
  {
    RunKeeps(run, k, n);
    var s := run[k];
    forall i | 0 <= i < |s.threads| && Polls(s.threads[i], p) ensures p < s.dequeue {
      assert ThreadOk(s, s.threads[i]);
    }
  }

  /** No slot is overwritten before it is read: when a Put writes into its slot, the item of the lap before has
      already been returned. */
  lemma NoOverwrite<T>(run: seq<State<T>>, k: nat, i: nat, n: nat)
    requires IsRun(run, n) && n >= 2 && k < |run| && i < |run[k].threads| && run[k].threads[i].PutWrite?
    ensures var pos := run[k].threads[i].pos; pos >= n ==> pos - n in run[k].returned
  {
    RunKeeps(run, k, n);
    var s := run[k];
    var pos := s.threads[i].pos;
    assert ThreadOk(s, s.threads[i]);
    if pos >= n {
      SlotsRepeat(pos - n, n);
      forall j | 0 <= j < |s.threads| ensures !Polls(s.threads[j], pos - n) {
        assert ThreadOk(s, s.threads[j]);
      }
    }
  }

  // ---- One slot is too few

  /** A ring of one slot: the position of a filled slot is the ticket of the next Put. */
  function OneSlotRun<T>(x: T, y: T): (run: seq<State<T>>) {
    var st := (q: nat, node: Node<T>, t: Thread<T>, items: seq<T>) =>
      State(q, 0, false, [node], [t], items, map[]);
    [ st(0, Node(0, None), Idle, []), st(0, Node(0, None), PutCheck(x, 0), []),
      st(0, Node(0, None), PutLoad(x, 0), []), st(0, Node(0, None), PutCas(x, 0), []),
      st(1, Node(0, None), PutWrite(x, 0), [x]), st(1, Node(0, Some(x)), PutStore(0), [x]),
      st(1, Node(1, Some(x)), Idle, [x]), st(1, Node(1, Some(x)), PutCheck(y, 1), [x]),
      st(1, Node(1, Some(x)), PutLoad(y, 1), [x]), st(1, Node(1, Some(x)), PutCas(y, 1), [x]),
      st(2, Node(1, Some(x)), PutWrite(y, 1), [x, y]), st(2, Node(1, Some(y)), PutStore(1), [x, y]) ]
  }

  /** With one slot two Puts in a row overwrite the first item before any Poll has claimed it. */
  lemma OneSlotOverwrites<T>(x: T, y: T)
    ensures IsRun(OneSlotRun(x, y), 1)
    ensures var last := OneSlotRun(x, y)[11];
            last.queue == 2 && last.dequeue == 0 && last.enqueued == [x, y] && last.nodes[0].data == Some(y)
  {
    var run := OneSlotRun(x, y);
    forall k | 0 <= k < |run| - 1 ensures Next(run[k], run[k + 1]) {
      assert Step(run[k], 0, run[k + 1]);
    }
  }

  /** Whatever the items are, the ring keeps to its capacity in every run exactly when it has at least two slots. */
  lemma CapacityLaw<T>(n: nat, item: T)
    requires n >= 1
    ensures (forall run: seq<State<T>>, k ::
               IsRun(run, n) && 0 <= k < |run| ==> run[k].queue <= run[k].dequeue + n) <==> n >= 2
  {
    hide Inv, IsRun;
    if n >= 2 {
      forall run: seq<State<T>>, k: nat | IsRun(run, n) && k < |run| ensures run[k].queue <= run[k].dequeue + n {
        RunKeeps(run, k, n);
        InvBound(run[k], n);
      }
    } else {
      OneSlotOverwrites(item, item);
      assert 0 <= 11 < |OneSlotRun(item, item)|;
    }
  }

  lemma InvBound<T>(s: State<T>, n: nat)
    requires Inv(s, n)
    ensures s.dequeue <= s.queue <= s.dequeue + n
  {
  }

  // ---- The capacity

  const WORD := 0x1_0000_0000_0000_0000
  const HALF_WORD := 0x8000_0000_0000_0000

  /** A line v |= v >> k of roundUp. */
  function Folded(a: nat, k: nat): nat {
    Or(a, Shr(a, k))
  }

  /** The lines of roundUp between v-- and v++: all bits from the highest one set downwards. */
  function Smear(a: nat): nat {
    var b := Folded(a, 1);
    var c := Folded(b, 2);
    var d := Folded(c, 4);
    var e := Folded(d, 8);
    var f := Folded(e, 16);
    Folded(f, 32)
  }

  /** roundUp on 64-bit words, whose -- and ++ wrap around. */
  function RoundUp(v: nat): nat {
    (Smear((v + WORD - 1) % WORD) + 1) % WORD
  }

  lemma WordLengths()
    ensures Pow2(63) == HALF_WORD && Pow2(64) == WORD
  {
    assert Pow2(0) == 1 && Pow2(1) == 2 && Pow2(2) == 4 && Pow2(3) == 8 && Pow2(4) == 16;
    Pow2Adds(4, 4);
    Pow2Adds(8, 8);
    Pow2Adds(16, 16);
    Pow2Adds(32, 32);
  }

  /** After folding by k, the top 2k bits are set when the top k were. */
  ghost predicate TopSet(a: nat, l: nat, k: nat) {
    Shr(a, l - Min(k, l)) == Ones(Min(k, l))
  }

  lemma FoldStep(a: nat, l: nat, k: nat)
    requires k > 0 && TopSet(a, l, k)
    ensures TopSet(Folded(a, k), l, 2 * k)
  {
    SmearStep(a, l, k);
  }

  lemma SmearIsOnes(a: nat)
    requires a < WORD
    ensures Smear(a) == Ones(Length(a)) && Length(a) <= 64
  {
    hide Folded, TopSet, Ones, Length, Pow2;
    WordLengths();
    LengthFits(a, 64);
    var l := Length(a);
    FirstBit(a);
    var b := Folded(a, 1);
    FoldStep(a, l, 1);
    var c := Folded(b, 2);
    FoldStep(b, l, 2);
    var d := Folded(c, 4);
    FoldStep(c, l, 4);
    var e := Folded(d, 8);
    FoldStep(d, l, 8);
    var f := Folded(e, 16);
    FoldStep(e, l, 16);
    FoldStep(f, l, 32);
    AllBits(Smear(a), l);
  }

  lemma {:induction false} FirstBit(a: nat)
    ensures TopSet(a, Length(a), 1)
  {
    var l := Length(a);
    if a > 0 { TopBit(a); }
    assert Shr(a, l - Min(1, l)) == Ones(Min(1, l));
  }

  lemma {:induction false} AllBits(g: nat, l: nat)
    requires l <= 64 && TopSet(g, l, 64)
    ensures g == Ones(l)
  {
    ShrZero(g);
  }

  lemma RoundUpIsPower(v: nat)
    requires v < WORD
    ensures RoundUp(v) == if 1 <= v <= HALF_WORD then Pow2(Length(v - 1)) else 0
    ensures 1 <= v <= HALF_WORD ==> Length(v - 1) <= 63
  {
    hide Smear, Pow2, Length;
    var a := (v + WORD - 1) % WORD;
    assert a == if v == 0 then WORD - 1 else v - 1;
    WordLengths();
    SmearIsOnes(a);
    LengthBounds(a);
    if 1 <= v <= HALF_WORD {
      LengthFits(a, 63);
      if Length(a) < 63 { Pow2Grows(Length(a), 63); }
    } else if Length(a) < 63 {
      Pow2Grows(Length(a), 63);
    }
  }

  /** roundUp gives the least power of two that is not below the size asked for, as long as it fits into a word, and
      otherwise, for no size or one above 2^63, gives 0. */
  lemma RoundUpIsLeastPower(v: nat)
    requires v < WORD
    ensures var r := RoundUp(v);
            if 1 <= v <= HALF_WORD then
              v <= r && (exists k :: r == Pow2(k)) && forall k :: Pow2(k) >= v ==> Pow2(k) >= r
            else r == 0
  {
    hide RoundUp, Pow2, Length;
    RoundUpIsPower(v);
    if 1 <= v <= HALF_WORD {
      var l := Length(v - 1);
      LengthBounds(v - 1);
      forall k | Pow2(k) >= v ensures Pow2(k) >= Pow2(l) {
        if k < l { LengthFits(v - 1, k); }
        if l < k { Pow2Grows(l, k); }
      }
    }
  }

  /** Masking a ticket by the capacity less one, as put and Poll do, gives its slot. */
  lemma {:induction false} MaskIsSlot(v: nat, ticket: nat)
    requires 1 <= v <= HALF_WORD
    ensures var n := RoundUp(v); n > 0 && And(ticket, n - 1) == Slot(ticket, n)
  {
    hide RoundUp, Length, And;
    RoundUpIsPower(v);
    MaskIsRemainder(ticket, Length(v - 1));
  }
}
