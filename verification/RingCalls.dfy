/** What a call on the ring of src/utils/task/ring.go comes to: a thread left alone gets its item or its place, leaves
    early only for a reason, and gets nothing once the ring is disposed. */
module RingCalls {
  import opened Bytes
  import opened Ring

  // ---- Every slot at work has its worker

  ghost predicate IsPut<T>(s: State<T>, p: nat) {
    exists j :: 0 <= j < |s.threads| && Puts(s.threads[j], p)
  }

  /** A slot whose ticket is taken and not stored yet is being written by a Put; one whose ticket is claimed and not
      freed yet is being read by a Poll; the slots of tickets before the first are free. */
  ghost predicate Manned<T>(s: State<T>, n: nat)
    requires Counters(s, n)
  {
    && (forall p: nat :: s.dequeue <= p < s.queue && NodeAt(s, p).position == p ==> IsPut(s, p))
    && (forall p: nat :: s.queue - n <= p < s.dequeue && NodeAt(s, p).position == p + 1 ==> IsHeld(s, p))
    && (forall p: int :: s.queue - n <= p < 0 ==> s.nodes[Slot(p, n)].position == p + n)
  }

  /** A step that leaves the position of a ticket's slot alone leaves its worker at work, or hands it on. */
  lemma WorkerStays<T>(s: State<T>, i: nat, s': State<T>, p: nat)
    requires i < |s.threads| == |s'.threads| && s'.threads == s.threads[i := s'.threads[i]]
    requires Puts(s.threads[i], p) ==> Puts(s'.threads[i], p)
    ensures IsPut(s, p) ==> IsPut(s', p)
  {
    if IsPut(s, p) {
      var j :| 0 <= j < |s.threads| && Puts(s.threads[j], p);
      assert Puts(s'.threads[j], p);
    }
  }

  lemma HolderStays<T>(s: State<T>, i: nat, s': State<T>, p: nat)
    requires i < |s.threads| == |s'.threads| && s'.threads == s.threads[i := s'.threads[i]]
    requires Polls(s.threads[i], p) ==> Polls(s'.threads[i], p)
    ensures IsHeld(s, p) ==> IsHeld(s', p)
  {
    if IsHeld(s, p) {
      var j :| 0 <= j < |s.threads| && Polls(s.threads[j], p);
      assert Polls(s'.threads[j], p);
    }
  }

  lemma ThreadsOnly<T>(s: State<T>, i: nat, s': State<T>)
    requires |s.nodes| > 0 && Step(s, i, s')
    ensures |s'.threads| == |s.threads| && s'.threads == s.threads[i := s'.threads[i]]
  {
    hide NodeAt, Slot;
    match s.threads[i]
    case Idle =>
      if s' == s.(disposed := true) { assert s'.threads == s.threads[i := s'.threads[i]]; }
    case _ =>
  }

  lemma MannedKeeps<T>(s: State<T>, i: nat, s': State<T>, n: nat)
    requires Inv(s, n) && Inv(s', n) && Manned(s, n) && Step(s, i, s')
    ensures Counters(s', n) && Manned(s', n)
  {
    ThreadsOnly(s, i, s');
    OwnerOk(s, i, n);
    OwnerOk(s', i, n);
    forall p: nat | s'.dequeue <= p < s'.queue && NodeAt(s', p).position == p ensures IsPut(s', p) {
      PutManned(s, i, s', p, n);
    }
    forall p: nat | s'.queue - n <= p < s'.dequeue && NodeAt(s', p).position == p + 1 ensures IsHeld(s', p) {
      HeldManned(s, i, s', p, n);
    }
    forall p: int | s'.queue - n <= p < 0 ensures s'.nodes[Slot(p, n)].position == p + n {
      CountersMove(s, i, s');
      hide Inv, Step;
      OwnNode(s, i, s', p, n);
    }
  }

  lemma PutManned<T>(s: State<T>, i: nat, s': State<T>, p: nat, n: nat)
    requires Inv(s, n) && Inv(s', n) && Counters(s, n) && Manned(s, n) && Step(s, i, s')
    requires |s'.threads| == |s.threads| && s'.threads == s.threads[i := s'.threads[i]]
    requires |s'.nodes| > 0 && s'.dequeue <= p < s'.queue && NodeAt(s', p).position == p
    ensures IsPut(s', p)
  {
    CountersMove(s, i, s');
    hide Inv, Step, Puts, Polls;
    if p == s.queue {
      assert Puts(s'.threads[i], p);
    } else {
      OwnNode(s, i, s', p, n);
      TicketsStay(s, i, s', p);
      WorkerStays(s, i, s', p);
    }
  }

  lemma HeldManned<T>(s: State<T>, i: nat, s': State<T>, p: nat, n: nat)
    requires Inv(s, n) && Inv(s', n) && Counters(s, n) && Manned(s, n) && Step(s, i, s')
    requires |s'.threads| == |s.threads| && s'.threads == s.threads[i := s'.threads[i]]
    requires |s'.nodes| > 0 && s'.queue - n <= p < s'.dequeue && NodeAt(s', p).position == p + 1
    requires s'.dequeue <= s'.queue
    ensures IsHeld(s', p)
  {
    CountersMove(s, i, s');
    hide Inv, Step, Puts, Polls;
    if p == s.dequeue {
      assert Polls(s'.threads[i], p);
    } else {
      OwnNode(s, i, s', p, n);
      PutStoreIsLive(s, i, n);
      TicketsStay(s, i, s', p);
      HolderStays(s, i, s', p);
    }
  }

  lemma PutStoreIsLive<T>(s: State<T>, i: nat, n: nat)
    requires Inv(s, n) && i < |s.threads|
    ensures s.threads[i].PutStore? ==> s.threads[i].pos >= s.dequeue
  {
    OwnerOk(s, i, n);
  }

  lemma CountersMove<T>(s: State<T>, i: nat, s': State<T>)
    requires |s.nodes| > 0 && Step(s, i, s') && i < |s'.threads|
    ensures s'.queue == s.queue || (s'.queue == s.queue + 1 && Puts(s'.threads[i], s.queue))
    ensures s'.dequeue == s.dequeue || (s'.dequeue == s.dequeue + 1 && Polls(s'.threads[i], s.dequeue))
  {
    hide NodeAt, Slot;
  }

  lemma TicketsStay<T>(s: State<T>, i: nat, s': State<T>, p: nat)
    requires |s.nodes| > 0 && Step(s, i, s') && i < |s'.threads|
    ensures Puts(s.threads[i], p) && !s.threads[i].PutStore? ==> Puts(s'.threads[i], p)
    ensures Polls(s.threads[i], p) && !s.threads[i].PollStore? ==> Polls(s'.threads[i], p)
    ensures s.threads[i].PutStore? && Puts(s.threads[i], p) ==> s.threads[i].pos == p
    ensures s.threads[i].PollStore? && Polls(s.threads[i], p) ==> s.threads[i].pos == p
  {
    hide NodeAt, Slot;
  }

  /** What a step does to the position of a live ticket's slot, and how the counters move. */
  lemma OwnNode<T>(s: State<T>, i: nat, s': State<T>, p: int, n: nat)
    requires Inv(s, n) && Step(s, i, s') && s.queue - n <= p < s.queue
    ensures |s'.nodes| == |s.nodes| == n
    ensures s'.nodes[Slot(p, n)].position ==
            if s.threads[i].PutStore? && s.threads[i].pos == p then p + 1
            else if s.threads[i].PollStore? && s.threads[i].pos == p then p + n
            else s.nodes[Slot(p, n)].position
  {
    OwnerOk(s, i, n);
    OwnSlots(p, s.queue - n, n);
    hide Inv;
  }

  lemma RunNext<T>(run: seq<State<T>>, k: nat, n: nat)
    requires IsRun(run, n) && k + 1 < |run|
    ensures Next(run[k], run[k + 1])
  {
  }

  lemma {:induction false} RunManned<T>(run: seq<State<T>>, k: nat, n: nat)
    requires IsRun(run, n) && n >= 2 && k < |run|
    ensures Inv(run[k], n) && Counters(run[k], n) && Manned(run[k], n)
  {
    hide Inv, Step, Manned, Counters, Init;
    RunKeeps(run, k, n);
    if k == 0 {
      InitManned(run[0], n);
    } else {
      RunManned(run, k - 1, n);
      RunNext(run, k - 1, n);
      var i :| Step(run[k - 1], i, run[k]);
      MannedKeeps(run[k - 1], i, run[k], n);
    }
  }

  lemma InitManned<T>(s: State<T>, n: nat)
    requires Init(s, n) && n >= 2
    ensures Counters(s, n) && Manned(s, n)
  {
    hide Slot, IsPut, IsHeld;
    forall p: int | s.queue - n <= p < 0 ensures s.nodes[Slot(p, n)].position == p + n {
      SlotsRepeat(p, n);
      FirstLap(p + n, n);
    }
  }

  lemma FirstLap(p: nat, n: nat)
    requires p < n
    ensures Slot(p, n) == p
  {
  }

  // ---- A thread left alone

  /** Thread `i` makes the `m` steps of the run from state `k` on. */
  ghost predicate Alone<T>(run: seq<State<T>>, k: nat, i: nat, m: nat) {
    k + m < |run| && forall l :: k <= l < k + m ==> |run[l].nodes| > 0 && Step(run[l], i, run[l + 1])
  }

  predicate InCall<T>(s: State<T>, i: nat) {
    i < |s.threads| && s.threads[i] != Idle
  }

  /** The slot of the next item to poll has been filled. */
  predicate HeadFilled<T>(s: State<T>) {
    |s.nodes| > 0 && NodeAt(s, s.dequeue).position == s.dequeue + 1
  }

  /** The slot of the next item to put is free. */
  predicate NextFree<T>(s: State<T>) {
    |s.nodes| > 0 && NodeAt(s, s.queue).position == s.queue
  }

  /** A Poll of thread `i` after `m` steps, from state `s` on, with the ring to itself. */
  function PollState<T>(s: State<T>, i: nat, m: nat): State<T>
    requires i < |s.threads| && |s.nodes| > 0 && s.dequeue < |s.enqueued| && m <= 7
  {
    var d, item := s.dequeue, Some(s.enqueued[s.dequeue]);
    var claimed := s.(dequeue := d + 1);
    match m
    case 0 => s
    case 1 => Goto(s, i, PollCheck(d))
    case 2 => Goto(s, i, PollLoad(d))
    case 3 => Goto(s, i, PollCas(d))
    case 4 => Goto(claimed, i, PollRead(d))
    case 5 => Goto(claimed, i, PollClear(d, item))
    case 6 => SetNode(Goto(claimed, i, PollStore(d, item)), d, Node(d + 1, None))
    case _ => SetNode(Goto(claimed, i, Idle), d, Node(d + |s.nodes|, None)).(returned := s.returned[d := item])
  }

  lemma PollStep<T>(s: State<T>, i: nat, m: nat, x: State<T>, n: nat)
    requires Inv(s, n) && i < |s.threads| && !s.disposed && HeadFilled(s) && 1 <= m < 7
    ensures s.dequeue < |s.enqueued|
    ensures Step(PollState(s, i, m), i, x) <==> x == PollState(s, i, m + 1)
  {
    HeadIsItem(s, n);
    var p := PollState(s, i, m);
    var d, item := s.dequeue, Some(s.enqueued[s.dequeue]);
    assert p.threads[i] ==
           match m
           case 1 => PollCheck(d)
           case 2 => PollLoad(d)
           case 3 => PollCas(d)
           case 4 => PollRead(d)
           case 5 => PollClear(d, item)
           case _ => PollStore(d, item);
    hide Inv, Slot;
  }

  lemma EmptyIsNotFilled<T>(s: State<T>, n: nat)
    requires Inv(s, n) && s.queue == s.dequeue
    ensures |s.nodes| == n && NodeAt(s, s.dequeue).position != s.dequeue + 1
  {
    SlotsRepeat(s.dequeue - n, n);
    assert Claimed(s, s.dequeue - n);
  }

  lemma HeadIsItem<T>(s: State<T>, n: nat)
    requires Inv(s, n) && HeadFilled(s)
    ensures |s.nodes| == n && s.dequeue < s.queue == |s.enqueued|
    ensures NodeAt(s, s.dequeue) == Node(s.dequeue + 1, Some(s.enqueued[s.dequeue]))
  {
    OwnerCounters(s, n);
    assert s.dequeue < s.queue by {
      hide Inv;
      if s.dequeue == s.queue { EmptyIsNotFilled(s, n); }
    }
    assert Enqueued(s, s.dequeue);
  }

  lemma OwnerCounters<T>(s: State<T>, n: nat)
    requires Inv(s, n)
    ensures Counters(s, n)
  {
  }

  lemma {:induction false} PollStates<T>(run: seq<State<T>>, k: nat, i: nat, m: nat, n: nat)
    requires Alone(run, k, i, 7) && Inv(run[k], n) && i < |run[k].threads| && !run[k].disposed && HeadFilled(run[k])
    requires run[k].threads[i] == Idle && i < |run[k + 1].threads| && run[k + 1].threads[i] == PollCheck(run[k].dequeue)
    requires 1 <= m <= 7
    ensures run[k].dequeue < |run[k].enqueued| && run[k + m] == PollState(run[k], i, m)
  {
    HeadIsItem(run[k], n);
    hide Inv, Slot, HeadFilled, NodeAt;
    if m == 1 {
      assert Step(run[k], i, run[k + 1]);
    } else {
      PollStates(run, k, i, m - 1, n);
      assert Step(run[k + m - 1], i, run[k + m - 1 + 1]);
      hide Step, PollState;
      PollStep(run[k], i, m - 1, run[k + m], n);
    }
  }

  /** On a ring that is not disposed, with the head's slot filled, a Poll that is left alone returns the head of the
      queue, and does not leave before. */
  lemma PollReturnsHead<T>(run: seq<State<T>>, k: nat, i: nat, n: nat)
    requires IsRun(run, n) && n >= 2 && Alone(run, k, i, 7)
    requires var s := run[k]; i < |s.threads| && s.threads[i] == Idle && !s.disposed && HeadFilled(s)
    requires i < |run[k + 1].threads| && run[k + 1].threads[i] == PollCheck(run[k].dequeue)
    ensures var s, s' := run[k], run[k + 7];
            && s.dequeue < s.queue == |s.enqueued| && s'.dequeue <= s'.queue == |s'.enqueued|
            && s'.returned == s.returned[s.dequeue := Some(Fifo(s)[0])] && Fifo(s') == Fifo(s)[1..]
            && s'.threads == s.threads && s'.disposed == s.disposed
            && forall l :: k < l < k + 7 ==> InCall(run[l], i)
  {
    RunKeeps(run, k, n);
    HeadIsItem(run[k], n);
    PollStates(run, k, i, 7, n);
    PollEnd(run[k], i, n);
    forall l | k < l < k + 7 ensures InCall(run[l], i) {
      PollStates(run, k, i, l - k, n);
      PollUnderWay(run[k], i, l - k);
    }
    OwnerCounters(run[k], n);
    hide Inv, IsRun, Alone, Step, HeadFilled, Slot, PollState, InCall;
  }

  lemma PollEnd<T>(s: State<T>, i: nat, n: nat)
    requires Counters(s, n) && i < |s.threads| && s.threads[i] == Idle && s.dequeue < |s.enqueued|
    ensures var s' := PollState(s, i, 7);
            && s'.dequeue <= s'.queue == |s'.enqueued| && Fifo(s') == Fifo(s)[1..]
            && s'.returned == s.returned[s.dequeue := Some(Fifo(s)[0])]
            && s'.threads == s.threads && s'.disposed == s.disposed
  {
    hide Slot;
    assert s.threads[i := Idle] == s.threads;
  }

  lemma PollUnderWay<T>(s: State<T>, i: nat, m: nat)
    requires i < |s.threads| && |s.nodes| > 0 && s.dequeue < |s.enqueued| && 1 <= m < 7
    ensures InCall(PollState(s, i, m), i)
  {
    hide Slot;
  }

  /** And there is such a Poll: each of its steps is possible. */
  lemma PollIsPossible<T>(s: State<T>, i: nat, n: nat) returns (path: seq<State<T>>)
    requires Inv(s, n) && i < |s.threads| && s.threads[i] == Idle && !s.disposed && HeadFilled(s)
    ensures |path| == 8 && path[0] == s && Alone(path, 0, i, 7)
    ensures i < |path[1].threads| && path[1].threads[i] == PollCheck(s.dequeue)
  {
    HeadIsItem(s, n);
    path := seq(8, m requires 0 <= m < 8 => PollState(s, i, m));
    assert Step(s, i, PollState(s, i, 1));
    forall l | 0 <= l < 7 ensures |path[l].nodes| > 0 && Step(path[l], i, path[l + 1]) {
      if l > 0 { PollStep(s, i, l, path[l + 1], n); }
    }
  }

  // ---- The same for Put

  function PutState<T>(s: State<T>, i: nat, item: T, m: nat): State<T>
    requires i < |s.threads| && |s.nodes| > 0 && m <= 6
  {
    var q := s.queue;
    var taken := s.(queue := q + 1, enqueued := s.enqueued + [item]);
    match m
    case 0 => s
    case 1 => Goto(s, i, PutCheck(item, q))
    case 2 => Goto(s, i, PutLoad(item, q))
    case 3 => Goto(s, i, PutCas(item, q))
    case 4 => Goto(taken, i, PutWrite(item, q))
    case 5 => SetNode(Goto(taken, i, PutStore(q)), q, Node(q, Some(item)))
    case _ => SetNode(Goto(taken, i, Idle), q, Node(q + 1, Some(item)))
  }

  lemma PutStep<T>(s: State<T>, i: nat, item: T, m: nat, x: State<T>)
    requires i < |s.threads| && !s.disposed && NextFree(s) && 1 <= m < 6
    ensures Step(PutState(s, i, item, m), i, x) <==> x == PutState(s, i, item, m + 1)
  {
    var p, q := PutState(s, i, item, m), s.queue;
    assert p.threads[i] ==
           match m
           case 1 => PutCheck(item, q)
           case 2 => PutLoad(item, q)
           case 3 => PutCas(item, q)
           case 4 => PutWrite(item, q)
           case _ => PutStore(q);
    hide Slot;
  }

  lemma {:induction false} PutStates<T>(run: seq<State<T>>, k: nat, i: nat, item: T, m: nat)
    requires Alone(run, k, i, 6) && i < |run[k].threads| && !run[k].disposed && NextFree(run[k])
    requires run[k].threads[i] == Idle && i < |run[k + 1].threads|
    requires run[k + 1].threads[i] == PutCheck(item, run[k].queue) && 1 <= m <= 6
    ensures run[k + m] == PutState(run[k], i, item, m)
  {
    hide Slot, NextFree, NodeAt;
    assert |run[k].nodes| > 0;
    if m == 1 {
      assert Step(run[k], i, run[k + 1]);
    } else {
      PutStates(run, k, i, item, m - 1);
      assert Step(run[k + m - 1], i, run[k + m - 1 + 1]);
      hide Step, PutState;
      PutStep(run[k], i, item, m - 1, run[k + m]);
    }
  }

  /** On a ring that is not disposed, with the slot of the next ticket free, a Put that is left alone appends its item,
      fills the slot with it, and does not leave before. */
  lemma PutAppends<T>(run: seq<State<T>>, k: nat, i: nat, item: T, n: nat)
    requires IsRun(run, n) && n >= 2 && Alone(run, k, i, 6)
    requires var s := run[k]; i < |s.threads| && s.threads[i] == Idle && !s.disposed && NextFree(s)
    requires i < |run[k + 1].threads| && run[k + 1].threads[i] == PutCheck(item, run[k].queue)
    ensures var s, s' := run[k], run[k + 6];
            && s.dequeue <= s.queue == |s.enqueued| && s'.dequeue <= s'.queue == |s'.enqueued|
            && Fifo(s') == Fifo(s) + [item] && s'.returned == s.returned
            && |s'.nodes| > 0 && NodeAt(s', s.queue) == Node(s.queue + 1, Some(item))
            && s'.threads == s.threads && s'.disposed == s.disposed
            && forall l :: k < l < k + 6 ==> InCall(run[l], i)
  {
    RunKeeps(run, k, n);
    OwnerCounters(run[k], n);
    PutStates(run, k, i, item, 6);
    PutEnd(run[k], i, item, n);
    forall l | k < l < k + 6 ensures InCall(run[l], i) {
      PutStates(run, k, i, item, l - k);
      PutUnderWay(run[k], i, item, l - k);
    }
    hide Inv, IsRun, Alone, Step, NextFree, Slot, PutState, InCall;
  }

  lemma PutEnd<T>(s: State<T>, i: nat, item: T, n: nat)
    requires Counters(s, n) && i < |s.threads| && s.threads[i] == Idle
    ensures var s' := PutState(s, i, item, 6);
            && s'.dequeue <= s'.queue == |s'.enqueued| && Fifo(s') == Fifo(s) + [item] && s'.returned == s.returned
            && |s'.nodes| > 0 && NodeAt(s', s.queue) == Node(s.queue + 1, Some(item))
            && s'.threads == s.threads && s'.disposed == s.disposed
  {
    assert s.threads[i := Idle] == s.threads;
  }

  lemma PutUnderWay<T>(s: State<T>, i: nat, item: T, m: nat)
    requires i < |s.threads| && |s.nodes| > 0 && 1 <= m < 6
    ensures InCall(PutState(s, i, item, m), i)
  {
    hide Slot;
  }

  lemma PutIsPossible<T>(s: State<T>, i: nat, item: T) returns (path: seq<State<T>>)
    requires i < |s.threads| && s.threads[i] == Idle && !s.disposed && NextFree(s)
    ensures |path| == 7 && path[0] == s && Alone(path, 0, i, 6)
    ensures i < |path[1].threads| && path[1].threads[i] == PutCheck(item, s.queue)
  {
    path := seq(7, m requires 0 <= m < 7 => PutState(s, i, item, m));
    assert Step(s, i, PutState(s, i, item, 1));
    forall l | 0 <= l < 6 ensures |path[l].nodes| > 0 && Step(path[l], i, path[l + 1]) {
      if l > 0 { PutStep(s, i, item, l, path[l + 1]); }
    }
  }

  // ---- When the slots are ready

  /** While no call is at work on a slot, the head is filled exactly when the queue has an item, and the next slot free
      exactly when it has room: then a Poll is served exactly from a queue that is not empty, and a Put exactly by one
      that is not full. */
  lemma QuietIsReady<T>(run: seq<State<T>>, k: nat, n: nat)
    requires IsRun(run, n) && n >= 2 && k < |run|
    requires forall i :: 0 <= i < |run[k].threads| ==> !Owner(run[k].threads[i])
    ensures var s := run[k];
            && s.dequeue <= s.queue == |s.enqueued|
            && (HeadFilled(s) <==> Fifo(s) != []) && (NextFree(s) <==> |Fifo(s)| < n)
  {
    RunManned(run, k, n);
    var s := run[k];
    hide IsRun;
    QuietSlots(s, n);
  }

  lemma QuietSlots<T>(s: State<T>, n: nat)
    requires Inv(s, n) && Counters(s, n) && Manned(s, n)
    requires forall i :: 0 <= i < |s.threads| ==> !Owner(s.threads[i])
    ensures HeadFilled(s) <==> s.dequeue < s.queue
    ensures NextFree(s) <==> s.queue < s.dequeue + n
  {
    if s.dequeue < s.queue {
      assert Enqueued(s, s.dequeue);
      assert !IsPut(s, s.dequeue);
    } else {
      EmptyIsNotFilled(s, n);
    }
    var p := s.queue - n;
    SlotsRepeat(p, n);
    if p < s.dequeue {
      assert Claimed(s, p);
      if p >= 0 { assert !IsHeld(s, p); }
    } else {
      assert Enqueued(s, p);
    }
  }

  // ---- Leaving, and the disposed ring

  /** Why a call ends: it is done, the ring is disposed, or a pass has failed. An attempt to claim fails when another
      call has taken the ticket; a look at the slot fails when it is not ready for the ticket. */
  lemma CallsEnd<T>(s: State<T>, i: nat, t: Thread<T>, s': State<T>)
    requires |s.nodes| > 0 && Step(s, i, s') && s.threads[i] == t && t != Idle && i < |s'.threads|
    ensures s'.threads[i] == Idle ==>
              match t
              case PutStore(pos) => s'.nodes == SetNode(s, pos, NodeAt(s, pos).(position := pos + 1)).nodes
              case PollStore(pos, data) => pos in s'.returned && s'.returned[pos] == data
              case PutCheck(_, _) => s.disposed
              case PollCheck(_) => s.disposed
              case PutCas(_, pos) => s.queue != pos
              case PollCas(pos) => s.dequeue != pos
              case _ => t.PutReload? || t.PollReload?
    ensures t.PutLoad? && s'.threads[i].PutReload? ==> NodeAt(s, t.pos).position != t.pos
    ensures t.PollLoad? && s'.threads[i].PollReload? ==> NodeAt(s, t.pos).position != t.pos + 1
  {
    hide Slot;
  }

  /** A thread that has claimed nothing and is in front of the test of `disposed`, or in no call. */
  predicate AtDoor<T>(s: State<T>, i: nat) {
    i < |s.threads| && (s.threads[i].Idle? || s.threads[i].PutCheck? || s.threads[i].PollCheck?)
  }

  lemma DoorStaysShut<T>(s: State<T>, j: nat, s': State<T>, i: nat)
    requires |s.nodes| > 0 && Step(s, j, s') && s.disposed && AtDoor(s, i)
    ensures s'.disposed && AtDoor(s', i)
    ensures j == i ==> EventOf(s, j) == Quiet && s'.queue == s.queue && s'.dequeue == s.dequeue
  {
    hide NodeAt, Slot;
    ThreadsOnly(s, j, s');
  }

  /** A call begun after Dispose claims no ticket, neither to put nor to poll: it gets no further than the test. */
  lemma {:induction false} DisposedServesNobody<T>(run: seq<State<T>>, a: nat, b: nat, i: nat, n: nat)
    requires IsRun(run, n) && a <= b < |run| && run[a].disposed && i < |run[a].threads| && run[a].threads[i] == Idle
    ensures run[b].disposed && AtDoor(run[b], i)
    ensures b + 1 < |run| && |run[b].nodes| > 0 && Step(run[b], i, run[b + 1]) ==>
              EventOf(run[b], i) == Quiet && run[b + 1].queue == run[b].queue && run[b + 1].dequeue == run[b].dequeue
    decreases b
  {
    hide IsRun, Step, Inv;
    if a < b {
      DisposedServesNobody(run, a, b - 1, i, n);
      RunNext(run, b - 1, n);
      var j :| Step(run[b - 1], j, run[b]);
      DoorStaysShut(run[b - 1], j, run[b], i);
    }
    if b + 1 < |run| && |run[b].nodes| > 0 && Step(run[b], i, run[b + 1]) {
      DoorStaysShut(run[b], i, run[b + 1], i);
    }
  }

  /** Only Dispose disposes of the ring, and it changes nothing else. */
  lemma OnlyDispose<T>(s: State<T>, i: nat, s': State<T>)
    requires |s.nodes| > 0 && Step(s, i, s')
    ensures s'.disposed != s.disposed ==> s.threads[i] == Idle && s' == s.(disposed := true)
  {
    hide NodeAt, Slot;
  }
}
