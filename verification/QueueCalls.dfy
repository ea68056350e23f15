/** What a call on the blocking queue of src/utils/task/queue.go comes to: what a Put or an update adds, why a Poll
    ends, and in which order the waiting Polls are served. */
module QueueCalls {
  import opened Bytes
  import opened Lists
  import opened Queue

  // ---- A Put gets in

  predicate Storing<T>(t: Thread<T>) {
    t.PutAppend? || t.PutUpdate?
  }

  /** What the callers see of the queue. */
  ghost predicate SameQueue<T>(s: State<T>, s': State<T>) {
    && s'.items == s.items && s'.disposed == s.disposed && s'.arrived == s.arrived && s'.replaced == s.replaced
    && s'.polled == s.polled && s'.dropped == s.dropped && s'.accepted == s.accepted
  }

  /** While a thread is about to store, no other changes the queue. */
  lemma OthersAreOut<T(!new)>(s: State<T>, j: nat, e: Event<T>, s': State<T>, i: nat)
    requires Inv(s) && Step(s, j, e, s') && i < |s.threads| && Storing(s.threads[i]) && j != i
    ensures SameQueue(s, s') && i < |s'.threads| && s'.threads[i] == s.threads[i]
  {
    var t := s.threads[j];
    assert s.lock == Some(i) && !HoldsLock(t);
    assert t.Taking? || t.Woken? ==> s.disposed by { assert ThreadOk(s, j); }
    assert !s.disposed by { assert ThreadOk(s, i); }
    hide Inv, Without, FirstMatch, LockOk, ThreadOk, Take, Served, Begin;
  }

  /** From a step that puts thread `i` before its store to state `b`, where it still stands there, nothing changes. */
  lemma {:induction false} StoreWaits<T(!new)>(run: seq<State<T>>, a: nat, b: nat, i: nat, t: Thread<T>)
    requires IsRun(run) && a < b < |run| && Storing(t) && SameQueue(run[a], run[a + 1])
    requires forall l :: a < l <= b ==> i < |run[l].threads| && run[l].threads[i] == t
    ensures SameQueue(run[a], run[b])
    decreases b
  {
    hide IsRun, Step, Inv;
    if a + 1 < b {
      StoreWaits(run, a, b - 1, i, t);
      RunKeeps(run, b - 1);
      RunStep(run, b - 1);
      var j, e :| Step(run[b - 1], j, e, run[b]);
      if j == i { StoreMoves(run[b - 1], i, e, run[b]); } else { OthersAreOut(run[b - 1], j, e, run[b], i); }
    }
  }

  /** A thread about to store has no other step than to do so. */
  lemma StoreMoves<T(!new)>(s: State<T>, i: nat, e: Event<T>, s': State<T>)
    requires Step(s, i, e, s') && Storing(s.threads[i])
    ensures e == Proceed && i < |s'.threads| && s'.threads[i] == PutNext
  {
    hide FirstMatch;
  }

  /** Put on a queue in use: from its start until it has stored nothing else happens to the queue, and then exactly its
      items stand behind all that were there. */
  lemma PutGetsIn<T(!new)>(run: seq<State<T>>, a: nat, b: nat, i: nat, xs: seq<T>)
    requires IsRun(run) && a < b && b + 1 < |run| && !run[a].disposed
    requires Step(run[a], i, Start(DoPut(xs)), run[a + 1])
    requires forall l :: a < l <= b ==> i < |run[l].threads| && run[l].threads[i] == PutAppend(xs)
    requires Step(run[b], i, Proceed, run[b + 1])
    ensures run[b + 1].items == run[a].items + xs && run[b + 1].arrived == run[a].arrived + xs
    ensures run[b + 1].accepted == run[a].accepted + multiset(xs) && run[b + 1].replaced == run[a].replaced
    ensures i < |run[b + 1].threads| && run[b + 1].threads[i] == PutNext
  {
    hide IsRun;
    StoreWaits(run, a, b, i, PutAppend(xs));
  }

  /** A Put and an update that start on a queue in use are taken to the point of storing; on a disposed one they, and a
      Poll, leave at once and change nothing. */
  lemma CallsStart<T(!new)>(s: State<T>, i: nat, call: Call<T>, s': State<T>)
    requires Step(s, i, Start(call), s') && !call.DoDispose?
    ensures s.disposed ==> s' == s
    ensures !s.disposed ==> SameQueue(s, s') && i < |s'.threads|
    ensures !s.disposed && call.DoPut? ==> s'.threads[i] == PutAppend(call.xs)
    ensures !s.disposed && call.DoUpdate? ==> s'.threads[i] == PutUpdate(call.cmp, call.x)
    ensures !s.disposed && call.DoPoll? ==>
              if s.items == [] then s'.threads[i] == Waiting(|s.semas|, call.n, call.timed)
              else s'.threads[i] == Taking(None, call.n, [])
  {
  }

  /** `after` is `before` with `x` in the place of the first item that the comparison matches. */
  ghost predicate Swapped<T>(before: seq<T>, after: seq<T>, cmp: (T, T) -> bool, x: T, pos: nat) {
    && pos < |before| && cmp(before[pos], x) && (forall k :: 0 <= k < pos ==> !cmp(before[k], x))
    && after == before[pos := x]
  }

  /** PutOrUpdate on a queue in use: it replaces the first item that matches, in its place, or is put behind all when
      none matches; and nothing else happens to the queue meanwhile. */
  lemma UpdateGetsIn<T(!new)>(run: seq<State<T>>, a: nat, b: nat, i: nat, cmp: (T, T) -> bool, x: T)
    requires IsRun(run) && a < b && b + 1 < |run| && !run[a].disposed
    requires Step(run[a], i, Start(DoUpdate(cmp, x)), run[a + 1])
    requires forall l :: a < l <= b ==> i < |run[l].threads| && run[l].threads[i] == PutUpdate(cmp, x)
    requires Step(run[b], i, Proceed, run[b + 1])
    ensures var s, s' := run[a], run[b + 1];
            if exists k :: 0 <= k < |s.items| && cmp(s.items[k], x) then
              exists pos: nat :: Swapped(s.items, s'.items, cmp, x, pos) && s'.replaced == s.replaced + [s.items[pos]]
            else s'.items == s.items + [x] && s'.replaced == s.replaced
    ensures run[b + 1].accepted == run[a].accepted + multiset{x}
    ensures i < |run[b + 1].threads| && run[b + 1].threads[i] == PutNext
  {
    StoreWaits(run, a, b, i, PutUpdate(cmp, x));
    ItemsAreConserved(run, b);
    hide IsRun;
    var s, s' := run[b], run[b + 1];
    assert |s.arrived| >= |s.items|;
    var pos := FirstMatch(cmp, s.items, x, 0);
    if pos < |s.items| {
      assert Swapped(s.items, s'.items, cmp, x, pos);
    }
  }

  // ---- Why a Poll ends

  predicate Polling<T>(t: Thread<T>) {
    t.Waiting? || t.TimedOut? || t.Cleaning? || t.Woken? || t.Taking?
  }

  lemma {:induction false} TakingEnds<T(!new)>(s: State<T>, i: nat, e: Event<T>, s': State<T>)
    requires Inv(s) && Step(s, i, e, s') && s.threads[i].Taking?
    ensures s'.threads[i].Taking? || (Copied(s, i) && s' == Go(s, i))
  {
    hide Inv, Done, Unlock;
  }

  lemma {:induction false} WaitingGoesOn<T(!new)>(s: State<T>, i: nat, e: Event<T>, s': State<T>)
    requires Step(s, i, e, s') && Polling(s.threads[i]) && !s.threads[i].Taking? && i < |s'.threads|
    ensures var t, t' := s.threads[i], s'.threads[i];
            && (t' == Idle ==> t.TimedOut? || t.Cleaning? || (t.Woken? && s.disposed))
            && (t'.TimedOut? ==> t.Waiting? && t.timed && e == TimeUp)
            && (t.Waiting? && e == Proceed ==> t' == Woken(t.w, t.n))
            && (t.Woken? && !s.disposed ==> t' == Taking(Some(t.w), t.n, []))
  {
    hide Without, Take, Served, Append, Update;
  }

  /** A Poll that ends has taken items from the front, at least one, or its time was up, or the queue is disposed; and
      only a Poll with a timeout runs out of time. */
  lemma {:induction false} PollsEnd<T(!new)>(s: State<T>, i: nat, t: Thread<T>, e: Event<T>, s': State<T>)
    requires Inv(s) && Step(s, i, e, s') && s.threads[i] == t && Polling(t) && i < |s'.threads|
    ensures s'.threads[i] == Idle ==>
              || (t.Taking? && t.got != [] && s.items == t.got + s'.items && s'.polled == s.polled + t.got)
              || t.TimedOut? || t.Cleaning? || (t.Woken? && s.disposed)
    ensures s'.threads[i].TimedOut? ==> t.Waiting? && t.timed && e == TimeUp
    ensures t.Waiting? && e == Proceed ==> s'.threads[i] == Woken(t.w, t.n)
    ensures t.Woken? && !s.disposed ==> s'.threads[i] == Taking(Some(t.w), t.n, [])
  {
    if t.Taking? {
      TakingEnds(s, i, e, s');
      if !s'.threads[i].Taking? {
        PollTakesTheFront(s, i);
        assert s'.threads[i] == Idle by { PollIsDone(s, i); }
      }
    } else {
      WaitingGoesOn(s, i, e, s');
    }
    hide *;
  }

  lemma {:induction false} PollIsDone<T>(s: State<T>, i: nat)
    requires Copied(s, i)
    ensures Go(s, i).threads[i] == Idle
  {
    hide Without, FirstMatch;
  }

  // ---- The order of the waiting Polls

  /** The waiters stand in the order in which their Polls came; semaphores are numbered as they are made. */
  ghost predicate InOrder<T>(s: State<T>) {
    Rising(s.waiters, |s.semas|)
  }

  predicate Rising(ws: seq<nat>, top: nat) {
    && (forall k :: 0 <= k < |ws| ==> ws[k] < top)
    && forall k, l :: 0 <= k < l < |ws| ==> ws[k] < ws[l]
  }

  lemma {:induction false} CutRises(ws: seq<nat>, x: nat, top: nat)
    requires Rising(ws, top)
    ensures Rising(Without(ws, x), top)
  {
    if x in ws {
      var i :| 0 <= i < |ws| && ws[i] == x;
      WithoutAt(ws, i);
      var cut := Without(ws, x);
      hide Without, Rising;
      forall k | 0 <= k < |cut| ensures cut[k] == ws[if k < i then k else k + 1] {}
      PickRises(ws, cut, i, top);
    } else {
      WithoutNothing(ws, x);
    }
  }

  lemma PickRises(ws: seq<nat>, cut: seq<nat>, i: nat, top: nat)
    requires Rising(ws, top) && |cut| + 1 == |ws|
    requires forall k :: 0 <= k < |cut| ==> cut[k] == ws[if k < i then k else k + 1]
    ensures Rising(cut, top)
  {
  }

  lemma {:induction false} WithoutNothing<T>(xs: seq<T>, x: T)
    requires x !in xs
    ensures Without(xs, x) == xs
  {
    if xs != [] { WithoutNothing(xs[1..], x); }
  }

  /** What a step makes of the waiters: one more behind, one less in front, one less anywhere, or none left. */
  lemma WaitersMove<T(!new)>(s: State<T>, i: nat, e: Event<T>, s': State<T>)
    requires Step(s, i, e, s')
    ensures |s'.semas| >= |s.semas|
    ensures || s'.waiters == s.waiters || s'.waiters == []
            || (s.waiters != [] && s'.waiters == s.waiters[1..])
            || (s'.waiters == s.waiters + [|s.semas|] && |s'.semas| == |s.semas| + 1)
            || (s.threads[i].Cleaning? && s'.waiters == Without(s.waiters, s.threads[i].w))
  {
    hide FirstMatch, Without;
    if e == Proceed {
      match s.threads[i]
      case PutAppend(_) =>
      case PutUpdate(_, _) =>
      case _ => hide Append, Update;
    }
  }

  lemma StepInOrder<T(!new)>(s: State<T>, i: nat, e: Event<T>, s': State<T>)
    requires InOrder(s) && Step(s, i, e, s')
    ensures InOrder(s')
  {
    WaitersMove(s, i, e, s');
    if s.threads[i].Cleaning? { CutRises(s.waiters, s.threads[i].w, |s.semas|); }
    hide Step, Without;
  }

  lemma {:induction false} RunInOrder<T(!new)>(run: seq<State<T>>, k: nat)
    requires IsRun(run) && k < |run|
    ensures InOrder(run[k])
  {
    hide Step;
    if k > 0 {
      RunInOrder(run, k - 1);
      RunStep(run, k - 1);
      hide IsRun, InOrder;
      var i, e :| Step(run[k - 1], i, e, run[k]);
      StepInOrder(run[k - 1], i, e, run[k]);
    }
  }

  /** First come, first served: the Poll that a Put offers its items to is the one that has waited longest. */
  lemma LongestWaitFirst<T(!new)>(run: seq<State<T>>, k: nat, i: nat, w: nat)
    requires IsRun(run) && k + 1 < |run| && Step(run[k], i, Proceed, run[k + 1]) && run[k].threads[i] == PutNext
    requires i < |run[k + 1].threads| && run[k + 1].threads[i] == PutOffer(w)
    ensures w in run[k].waiters && forall v :: v in run[k].waiters ==> w <= v
  {
    RunInOrder(run, k);
    hide IsRun;
  }
}
