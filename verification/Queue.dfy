/** The blocking queue of src/utils/task/queue.go as a state machine: callers of Put, PutOrUpdate, Poll and Dispose
    interleave at every lock, channel and wait-group operation, and a Poll copies its items one at a time. */
module Queue {
  import opened Bytes
  import opened Lists

  /** A waiting Poll: `ready` is its one-slot channel, `pending` its wait group, `owner` (history) its thread. */
  datatype Sema = Sema(ready: bool, pending: nat, owner: nat)

  /** Where a thread is. A Put waits in PutWait for the Poll it woke; Taking is a Poll copying items, under its own
      lock or, when woken, in the lock of the Put that woke it; Waking is Dispose signalling the waiters. */
  datatype Thread<!T> =
    | Idle
    | PutAppend(xs: seq<T>) | PutUpdate(cmp: (T, T) -> bool, x: T) | PutNext | PutOffer(w: nat) | PutWait(w: nat)
    | Waiting(w: nat, n: nat, timed: bool) | TimedOut(w: nat) | Cleaning(w: nat)
    | Woken(w: nat, n: nat) | Taking(from: Option<nat>, n: nat, got: seq<T>)
    | Waking(ws: seq<nat>)

  /** The queue and its threads. History: `arrived` holds every accepted item in order, an updated one in the place
      of the one it replaced; `accepted` counts what Put and PutOrUpdate took in; `polled` and `dropped` are what
      all Polls and Dispose returned. */
  datatype State<!T> = State(
    lock: Option<nat>, items: seq<T>, waiters: seq<nat>, disposed: bool, semas: seq<Sema>, threads: seq<Thread<T>>,
    arrived: seq<T>, accepted: multiset<T>, replaced: seq<T>, polled: seq<T>, dropped: seq<T>)

  datatype Call<!T> = DoPut(xs: seq<T>) | DoUpdate(cmp: (T, T) -> bool, x: T) | DoPoll(n: nat, timed: bool) | DoDispose

  // ---- The steps

  ghost predicate Init<T>(s: State<T>) {
    && s.lock == None && s.items == [] && s.waiters == [] && !s.disposed && s.semas == []
    && s.arrived == [] && s.accepted == multiset{} && s.replaced == [] && s.polled == [] && s.dropped == []
    && forall i :: 0 <= i < |s.threads| ==> s.threads[i] == Idle
  }

  function Goto<T>(s: State<T>, i: nat, t: Thread<T>): State<T>
    requires i < |s.threads|
  {
    s.(threads := s.threads[i := t])
  }

  function Unlock<T>(s: State<T>, i: nat): State<T>
    requires i < |s.threads|
  {
    Goto(s, i, Idle).(lock := None)
  }

  predicate Ready<T>(s: State<T>, w: nat) { w < |s.semas| && s.semas[w].ready }

  function Pending<T>(s: State<T>, w: nat): nat { if w < |s.semas| then s.semas[w].pending else 0 }

  function SetReady<T>(s: State<T>, w: nat, b: bool): (r: State<T>)
    ensures r == s.(semas := r.semas)
  {
    if w < |s.semas| then s.(semas := s.semas[w := s.semas[w].(ready := b)]) else s
  }

  /** response.Add(1). */
  function Add<T>(s: State<T>, w: nat): (r: State<T>)
    ensures r == s.(semas := r.semas)
  {
    if w < |s.semas| then s.(semas := s.semas[w := s.semas[w].(pending := s.semas[w].pending + 1)]) else s
  }

  /** response.Done(); WaitGroupsBalance shows that the counter is never zero then. */
  function Done<T>(s: State<T>, w: nat): (r: State<T>)
    ensures r == s.(semas := r.semas)
  {
    if Pending(s, w) > 0 then s.(semas := s.semas[w := s.semas[w].(pending := s.semas[w].pending - 1)]) else s
  }

  /** The first item the caller's comparison matches, or the length. */
  function FirstMatch<T>(cmp: (T, T) -> bool, items: seq<T>, x: T, i: nat): (pos: nat)
    requires i <= |items|
    ensures i <= pos <= |items|
    ensures forall j :: i <= j < pos ==> !cmp(items[j], x)
    ensures pos < |items| ==> cmp(items[pos], x)
    decreases |items| - i
  {
    if i == |items| || cmp(items[i], x) then i else FirstMatch(cmp, items, x, i + 1)
  }

  function Append<T>(s: State<T>, xs: seq<T>): (r: State<T>)
    ensures r == s.(items := r.items, arrived := r.arrived, replaced := r.replaced, accepted := r.accepted)
  {
    s.(items := s.items + xs, arrived := s.arrived + xs, accepted := s.accepted + multiset(xs))
  }

  function Update<T>(s: State<T>, cmp: (T, T) -> bool, x: T): (r: State<T>)
    ensures r == s.(items := r.items, arrived := r.arrived, replaced := r.replaced, accepted := r.accepted)
  {
    var pos := FirstMatch(cmp, s.items, x, 0);
    var place := |s.arrived| - |s.items| + pos;
    if pos < |s.items| && 0 <= place then
      s.(items := s.items[pos := x], arrived := s.arrived[place := x],
         replaced := s.replaced + [s.items[pos]], accepted := s.accepted + multiset{x})
    else
      Append(s, [x])
  }

  /** A call starts when its thread gets the lock, so only while the lock is free. */
  function Begin<T>(s: State<T>, i: nat, call: Call<T>): State<T>
    requires i < |s.threads|
  {
    match call
    case DoPut(xs) => if s.disposed then s else Goto(s, i, PutAppend(xs)).(lock := Some(i))
    case DoUpdate(cmp, x) => if s.disposed then s else Goto(s, i, PutUpdate(cmp, x)).(lock := Some(i))
    case DoPoll(n, timed) =>
      if s.disposed then s
      else if s.items == [] then
        Goto(s, i, Waiting(|s.semas|, n, timed))
          .(waiters := s.waiters + [|s.semas|], semas := s.semas + [Sema(false, 0, i)])
      else Goto(s, i, Taking(None, n, [])).(lock := Some(i))
    case DoDispose => Goto(s, i, Waking(s.waiters)).(lock := Some(i), disposed := true)
  }

  /** After a waiter has been served or found gone: on to the next while there are items. */
  function Served<T>(s: State<T>, i: nat): State<T>
    requires i < |s.threads|
  {
    if s.items == [] then Unlock(s, i) else Goto(s, i, PutNext)
  }

  function Take<T>(s: State<T>, i: nat, from: Option<nat>, n: nat, got: seq<T>): State<T>
    requires i < |s.threads|
  {
    if |got| < n && |got| < |s.items| then Goto(s, i, Taking(from, n, got + [s.items[|got|]]))
    else
      var s1 := s.(items := if |got| <= |s.items| then s.items[|got|..] else [], polled := s.polled + got);
      if from.None? then Unlock(s1, i) else Goto(Done(s1, from.value), i, Idle)
  }

  predicate CanGo<T>(s: State<T>, i: nat) {
    && i < |s.threads|
    && match s.threads[i]
       case Idle => false
       case PutWait(w) => Pending(s, w) == 0
       case Waiting(w, _, _) => Ready(s, w)
       case Cleaning(_) => s.lock == None
       case _ => true
  }

  function Go<T>(s: State<T>, i: nat): State<T>
    requires CanGo(s, i)
  {
    match s.threads[i]
    case PutAppend(xs) => Goto(Append(s, xs), i, PutNext)
    case PutUpdate(cmp, x) => Goto(Update(s, cmp, x), i, PutNext)
    case PutNext =>
      if s.waiters == [] then Unlock(s, i)
      else Goto(Add(s.(waiters := s.waiters[1..]), s.waiters[0]), i, PutOffer(s.waiters[0]))
    case PutOffer(w) => if Ready(s, w) then Served(s, i) else Goto(SetReady(s, w, true), i, PutWait(w))
    case PutWait(w) => Served(s, i)
    case Waiting(w, n, _) => Goto(SetReady(s, w, false), i, Woken(w, n))
    case TimedOut(w) => if Ready(s, w) then Goto(Done(s, w), i, Idle) else Goto(SetReady(s, w, true), i, Cleaning(w))
    case Cleaning(w) => Goto(s, i, Idle).(waiters := Without(s.waiters, w))
    case Woken(w, n) => Goto(s, i, if s.disposed then Idle else Taking(Some(w), n, []))
    case Taking(from, n, got) => Take(s, i, from, n, got)
    case Waking(ws) =>
      if ws == [] then Unlock(s, i).(items := [], waiters := [], dropped := s.dropped + s.items)
      else Goto(SetReady(Add(s, ws[0]), ws[0], true), i, Waking(ws[1..]))
  }

  datatype Event<!T> = Start(call: Call<T>) | Proceed | TimeUp

  /** A Put of no items and a Poll of fewer than one return at once and are not steps. */
  ghost predicate Step<T(!new)>(s: State<T>, i: nat, e: Event<T>, s': State<T>) {
    && i < |s.threads|
    && match e
       case Start(call) =>
         && s.threads[i].Idle? && s.lock == None && (call.DoPut? ==> call.xs != []) && (call.DoPoll? ==> call.n >= 1)
         && s' == Begin(s, i, call)
       case Proceed => CanGo(s, i) && s' == Go(s, i)
       case TimeUp => s.threads[i].Waiting? && s.threads[i].timed && s' == Goto(s, i, TimedOut(s.threads[i].w))
  }

  // ---- The invariant

  predicate HoldsLock<T>(t: Thread<T>) {
    match t
    case PutAppend(_) => true
    case PutUpdate(_, _) => true
    case PutNext => true
    case PutOffer(_) => true
    case PutWait(_) => true
    case Taking(from, _, _) => from.None?
    case Waking(_) => true
    case _ => false
  }

  /** The thread that holds the lock. */
  function Holder<T>(s: State<T>): Thread<T> {
    if s.lock.Some? && s.lock.value < |s.threads| then s.threads[s.lock.value] else Idle
  }

  /** The waiters not signalled yet: while Dispose runs, those it has still to signal. */
  function Queueing<T>(s: State<T>): seq<nat> {
    if Holder(s).Waking? then Holder(s).ws else s.waiters
  }

  predicate Mine<T>(s: State<T>, i: nat, w: nat) {
    w < |s.semas| && s.semas[w].owner == i
  }

  predicate Awaits<T>(t: Thread<T>, w: nat) {
    (t.Waiting? || t.TimedOut?) && t.w == w
  }

  /** The thread that made the semaphore `w`. */
  function Owner<T>(s: State<T>, w: nat): Thread<T> {
    if w < |s.semas| && s.semas[w].owner < |s.threads| then s.threads[s.semas[w].owner] else Idle
  }

  /** Nobody has signalled `w`: its Poll waits, or has timed out and filled the channel itself. */
  predicate Unsignalled<T>(s: State<T>, w: nat) {
    && w < |s.semas|
    && if Ready(s, w) then Owner(s, w) == Cleaning(w) else Awaits(Owner(s, w), w)
  }

  /** The Poll that a Put signalled through `w` has not answered yet. */
  predicate Answering<T>(s: State<T>, w: nat) {
    && w < |s.semas|
    && var t := Owner(s, w);
       || (Awaits(t, w) && Ready(s, w)) || (t.Woken? && t.w == w) || (t.Taking? && t.from == Some(w))
  }

  predicate AwaitOk<T>(s: State<T>, i: nat, w: nat) {
    && Mine(s, i, w)
    && if Ready(s, w) then Pending(s, w) == 1 && (Holder(s) == PutWait(w) || s.disposed)
       else w in Queueing(s) || Holder(s) == PutOffer(w)
  }

  predicate ThreadOk<T>(s: State<T>, i: nat)
    requires i < |s.threads|
  {
    match s.threads[i]
    case Idle => true
    case PutAppend(xs) => xs != [] && !s.disposed
    case PutUpdate(_, _) => !s.disposed
    case PutNext => s.items != [] && !s.disposed
    case PutOffer(w) => s.items != [] && !s.disposed && Pending(s, w) == 1 && Unsignalled(s, w) && w !in s.waiters
    case PutWait(w) =>
      && !s.disposed && w < |s.semas| && w !in s.waiters
      && (Pending(s, w) == 0 || (Pending(s, w) == 1 && s.items != [] && Answering(s, w)))
    case Waiting(w, n, _) => n >= 1 && AwaitOk(s, i, w)
    case TimedOut(w) => AwaitOk(s, i, w)
    case Cleaning(w) => Mine(s, i, w) && Ready(s, w)
    case Woken(w, n) => n >= 1 && Mine(s, i, w) && (s.disposed || (Pending(s, w) == 1 && Holder(s) == PutWait(w)))
    case Taking(from, n, got) =>
      && n >= 1 && !s.disposed && s.items != [] && got <= s.items && |got| <= n
      && (if from.None? then s.waiters == []
          else Mine(s, i, from.value) && Pending(s, from.value) == 1 && Holder(s) == PutWait(from.value))
    case Waking(ws) => s.disposed
  }

  ghost predicate QueueOk<T>(s: State<T>) {
    && NoDup(Queueing(s))
    && (forall w :: w in Queueing(s) ==> Unsignalled(s, w) && Pending(s, w) == 0)
    && (s.disposed && !Holder(s).Waking? ==> s.waiters == [] && s.items == [])
    && (s.lock == None ==> s.items == [] || s.waiters == [])
  }

  ghost predicate HistoryOk<T>(s: State<T>) {
    && s.polled + s.dropped + s.items == s.arrived
    && multiset(s.arrived) + multiset(s.replaced) == s.accepted
    && (s.dropped != [] ==> s.disposed)
  }

  ghost predicate LockOk<T>(s: State<T>) {
    forall i :: 0 <= i < |s.threads| ==> (s.lock == Some(i) <==> HoldsLock(s.threads[i]))
  }

  ghost predicate Inv<T>(s: State<T>) {
    && LockOk(s) && (s.lock.Some? ==> s.lock.value < |s.threads|)
    && QueueOk(s) && HistoryOk(s)
    && forall i :: 0 <= i < |s.threads| ==> ThreadOk(s, i)
  }

  // ---- The steps keep it

  lemma WaitKeeps<T>(s: State<T>, i: nat, n: nat, timed: bool)
    requires Inv(s) && i < |s.threads| && s.threads[i].Idle? && s.lock == None
    requires n >= 1 && !s.disposed && s.items == []
    ensures Inv(Begin(s, i, DoPoll(n, timed)))
  {
    hide HistoryOk;
    var s' := Begin(s, i, DoPoll(n, timed));
    var w := |s.semas|;
    assert HistoryOk(s') by { SameHistory(s, s'); }
    assert Queueing(s) == s.waiters;
    assert forall k :: 0 <= k < |s.waiters| ==> s.waiters[k] in s.waiters && Unsignalled(s, s.waiters[k]);
    assert NoDup(s'.waiters);
    forall v | v in Queueing(s') ensures Unsignalled(s', v) && Pending(s', v) == 0 {
      if v != w { assert v in Queueing(s); }
    }
    forall j | 0 <= j < |s'.threads| ensures ThreadOk(s', j) { assert ThreadOk(s, j); }
  }

  lemma SameHistory<T>(s: State<T>, s': State<T>)
    requires HistoryOk(s) && s'.items == s.items && s'.arrived == s.arrived && s'.accepted == s.accepted
    requires s'.replaced == s.replaced && s'.polled == s.polled && s'.dropped == s.dropped
        && (s.disposed ==> s'.disposed)
    ensures HistoryOk(s')
  {
  }

  /** A call that takes the lock and keeps it. */
  lemma LockKeeps<T>(s: State<T>, i: nat, t: Thread<T>, disposed: bool)
    requires Inv(s) && i < |s.threads| && s.threads[i].Idle? && s.lock == None && (s.disposed ==> disposed)
    requires var s' := Goto(s, i, t).(lock := Some(i), disposed := disposed);
      HoldsLock(t) && ThreadOk(s', i) && (if disposed then t == Waking(s.waiters) else !t.Waking?)
    ensures Inv(Goto(s, i, t).(lock := Some(i), disposed := disposed))
  {
    hide HistoryOk, Unsignalled, Answering, NoDup;
    var s' := Goto(s, i, t).(lock := Some(i), disposed := disposed);
    assert HistoryOk(s') by { SameHistory(s, s'); }
    assert Queueing(s') == Queueing(s);
    forall w | w in Queueing(s') ensures Unsignalled(s', w) && Pending(s', w) == 0 { SameSema(s, s', i, w); }
    forall j | 0 <= j < |s'.threads| ensures ThreadOk(s', j) { assert ThreadOk(s, j); }
  }

  lemma BeginKeeps<T>(s: State<T>, i: nat, call: Call<T>)
    requires Inv(s) && i < |s.threads| && s.threads[i].Idle? && s.lock == None
    requires (call.DoPut? ==> call.xs != []) && (call.DoPoll? ==> call.n >= 1)
    ensures Inv(Begin(s, i, call))
  {
    if call.DoDispose? {
      LockKeeps(s, i, Waking(s.waiters), true);
    } else if !s.disposed {
      match call
      case DoPut(xs) => LockKeeps(s, i, PutAppend(xs), false);
      case DoUpdate(cmp, x) => LockKeeps(s, i, PutUpdate(cmp, x), false);
      case DoPoll(n, timed) =>
        if s.items == [] { WaitKeeps(s, i, n, timed); } else { LockKeeps(s, i, Taking(None, n, []), false); }
    }
  }

  /** A thread that is at no semaphore may move without the waiters' owners noticing. */
  lemma SameSema<T>(s: State<T>, s': State<T>, i: nat, w: nat)
    requires Unsignalled(s, w) && i < |s.threads| == |s'.threads| && s.semas == s'.semas
        && s'.threads == s.threads[i := s'.threads[i]]
    requires !Awaits(s.threads[i], w) && s.threads[i] != Cleaning(w)
    ensures Unsignalled(s', w) && Pending(s', w) == Pending(s, w)
  {
  }

  lemma AppendKeeps<T>(s: State<T>, i: nat)
    requires Inv(s) && i < |s.threads| && (s.threads[i].PutAppend? || s.threads[i].PutUpdate?)
    ensures Inv(Go(s, i))
  {
    hide HistoryOk, Unsignalled, NoDup;
    var s' := Go(s, i);
    assert ThreadOk(s, i);
    StoreHistory(s, i);
    assert Queueing(s') == Queueing(s) && s'.items != [];
    forall w | w in Queueing(s') ensures Unsignalled(s', w) && Pending(s', w) == 0 { SameSema(s, s', i, w); }
    forall j | 0 <= j < |s'.threads| ensures ThreadOk(s', j) { assert ThreadOk(s, j); }
  }

  lemma AppendHistory<T>(s: State<T>, xs: seq<T>)
    requires HistoryOk(s)
    ensures HistoryOk(Append(s, xs))
  {
    assert s.arrived + xs == s.polled + s.dropped + (s.items + xs);
  }

  lemma UpdateHistory<T>(s: State<T>, cmp: (T, T) -> bool, x: T)
    requires HistoryOk(s)
    ensures HistoryOk(Update(s, cmp, x))
  {
    hide *;
    var pos := FirstMatch(cmp, s.items, x, 0);
    if pos < |s.items| {
      HistoryParts(s);
      UpdateIs(s, cmp, x, pos);
      UpdateBehind(s.polled + s.dropped, s.items, pos, x);
      Exchange(s.arrived, |s.polled + s.dropped| + pos, x, s.replaced, s.accepted);
      Replaced(s, Update(s, cmp, x), pos, x);
    } else {
      AppendHistory(s, [x]);
      UpdateAppends(s, cmp, x);
    }
  }

  lemma HistoryParts<T>(s: State<T>)
    requires HistoryOk(s)
    ensures s.polled + s.dropped + s.items == s.arrived && |s.arrived| == |s.polled + s.dropped| + |s.items|
    ensures multiset(s.arrived) + multiset(s.replaced) == s.accepted
  {
  }

  lemma UpdateIs<T>(s: State<T>, cmp: (T, T) -> bool, x: T, pos: nat)
    requires pos == FirstMatch(cmp, s.items, x, 0) < |s.items| <= |s.arrived|
    ensures Update(s, cmp, x)
         == s.(items := s.items[pos := x], arrived := s.arrived[|s.arrived| - |s.items| + pos := x],
               replaced := s.replaced + [s.items[pos]], accepted := s.accepted + multiset{x})
  {
  }

  lemma UpdateAppends<T>(s: State<T>, cmp: (T, T) -> bool, x: T)
    requires FirstMatch(cmp, s.items, x, 0) == |s.items|
    ensures Update(s, cmp, x) == Append(s, [x])
  {
  }

  lemma Replaced<T>(s: State<T>, s': State<T>, pos: nat, x: T)
    requires HistoryOk(s) && pos < |s.items|
    requires var place := |s.polled + s.dropped| + pos;
      && place < |s.arrived| && s.arrived[place] == s.items[pos]
      && s.arrived[place := x] == s.polled + s.dropped + s.items[pos := x]
      && s' == s.(items := s.items[pos := x], arrived := s.arrived[place := x],
                  replaced := s.replaced + [s.items[pos]], accepted := s.accepted + multiset{x})
      && multiset(s.arrived[place := x]) + multiset(s.replaced + [s.arrived[place]]) == s.accepted + multiset{x}
    ensures HistoryOk(s')
  {
  }

  lemma UpdateBehind<T>(past: seq<T>, xs: seq<T>, k: nat, x: T)
    requires k < |xs|
    ensures (past + xs)[|past| + k] == xs[k] && (past + xs)[|past| + k := x] == past + xs[k := x]
  {
  }

  lemma Exchange<T>(xs: seq<T>, k: nat, x: T, out: seq<T>, all: multiset<T>)
    requires k < |xs| && multiset(xs) + multiset(out) == all
    ensures multiset(xs[k := x]) + multiset(out + [xs[k]]) == all + multiset{x}
  {
    assert multiset(xs[k := x]) == multiset(xs) - multiset{xs[k]} + multiset{x};
    assert xs[k] in multiset(xs);
  }

  lemma StoreHistory<T>(s: State<T>, i: nat)
    requires HistoryOk(s) && i < |s.threads| && (s.threads[i].PutAppend? || s.threads[i].PutUpdate?)
    ensures HistoryOk(Go(s, i))
  {
    hide HistoryOk, FirstMatch;
    if s.threads[i].PutAppend? {
      AppendHistory(s, s.threads[i].xs);
      SameHistory(Append(s, s.threads[i].xs), Go(s, i));
    } else {
      UpdateHistory(s, s.threads[i].cmp, s.threads[i].x);
      SameHistory(Update(s, s.threads[i].cmp, s.threads[i].x), Go(s, i));
    }
  }

  lemma PutNextKeeps<T>(s: State<T>, i: nat)
    requires Inv(s) && i < |s.threads| && s.threads[i].PutNext?
    ensures Inv(Go(s, i))
  {
    hide HistoryOk;
    var s' := Go(s, i);
    assert ThreadOk(s, i);
    assert HistoryOk(s') by { SameHistory(s, s'); }
    assert s.waiters != [] ==> s.waiters[0] in Queueing(s);
    forall w | w in Queueing(s') ensures Unsignalled(s', w) && Pending(s', w) == 0 { assert w in Queueing(s); }
    forall j | 0 <= j < |s'.threads| ensures ThreadOk(s', j) { assert ThreadOk(s, j); }
  }

  lemma PutOfferKeeps<T>(s: State<T>, i: nat)
    requires Inv(s) && i < |s.threads| && s.threads[i].PutOffer?
    ensures Inv(Go(s, i))
  {
    hide HistoryOk;
    var s' := Go(s, i);
    assert ThreadOk(s, i);
    assert HistoryOk(s') by { SameHistory(s, s'); }
    forall w | w in Queueing(s') ensures Unsignalled(s', w) && Pending(s', w) == 0 { assert w in Queueing(s); }
    forall j | 0 <= j < |s'.threads| ensures ThreadOk(s', j) { assert ThreadOk(s, j); }
  }

  lemma PutWaitKeeps<T>(s: State<T>, i: nat)
    requires Inv(s) && i < |s.threads| && s.threads[i].PutWait? && CanGo(s, i)
    ensures Inv(Go(s, i))
  {
    hide HistoryOk;
    var s' := Go(s, i);
    assert ThreadOk(s, i);
    assert HistoryOk(s') by { SameHistory(s, s'); }
    forall w | w in Queueing(s') ensures Unsignalled(s', w) && Pending(s', w) == 0 { assert w in Queueing(s); }
    forall j | 0 <= j < |s'.threads| ensures ThreadOk(s', j) { assert ThreadOk(s, j); }
  }

  lemma WakeKeeps<T>(s: State<T>, i: nat)
    requires Inv(s) && i < |s.threads| && s.threads[i].Waiting? && CanGo(s, i)
    ensures Inv(Go(s, i))
  {
    hide HistoryOk;
    var s' := Go(s, i);
    assert ThreadOk(s, i);
    assert HistoryOk(s') by { SameHistory(s, s'); }
    forall w | w in Queueing(s') ensures Unsignalled(s', w) && Pending(s', w) == 0 { assert w in Queueing(s); }
    forall j | 0 <= j < |s'.threads| ensures ThreadOk(s', j) { assert ThreadOk(s, j); }
  }

  lemma FillKeeps<T>(s: State<T>, i: nat)
    requires Inv(s) && i < |s.threads| && s.threads[i].TimedOut? && !Ready(s, s.threads[i].w)
    ensures Inv(Go(s, i))
  {
    hide HistoryOk;
    var s' := Go(s, i);
    assert ThreadOk(s, i);
    assert HistoryOk(s') by { SameHistory(s, s'); }
    assert Queueing(s') == Queueing(s);
    forall w | w in Queueing(s') ensures Unsignalled(s', w) && Pending(s', w) == 0 { assert w in Queueing(s); }
    forall j | 0 <= j < |s'.threads| ensures ThreadOk(s', j) { assert ThreadOk(s, j); }
  }

  lemma DeclineKeeps<T>(s: State<T>, i: nat)
    requires Inv(s) && i < |s.threads| && s.threads[i].TimedOut? && Ready(s, s.threads[i].w)
    ensures Inv(Go(s, i))
  {
    hide HistoryOk;
    var s' := Go(s, i);
    assert ThreadOk(s, i);
    assert HistoryOk(s') by { SameHistory(s, s'); }
    assert Queueing(s') == Queueing(s);
    forall w | w in Queueing(s') ensures Unsignalled(s', w) && Pending(s', w) == 0 { assert w in Queueing(s); }
    forall j | 0 <= j < |s'.threads| ensures ThreadOk(s', j) { assert ThreadOk(s, j); }
  }

  lemma CleaningKeeps<T>(s: State<T>, i: nat)
    requires Inv(s) && i < |s.threads| && s.threads[i].Cleaning? && CanGo(s, i)
    ensures Inv(Go(s, i))
  {
    hide HistoryOk;
    var s' := Go(s, i);
    assert ThreadOk(s, i);
    assert HistoryOk(s') by { SameHistory(s, s'); }
    WithoutFacts(s.waiters, s.threads[i].w);
    forall w | w in Queueing(s') ensures Unsignalled(s', w) && Pending(s', w) == 0 { assert w in Queueing(s); }
    forall j | 0 <= j < |s'.threads| ensures ThreadOk(s', j) { assert ThreadOk(s, j); }
  }

  lemma WokenKeeps<T>(s: State<T>, i: nat)
    requires Inv(s) && i < |s.threads| && s.threads[i].Woken?
    ensures Inv(Go(s, i))
  {
    hide HistoryOk;
    var s' := Go(s, i);
    assert ThreadOk(s, i);
    assert !s.disposed ==> ThreadOk(s, s.lock.value);
    assert HistoryOk(s') by { SameHistory(s, s'); }
    forall w | w in Queueing(s') ensures Unsignalled(s', w) && Pending(s', w) == 0 { assert w in Queueing(s); }
    forall j | 0 <= j < |s'.threads| ensures ThreadOk(s', j) { assert ThreadOk(s, j); }
  }

  predicate Copied<T>(s: State<T>, i: nat) {
    && i < |s.threads| && s.threads[i].Taking?
    && (|s.threads[i].got| >= s.threads[i].n || |s.threads[i].got| >= |s.items|)
  }

  lemma CopyKeeps<T>(s: State<T>, i: nat)
    requires Inv(s) && i < |s.threads| && s.threads[i].Taking? && !Copied(s, i)
    ensures Inv(Go(s, i))
  {
    hide HistoryOk;
    var s' := Go(s, i);
    assert ThreadOk(s, i);
    assert HistoryOk(s') by { SameHistory(s, s'); }
    assert Queueing(s') == Queueing(s);
    forall w | w in Queueing(s') ensures Unsignalled(s', w) && Pending(s', w) == 0 { assert w in Queueing(s); }
    forall j | 0 <= j < |s'.threads| ensures ThreadOk(s', j) { assert ThreadOk(s, j); }
  }

  lemma TakenKeeps<T>(s: State<T>, i: nat)
    requires Inv(s) && Copied(s, i)
    ensures Inv(Go(s, i))
  {
    hide HistoryOk;
    var s' := Go(s, i);
    assert ThreadOk(s, i);
    assert HistoryOk(s') by { assert HistoryOk(s); TakingHistory(s, i); }
    assert Queueing(s') == Queueing(s);
    forall w | w in Queueing(s') ensures Unsignalled(s', w) && Pending(s', w) == 0 { assert w in Queueing(s); }
    forall j | 0 <= j < |s'.threads| ensures ThreadOk(s', j) { assert ThreadOk(s, j); }
  }

  lemma TakingHistory<T>(s: State<T>, i: nat)
    requires HistoryOk(s) && i < |s.threads| && s.threads[i].Taking? && ThreadOk(s, i)
    ensures HistoryOk(Go(s, i))
  {
    var got := s.threads[i].got;
    assert s.items == got + s.items[|got|..];
    assert s.dropped == [];
    assert s.polled + s.dropped + s.items == (s.polled + got) + s.dropped + s.items[|got|..];
  }

  lemma WakingKeeps<T>(s: State<T>, i: nat)
    requires Inv(s) && i < |s.threads| && s.threads[i].Waking? && s.threads[i].ws != []
    ensures Inv(Go(s, i))
  {
    hide HistoryOk, Answering;
    var s' := Go(s, i);
    var ws := s.threads[i].ws;
    assert ThreadOk(s, i);
    assert HistoryOk(s') by { SameHistory(s, s'); }
    assert Queueing(s') == ws[1..] && Queueing(s) == ws == [ws[0]] + ws[1..];
    assert NoDup(ws[1..]) && ws[0] !in ws[1..];
    hide NoDup;
    assert QueueOk(s') by {
      forall w | w in Queueing(s') ensures Unsignalled(s', w) && Pending(s', w) == 0 { assert w in Queueing(s); }
    }
    assert ws[0] in Queueing(s) && Unsignalled(s, ws[0]) && Pending(s, ws[0]) == 0;
    hide Unsignalled, QueueOk;
    forall j | 0 <= j < |s'.threads| ensures ThreadOk(s', j) { assert ThreadOk(s, j); }
  }

  lemma DisposedKeeps<T>(s: State<T>, i: nat)
    requires Inv(s) && i < |s.threads| && s.threads[i] == Waking([])
    ensures Inv(Go(s, i))
  {
    hide HistoryOk;
    var s' := Go(s, i);
    assert ThreadOk(s, i);
    assert HistoryOk(s') by { assert HistoryOk(s); WakingHistory(s, i); }
    assert Queueing(s') == [] && Queueing(s) == [];
    forall j | 0 <= j < |s'.threads| ensures ThreadOk(s', j) { assert ThreadOk(s, j); }
  }

  lemma WakingHistory<T>(s: State<T>, i: nat)
    requires HistoryOk(s) && i < |s.threads| && s.threads[i] == Waking([]) && s.disposed
    ensures HistoryOk(Go(s, i))
  {
    DropAll(s.polled, s.dropped, s.items);
    var s' := Go(s, i);
    assert s' == Goto(s, i, Idle).(lock := None, items := [], waiters := [], dropped := s.dropped + s.items);
    hide Go;
  }

  lemma DropAll<T>(a: seq<T>, b: seq<T>, c: seq<T>)
    ensures a + (b + c) + [] == a + b + c
  {
  }

  lemma TimeUpKeeps<T>(s: State<T>, i: nat)
    requires Inv(s) && i < |s.threads| && s.threads[i].Waiting?
    ensures Inv(Goto(s, i, TimedOut(s.threads[i].w)))
  {
    hide HistoryOk;
    var s' := Goto(s, i, TimedOut(s.threads[i].w));
    assert ThreadOk(s, i);
    assert HistoryOk(s') by { SameHistory(s, s'); }
    forall w | w in Queueing(s') ensures Unsignalled(s', w) && Pending(s', w) == 0 { assert w in Queueing(s); }
    forall j | 0 <= j < |s'.threads| ensures ThreadOk(s', j) { assert ThreadOk(s, j); }
  }

  lemma StepKeeps<T(!new)>(s: State<T>, i: nat, e: Event<T>, s': State<T>)
    requires Inv(s) && Step(s, i, e, s')
    ensures Inv(s')
  {
    hide Inv, Begin, Goto;
    match e
    case Start(call) => BeginKeeps(s, i, call);
    case TimeUp => TimeUpKeeps(s, i);
    case Proceed =>
      hide Go;
      match s.threads[i]
      case PutAppend(_) => AppendKeeps(s, i);
      case PutUpdate(_, _) => AppendKeeps(s, i);
      case PutNext => PutNextKeeps(s, i);
      case PutOffer(_) => PutOfferKeeps(s, i);
      case PutWait(_) => PutWaitKeeps(s, i);
      case Waiting(_, _, _) => WakeKeeps(s, i);
      case TimedOut(w) => if Ready(s, w) { DeclineKeeps(s, i); } else { FillKeeps(s, i); }
      case Cleaning(_) => CleaningKeeps(s, i);
      case Woken(_, _) => WokenKeeps(s, i);
      case Taking(_, _, _) => if Copied(s, i) { TakenKeeps(s, i); } else { CopyKeeps(s, i); }
      case Waking(ws) => if ws == [] { DisposedKeeps(s, i); } else { WakingKeeps(s, i); }
  }

  ghost predicate Next<T(!new)>(s: State<T>, s': State<T>) {
    exists i, e :: Step(s, i, e, s')
  }

  /** A run: any interleaving of the threads. */
  ghost predicate IsRun<T(!new)>(run: seq<State<T>>) {
    && |run| > 0 && Init(run[0])
    && forall k :: 0 <= k < |run| - 1 ==> Next(run[k], run[k + 1])
  }

  lemma {:induction false} RunKeeps<T(!new)>(run: seq<State<T>>, k: nat)
    requires IsRun(run) && k < |run|
    ensures Inv(run[k])
  {
    if k == 0 {
      assert LockOk(run[0]);
    } else {
      RunKeeps(run, k - 1);
      hide Inv, Step;
      assert Next(run[k - 1], run[k - 1 + 1]);
      var i, e :| Step(run[k - 1], i, e, run[k]);
      StepKeeps(run[k - 1], i, e, run[k]);
    }
  }

  // ---- Main results

  /** The items returned by Polls, in the order of the Polls, then those Dispose returned, then those still queued,
      are the accepted ones in order, an update standing in the place of what it replaced; none is lost, doubled
      or invented. */
  lemma ItemsAreConserved<T(!new)>(run: seq<State<T>>, k: nat)
    requires IsRun(run) && k < |run|
    ensures run[k].polled + run[k].dropped + run[k].items == run[k].arrived
    ensures multiset(run[k].polled) + multiset(run[k].dropped) + multiset(run[k].items) + multiset(run[k].replaced)
         == run[k].accepted
  {
    RunKeeps(run, k);
    var s := run[k];
    assert multiset(s.polled + s.dropped + s.items) == multiset(s.polled) + multiset(s.dropped) + multiset(s.items);
  }

  /** What has been returned stays returned. */
  lemma {:induction false} ReturnsGrow<T(!new)>(run: seq<State<T>>, i: nat, k: nat)
    requires IsRun(run) && i <= k < |run|
    ensures run[i].polled <= run[k].polled && run[i].dropped <= run[k].dropped
    decreases k
  {
    hide IsRun, Step;
    if i < k {
      ReturnsGrow(run, i, k - 1);
      RunStep(run, k - 1);
      var j, e :| Step(run[k - 1], j, e, run[k]);
      StepReturns(run[k - 1], j, e, run[k]);
      PrefixPrefix(run[i].polled, run[k - 1].polled, run[k].polled);
      PrefixPrefix(run[i].dropped, run[k - 1].dropped, run[k].dropped);
    }
  }

  lemma RunStep<T(!new)>(run: seq<State<T>>, k: nat)
    requires IsRun(run) && k + 1 < |run|
    ensures Next(run[k], run[k + 1])
  {
  }

  lemma StepReturns<T(!new)>(s: State<T>, i: nat, e: Event<T>, s': State<T>)
    requires Step(s, i, e, s')
    ensures s.polled <= s'.polled && s.dropped <= s'.dropped
  {
    hide Append, Update, FirstMatch, Without, SetReady, Add, Done;
    if e == Proceed && s.threads[i].Taking? {
      var got := s.threads[i].got;
      assert (s'.polled == s.polled || s'.polled == s.polled + got) && s'.dropped == s.dropped;
    } else if e == Proceed && s.threads[i].Waking? {
      assert s'.polled == s.polled && (s'.dropped == s.dropped || s'.dropped == s.dropped + s.items);
    } else {
      assert s'.polled == s.polled && s'.dropped == s.dropped;
    }
  }

  lemma PrefixPrefix<T>(a: seq<T>, b: seq<T>, c: seq<T>)
    requires a <= b <= c
    ensures a <= c
  {
  }

  /** A Poll that is done copying returns as many items as there are up to its number, at least one, from the
      front of the queue. */
  lemma PollTakesTheFront<T(!new)>(s: State<T>, i: nat)
    requires Inv(s) && Copied(s, i)
    ensures var t := s.threads[i]; var s' := Go(s, i);
      && 1 <= |t.got| <= t.n && (|t.got| == t.n || |t.got| == |s.items|)
      && s.items == t.got + s'.items && s'.polled == s.polled + t.got
  {
    assert ThreadOk(s, i);
  }

  /** Whether a thread is reading or changing the items or the waiters. */
  predicate Touches<T>(s: State<T>, t: Thread<T>) {
    t.PutAppend? || t.PutUpdate? || t.PutNext? || t.PutOffer? || t.Taking? || t.Waking? || (t.Woken? && !s.disposed)
  }

  /** At most one thread at a time touches them, the woken Poll that works without the lock included. */
  lemma OneToucher<T(!new)>(s: State<T>, i: nat, j: nat)
    requires Inv(s) && i < |s.threads| && j < |s.threads| && Touches(s, s.threads[i]) && Touches(s, s.threads[j])
    ensures i == j
  {
    assert ThreadOk(s, i) && ThreadOk(s, j);
    assert s.lock.Some? && ThreadOk(s, s.lock.value);
  }

  /** No lost wakeup: while the lock is free, a Poll waits unsignalled only if the queue is empty and in use. */
  lemma NoLostWakeup<T(!new)>(s: State<T>, i: nat)
    requires Inv(s) && s.lock == None && i < |s.threads|
    ensures s.threads[i].Waiting? && s.items != [] ==> Ready(s, s.threads[i].w)
    ensures s.threads[i].Waiting? && s.disposed ==> Ready(s, s.threads[i].w)
  {
    assert ThreadOk(s, i);
  }

  /** The lock is never held by threads that wait for each other: its holder can go on, or it is a Put and the
      Poll that it woke can. */
  lemma HolderMoves<T(!new)>(s: State<T>)
    requires Inv(s) && s.lock.Some?
    ensures s.lock.value < |s.threads|
    ensures CanGo(s, s.lock.value)
         || (var t := s.threads[s.lock.value]; t.PutWait? && t.w < |s.semas| && CanGo(s, s.semas[t.w].owner))
  {
    assert ThreadOk(s, s.lock.value);
  }

  /** Every Done answers exactly one Add. */
  lemma WaitGroupsBalance<T(!new)>(s: State<T>, i: nat)
    requires Inv(s) && i < |s.threads|
    ensures s.threads[i].TimedOut? && Ready(s, s.threads[i].w) ==> Pending(s, s.threads[i].w) == 1
    ensures Copied(s, i) && s.threads[i].from.Some? ==> Pending(s, s.threads[i].from.value) == 1
  {
    assert ThreadOk(s, i);
  }
}
