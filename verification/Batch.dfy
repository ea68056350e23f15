/** The batches of a multi-node request, src/proxy/proxy.go: the request's goroutine hands the nodes to workers and
    waits between batches; workers and the request interleave at every send, wait and signal. */
module Batch {
  import opened Bytes

  /** Queued for a worker, sent to its server, with its part stored, or done with. */
  datatype Status = Pending | Queued | Running | Stored | Finished

  /** A dispatch node; `wg` is the wait group it signals. */
  datatype Node = Node(status: Status, wg: Option<nat>)

  /** The loop of ServeFastHTTP: `next` is its index, `groups` the counters of the wait groups made so far, `wg` the
      current one. `inline` says that node `next` runs in the request's own goroutine. */
  datatype State = State(
    next: nat, lastBatch: int, wg: Option<nat>, groups: seq<nat>, inline: bool, rendered: bool, nodes: seq<Node>)

  predicate Sorted(batches: seq<int>) {
    forall i, j :: 0 <= i < j < |batches| ==> batches[i] <= batches[j]
  }

  ghost predicate Init(s: State, batches: seq<int>) {
    && s.next == 0 && s.lastBatch == 0 && !s.inline && !s.rendered && |s.nodes| == |batches|
    && (forall i :: 0 <= i < |s.nodes| ==> s.nodes[i] == Node(Pending, None))
    && if |batches| > 1 then s.wg == Some(0) && s.groups == [0] else s.wg == None && s.groups == []
  }

  /** Whether the loop is at a wait, and whether the wait may end. */
  predicate AtWait(s: State, batches: seq<int>) {
    && !s.inline && !s.rendered && s.wg.Some?
    && if s.next < |batches| then s.lastBatch < batches[s.next] else true
  }

  predicate Drained(s: State) {
    s.wg.Some? && s.wg.value < |s.groups| && s.groups[s.wg.value] == 0
  }

  function SetNode(s: State, i: nat, n: Node): State
    requires i < |s.nodes|
  {
    s.(nodes := s.nodes[i := n])
  }

  /** The request's goroutine passes a wait. */
  function PassWait(s: State, batches: seq<int>): State {
    if s.next >= |batches| then s.(rendered := true)
    else if |batches| - s.next > 1 then
      s.(wg := Some(|s.groups|), groups := s.groups + [0], lastBatch := batches[s.next])
    else s.(wg := None, lastBatch := batches[s.next])
  }

  /** It hands over the next node, or starts it itself, or is through with the loop. */
  function Advance(s: State): State {
    if s.next >= |s.nodes| then s.(rendered := true)
    else if s.wg.None? then SetNode(s, s.next, Node(Running, None)).(inline := true)
    else if s.wg.value < |s.groups| then
      SetNode(s, s.next, Node(Queued, s.wg))
        .(next := s.next + 1, groups := s.groups[s.wg.value := s.groups[s.wg.value] + 1])
    else s
  }

  /** maybeDone's signal; the node whose turn ends may be the one that runs inline. */
  function Finish(s: State, i: nat): State
    requires i < |s.nodes|
  {
    var n := s.nodes[i];
    var s1 := SetNode(s, i, n.(status := Finished));
    if n.wg.Some? && n.wg.value < |s.groups| && s.groups[n.wg.value] > 0 then
      s1.(groups := s.groups[n.wg.value := s.groups[n.wg.value] - 1])
    else if s.inline && i == s.next then s1.(inline := false, next := s.next + 1)
    else s1
  }

  datatype Event = Wait | Go | Start(i: nat) | Store(i: nat) | Signal(i: nat)

  ghost predicate Step(s: State, e: Event, s': State, batches: seq<int>) {
    match e
    case Wait => AtWait(s, batches) && Drained(s) && s' == PassWait(s, batches)
    case Go => !s.inline && !s.rendered && !AtWait(s, batches) && s' == Advance(s)
    case Start(i) => i < |s.nodes| && s.nodes[i].status == Queued && s' == SetNode(s, i, s.nodes[i].(status := Running))
    case Store(i) => i < |s.nodes| && s.nodes[i].status == Running && s' == SetNode(s, i, s.nodes[i].(status := Stored))
    case Signal(i) => i < |s.nodes| && s.nodes[i].status == Stored && s' == Finish(s, i)
  }

  // ---- The invariant

  /** The nodes below `k` that have still to signal group `w`. */
  function Owing(nodes: seq<Node>, w: nat, k: nat): nat
    requires k <= |nodes|
  {
    if k == 0 then 0 else Owing(nodes, w, k - 1) + if Owes(nodes[k - 1], w) then 1 else 0
  }

  predicate Owes(n: Node, w: nat) {
    n.wg == Some(w) && n.status != Finished && n.status != Pending
  }

  predicate Started(n: Node) {
    n.status == Running || n.status == Stored || n.status == Finished
  }

  /** What holds in every run, whatever the batch indices are. */
  ghost predicate Inv(s: State, batches: seq<int>) {
    && |s.nodes| == |batches| && s.next <= |s.nodes|
    && (s.inline ==>
          s.next < |s.nodes| && s.wg == None && Started(s.nodes[s.next]) && s.nodes[s.next].status != Finished
                     && s.nodes[s.next].wg == None)
    && (s.wg.Some? ==> s.wg.value == |s.groups| - 1)
    && (s.wg.None? ==> s.next + 1 >= |s.nodes|)
    && (forall i :: s.next <= i < |s.nodes| && !(s.inline && i == s.next) ==> s.nodes[i] == Node(Pending, None))
    && (forall i :: 0 <= i < s.next ==> s.nodes[i].status != Pending && PastOk(s, i))
    && (forall i :: 0 <= i < s.next && s.nodes[i].wg.Some? ==> s.nodes[i].wg.value < |s.groups|)
    && (forall w :: 0 <= w < |s.groups| ==> s.groups[w] == Owing(s.nodes, w, s.next))
    && (s.rendered ==> s.next == |s.nodes| && forall i :: 0 <= i < s.next ==> s.nodes[i].status == Finished)
  }

  /** A node handed over and not finished is in the current group. */
  predicate PastOk(s: State, i: nat)
    requires i < |s.nodes|
  {
    s.nodes[i].status != Finished ==> s.wg.Some? && s.nodes[i].wg == s.wg
  }

  /** The batches for which the barrier works, when they come in order: a batch after another has a positive index. */
  predicate Barred(batches: seq<int>) {
    forall i, j :: 0 <= i < |batches| && 0 <= j < |batches| && batches[i] < batches[j] ==> batches[j] > 0
  }

  /** What holds besides when the barrier works: the loop does not run ahead of its batch, a node handed over and not
      finished is of the batch the loop is at, and none is handed over beside an unfinished one of a smaller batch. */
  ghost predicate Bar(s: State, batches: seq<int>) {
    && (s.lastBatch == 0 || s.next >= |batches| || s.lastBatch <= batches[s.next])
    && (forall i :: 0 <= i < s.next && i < |s.nodes| == |batches| && s.nodes[i].status != Finished ==>
                      Held(s, batches, i))
    && forall i, j :: 0 <= i < j < |s.nodes| == |batches| && batches[i] < batches[j]
                      && (j < s.next || (s.inline && j == s.next))
         ==> s.nodes[i].status == Finished
  }

  predicate Held(s: State, batches: seq<int>, i: nat)
    requires i < |s.nodes| == |batches|
  {
    s.lastBatch == batches[i] || (s.lastBatch == 0 && batches[i] <= 0)
  }

  lemma {:induction false} OwingSame(a: seq<Node>, b: seq<Node>, w: nat, k: nat)
    requires k <= |a| && k <= |b| && forall i :: 0 <= i < k ==> (Owes(a[i], w) <==> Owes(b[i], w))
    ensures Owing(a, w, k) == Owing(b, w, k)
  {
    if k > 0 { OwingSame(a, b, w, k - 1); }
  }

  lemma {:induction false} OwingOneLess(nodes: seq<Node>, i: nat, n: Node, w: nat, k: nat)
    requires i < k <= |nodes| && Owes(nodes[i], w) && !Owes(n, w)
    ensures Owing(nodes, w, k) == Owing(nodes[i := n], w, k) + 1
  {
    if i == k - 1 {
      OwingSame(nodes, nodes[i := n], w, k - 1);
    } else {
      OwingOneLess(nodes, i, n, w, k - 1);
    }
  }

  lemma {:induction false} OwingNone(nodes: seq<Node>, w: nat, k: nat)
    requires k <= |nodes| && Owing(nodes, w, k) == 0
    ensures forall i :: 0 <= i < k ==> !Owes(nodes[i], w)
  {
    if k > 0 { OwingNone(nodes, w, k - 1); }
  }

  /** At the end of a wait every node handed over has finished. */
  lemma DrainedFinished(s: State, batches: seq<int>)
    requires Inv(s, batches) && Drained(s)
    ensures forall i :: 0 <= i < s.next ==> s.nodes[i].status == Finished
  {
    OwingNone(s.nodes, s.wg.value, s.next);
    forall i | 0 <= i < s.next ensures s.nodes[i].status == Finished {
      assert PastOk(s, i);
    }
  }

  lemma WaitKeeps(s: State, batches: seq<int>)
    requires Inv(s, batches) && AtWait(s, batches) && Drained(s)
    ensures Inv(PassWait(s, batches), batches)
    ensures Bar(s, batches) ==> Bar(PassWait(s, batches), batches)
  {
    var s' := PassWait(s, batches);
    DrainedFinished(s, batches);
    forall i | 0 <= i < s.next ensures PastOk(s', i) {}
    if |s'.groups| > |s.groups| {
      NewGroup(s.nodes, |s.groups|, s.next);
    }
  }

  lemma {:induction false} NewGroup(nodes: seq<Node>, w: nat, k: nat)
    requires k <= |nodes| && forall i :: 0 <= i < k ==> nodes[i].wg != Some(w)
    ensures Owing(nodes, w, k) == 0
  {
    if k > 0 { NewGroup(nodes, w, k - 1); }
  }

  lemma GoKeeps(s: State, batches: seq<int>)
    requires Inv(s, batches) && !s.inline && !s.rendered && !AtWait(s, batches)
    ensures Inv(Advance(s), batches)
  {
    var s' := Advance(s);
    if s.next < |s.nodes| {
      forall i | 0 <= i < s'.next ensures PastOk(s', i) { if i < s.next { assert PastOk(s, i); } }
      forall w | 0 <= w < |s'.groups| ensures s'.groups[w] == Owing(s'.nodes, w, s'.next) {
        OwingSame(s.nodes, s'.nodes, w, s.next);
      }
    } else {
      forall i | 0 <= i < s.next ensures s.nodes[i].status == Finished { assert PastOk(s, i); }
    }
  }

  /** The node whose turn it is may be handed over: all of smaller batches have finished. */
  lemma TurnComes(s: State, batches: seq<int>)
    requires Inv(s, batches) && Bar(s, batches) && Sorted(batches) && Barred(batches)
    requires s.next < |batches| && !s.inline && !AtWait(s, batches) && !s.rendered
    ensures forall i :: 0 <= i < s.next && batches[i] < batches[s.next] ==> s.nodes[i].status == Finished
    ensures s.wg.Some? ==> Held(s, batches, s.next)
  {
    forall i | 0 <= i < s.next && batches[i] < batches[s.next] ensures s.nodes[i].status == Finished {
      assert PastOk(s, i);
    }
  }

  lemma GoKeepsBar(s: State, batches: seq<int>)
    requires Inv(s, batches) && Bar(s, batches) && Sorted(batches) && Barred(batches)
    requires !s.inline && !s.rendered && !AtWait(s, batches)
    ensures Bar(Advance(s), batches)
  {
    if s.next < |s.nodes| { TurnComes(s, batches); }
  }

  /** Starting and storing. */
  lemma MoveKeeps(s: State, i: nat, st: Status, batches: seq<int>)
    requires Inv(s, batches) && i < |s.nodes|
    requires (s.nodes[i].status == Queued && st == Running) || (s.nodes[i].status == Running && st == Stored)
    ensures var s' := SetNode(s, i, s.nodes[i].(status := st));
            Inv(s', batches) && (Bar(s, batches) ==> Bar(s', batches))
  {
    var s' := SetNode(s, i, s.nodes[i].(status := st));
    forall j | 0 <= j < s'.next ensures PastOk(s', j) { assert PastOk(s, j); }
    forall w | 0 <= w < |s'.groups| ensures s'.groups[w] == Owing(s'.nodes, w, s'.next) {
      OwingSame(s.nodes, s'.nodes, w, s.next);
    }
  }

  lemma SignalKeeps(s: State, i: nat, batches: seq<int>)
    requires Inv(s, batches) && i < |s.nodes| && s.nodes[i].status == Stored
    ensures Inv(Finish(s, i), batches)
    ensures Bar(s, batches) && Sorted(batches) ==> Bar(Finish(s, i), batches)
  {
    var s' := Finish(s, i);
    var n := s.nodes[i].(status := Finished);
    if i < s.next {
      assert PastOk(s, i);
      OwingOneLess(s.nodes, i, n, s.wg.value, s.next);
      assert s'.groups == s.groups[s.wg.value := s.groups[s.wg.value] - 1];
    }
    forall j | 0 <= j < s'.next ensures PastOk(s', j) { if j < s.next { assert PastOk(s, j); } }
    forall w | 0 <= w < |s'.groups| ensures s'.groups[w] == Owing(s'.nodes, w, s'.next) {
      if s.nodes[i].wg != Some(w) { OwingSame(s.nodes, s'.nodes, w, s.next); }
    }
  }

  /** Every step keeps the wait groups in order; and the batches apart, when they are sorted and can be. */
  lemma StepKeeps(s: State, e: Event, s': State, batches: seq<int>)
    requires Inv(s, batches) && Step(s, e, s', batches)
    ensures Inv(s', batches)
    ensures Sorted(batches) && Barred(batches) && Bar(s, batches) ==> Bar(s', batches)
  {
    hide Inv, Bar, Advance, PassWait, Finish;
    match e
    case Wait => WaitKeeps(s, batches);
    case Go =>
      GoKeeps(s, batches);
      if Sorted(batches) && Barred(batches) && Bar(s, batches) { GoKeepsBar(s, batches); }
    case Start(i) => MoveKeeps(s, i, Running, batches);
    case Store(i) => MoveKeeps(s, i, Stored, batches);
    case Signal(i) => SignalKeeps(s, i, batches);
  }

  ghost predicate IsRun(run: seq<State>, batches: seq<int>) {
    && |run| > 0 && Init(run[0], batches)
    && forall k :: 0 <= k < |run| - 1 ==> Next(run[k], run[k + 1], batches)
  }

  ghost predicate Next(s: State, s': State, batches: seq<int>) {
    exists e :: Step(s, e, s', batches)
  }

  lemma {:induction false} RunKeeps(run: seq<State>, k: nat, batches: seq<int>)
    requires IsRun(run, batches) && k < |run|
    ensures Inv(run[k], batches)
    ensures Sorted(batches) && Barred(batches) ==> Bar(run[k], batches)
  {
    if k > 0 {
      RunKeeps(run, k - 1, batches);
      hide Inv, Bar, Step, Sorted, Barred;
      assert Next(run[k - 1], run[k - 1 + 1], batches);
      var e :| Step(run[k - 1], e, run[k], batches);
      StepKeeps(run[k - 1], e, run[k], batches);
    }
  }

  // ---- Main results

  /** In every run, when a node has started, every node of a smaller batch has finished, its part stored. */
  ghost predicate Barrier(batches: seq<int>) {
    forall run, i, j :: IsRun(run, batches) && 0 <= i < |batches| && 0 <= j < |batches| && batches[i] < batches[j]
      ==> Parted(run[|run| - 1], i, j)
  }

  predicate Parted(s: State, i: nat, j: nat) {
    i < |s.nodes| && j < |s.nodes| && (Started(s.nodes[j]) ==> s.nodes[i].status == Finished)
  }

  lemma BarredHolds(batches: seq<int>, run: seq<State>, i: nat, j: nat)
    requires Sorted(batches) && Barred(batches) && IsRun(run, batches)
    requires i < |batches| && j < |batches| && batches[i] < batches[j]
    ensures Parted(run[|run| - 1], i, j)
  {
    RunKeeps(run, |run| - 1, batches);
    hide IsRun;
  }

  /** The run that hands over the first nodes without a wait. */
  function Handed(n: nat, k: nat): State {
    State(k, 0, Some(0), [k], false, false,
          seq(n, i requires 0 <= i < n => if i < k then Node(Queued, Some(0)) else Node(Pending, None)))
  }

  lemma HandedStep(batches: seq<int>, j: nat, k: nat)
    requires Sorted(batches) && 1 < |batches| && k <= j < |batches| && batches[j] <= 0
    ensures Next(Handed(|batches|, k), Handed(|batches|, k + 1), batches)
  {
    var s, s' := Handed(|batches|, k), Handed(|batches|, k + 1);
    assert batches[k] <= batches[j];
    assert s'.nodes == s.nodes[k := Node(Queued, Some(0))];
    assert Step(s, Go, s', batches);
  }

  /** Without a positive index the later batch is not waited for. */
  lemma UnbarredBreaks(batches: seq<int>, i: nat, j: nat) returns (run: seq<State>)
    requires Sorted(batches) && i < j < |batches| && batches[i] < batches[j] <= 0
    ensures IsRun(run, batches) && !Parted(run[|run| - 1], i, j)
  {
    var n := |batches|;
    var s := Handed(n, j + 1);
    var last := SetNode(s, j, s.nodes[j].(status := Running));
    var start := seq(j + 2, k requires 0 <= k < j + 2 => Handed(n, k));
    run := start + [last];
    assert Init(run[0], batches);
    forall k | 0 <= k < |run| - 1 ensures Next(run[k], run[k + 1], batches) {
      if k <= j {
        HandedStep(batches, j, k);
      } else {
        assert run[k] == s && run[k + 1] == last;
        assert Step(s, Start(j), last, batches);
      }
    }
  }

  // ---- Out of order

  /** The loop stands before node `k`, and all nodes before it have finished. */
  ghost predicate Reached(s: State, batches: seq<int>, k: nat) {
    && Inv(s, batches) && s.next == k < |batches| && !s.inline && !s.rendered
    && forall i :: 0 <= i < k ==> s.nodes[i].status == Finished
  }

  /** Node `k` runs, and all nodes behind it are untouched. */
  ghost predicate RunsAlone(s: State, batches: seq<int>, k: nat) {
    && Inv(s, batches) && k < |batches| && s.nodes[k].status == Running
    && (s.next == k + 1 || (s.inline && s.next == k)) && !s.rendered
    && (forall i :: 0 <= i < k ==> s.nodes[i].status == Finished)
    && forall i :: k < i < |batches| ==> s.nodes[i].status == Pending
  }

  lemma Extends(run: seq<State>, e: Event, s': State, batches: seq<int>)
    requires IsRun(run, batches) && Step(run[|run| - 1], e, s', batches)
    ensures IsRun(run + [s'], batches)
    ensures Inv(run[|run| - 1], batches) ==> Inv(s', batches)
  {
    hide Init, Step, Inv;
    var longer := run + [s'];
    forall k | 0 <= k < |longer| - 1 ensures Next(longer[k], longer[k + 1], batches) {
      if k < |run| - 1 { assert Next(run[k], run[k + 1], batches); }
    }
    if Inv(run[|run| - 1], batches) { StepKeeps(run[|run| - 1], e, s', batches); }
  }

  /** From before node `k`, pass the wait if there is one. */
  lemma PassesWait(run: seq<State>, batches: seq<int>, k: nat) returns (run': seq<State>)
    requires IsRun(run, batches) && Reached(run[|run| - 1], batches, k)
    ensures IsRun(run', batches) && |run'| > 0
    ensures Reached(run'[|run'| - 1], batches, k) && !AtWait(run'[|run'| - 1], batches)
  {
    assert |run| > 0;
    hide IsRun;
    var s := run[|run| - 1];
    run' := run;
    if AtWait(s, batches) {
      NothingOwed(s.nodes, s.wg.value, k);
      Extends(run, Wait, PassWait(s, batches), batches);
      run' := run + [PassWait(s, batches)];
    }
  }

  lemma {:induction false} NothingOwed(nodes: seq<Node>, w: nat, k: nat)
    requires k <= |nodes| && forall i :: 0 <= i < k ==> nodes[i].status == Finished
    ensures Owing(nodes, w, k) == 0
  {
    if k > 0 { NothingOwed(nodes, w, k - 1); }
  }

  /** Hand node `k` over and start it. */
  lemma StartsAlone(run: seq<State>, batches: seq<int>, k: nat) returns (run': seq<State>)
    requires IsRun(run, batches) && Reached(run[|run| - 1], batches, k)
    ensures IsRun(run', batches) && RunsAlone(run'[|run'| - 1], batches, k)
  {
    assert |run| > 0;
    hide IsRun;
    run' := PassesWait(run, batches, k);
    var s := run'[|run'| - 1];
    var s1 := Advance(s);
    Extends(run', Go, s1, batches);
    run' := run' + [s1];
    if !s1.inline {
      var s2 := SetNode(s1, k, s1.nodes[k].(status := Running));
      Extends(run', Start(k), s2, batches);
      run' := run' + [s2];
    }
  }

  /** Let it finish. */
  lemma FinishesAlone(run: seq<State>, batches: seq<int>, k: nat) returns (run': seq<State>)
    requires IsRun(run, batches) && RunsAlone(run[|run| - 1], batches, k) && k + 1 < |batches|
    ensures IsRun(run', batches) && Reached(run'[|run'| - 1], batches, k + 1)
  {
    assert |run| > 0;
    hide IsRun;
    var s := run[|run| - 1];
    var s1 := SetNode(s, k, s.nodes[k].(status := Stored));
    Extends(run, Store(k), s1, batches);
    run' := run + [s1];
    if !s.inline {
      assert PastOk(s1, k);
      OwingOneLess(s1.nodes, k, s1.nodes[k].(status := Finished), s1.wg.value, s1.next);
    }
    var s2 := Finish(s1, k);
    Extends(run', Signal(k), s2, batches);
    run' := run' + [s2];
  }

  lemma Begins(batches: seq<int>) returns (s: State)
    requires |batches| > 0
    ensures Init(s, batches) && Reached(s, batches, 0)
  {
    var nodes := seq(|batches|, i => Node(Pending, None));
    s := if |batches| > 1 then State(0, 0, Some(0), [0], false, false, nodes)
         else State(0, 0, None, [], false, false, nodes);
  }

  /** Whatever the indices are, each node can be started before any node behind it. */
  lemma {:induction false} CanRunAlone(batches: seq<int>, k: nat) returns (run: seq<State>)
    requires k < |batches|
    ensures IsRun(run, batches) && RunsAlone(run[|run| - 1], batches, k)
  {
    if k == 0 {
      var s := Begins(batches);
      run := StartsAlone([s], batches, 0);
    } else {
      run := CanRunAlone(batches, k - 1);
      run := FinishesAlone(run, batches, k - 1);
      run := StartsAlone(run, batches, k);
    }
  }

  lemma CanReach(batches: seq<int>, k: nat) returns (run: seq<State>)
    requires k < |batches|
    ensures IsRun(run, batches) && Reached(run[|run| - 1], batches, k)
  {
    if k == 0 {
      var s := Begins(batches);
      run := [s];
    } else {
      run := CanRunAlone(batches, k - 1);
      run := FinishesAlone(run, batches, k - 1);
    }
  }

  /** Nodes of one batch do not wait for each other: two that follow each other can run side by side. */
  lemma BatchRunsTogether(batches: seq<int>, k: nat) returns (run: seq<State>)
    requires k + 1 < |batches| && batches[k] == batches[k + 1]
    ensures IsRun(run, batches)
    ensures var s := run[|run| - 1]; |s.nodes| == |batches| && s.nodes[k].status == s.nodes[k + 1].status == Running
  {
    run := CanReach(batches, k);
    assert |run| > 0;
    hide IsRun;
    run := PassesWait(run, batches, k);
    var s := run[|run| - 1];
    var s1 := Advance(s);
    Extends(run, Go, s1, batches);
    run := run + [s1];
    var s2 := Advance(s1);
    Extends(run, Go, s2, batches);
    run := run + [s2];
    var s3 := SetNode(s2, k, s2.nodes[k].(status := Running));
    Extends(run, Start(k), s3, batches);
    run := run + [s3];
    var s4 := SetNode(s3, k + 1, s3.nodes[k + 1].(status := Running));
    Extends(run, Start(k + 1), s4, batches);
    run := run + [s4];
  }

  /** Out of order, a node of a larger batch is started with one of a smaller batch still to come. */
  lemma UnsortedBreaks(batches: seq<int>, i: nat, j: nat) returns (run: seq<State>)
    requires i < j < |batches| && batches[i] > batches[j]
    ensures IsRun(run, batches) && !Parted(run[|run| - 1], j, i)
  {
    run := CanRunAlone(batches, i);
  }

  /** The barrier works for exactly the lists that are sorted and in which a batch after another has a positive
      index. */
  lemma BarrierExactly(batches: seq<int>)
    ensures Barrier(batches) <==> Sorted(batches) && Barred(batches)
  {
    hide Parted;
    if !Sorted(batches) {
      var i, j :| 0 <= i < j < |batches| && batches[i] > batches[j];
      var run := UnsortedBreaks(batches, i, j);
      assert !Parted(run[|run| - 1], j, i);
    } else if !Barred(batches) {
      var i, j :| 0 <= i < |batches| && 0 <= j < |batches| && batches[i] < batches[j] && batches[j] <= 0;
      var run := UnbarredBreaks(batches, i, j);
      assert !Parted(run[|run| - 1], i, j);
    } else {
      forall run, i, j | IsRun(run, batches) && 0 <= i < |batches| && 0 <= j < |batches| && batches[i] < batches[j]
        ensures Parted(run[|run| - 1], i, j)
      {
        BarredHolds(batches, run, i, j);
      }
    }
  }

  // ---- The order of the nodes

  const MAX_INT32 := 0x7FFF_FFFF
  const MIN_INT32 := -0x8000_0000

  predicate IsInt32(n: int) {
    MIN_INT32 <= n <= MAX_INT32
  }

  function Wrap(n: int): (r: int)
    ensures IsInt32(r)
  {
    (n + 0x8000_0000) % 0x1_0000_0000 - 0x8000_0000
  }

  /** apiRuntime.compare: the difference of two int32 indices, which wraps around. */
  predicate Less(a: int, b: int) {
    Wrap(a - b) < 0
  }

  /** The comparison is the order of the indices exactly when their difference is an int32. */
  lemma LessExactly(a: int, b: int)
    requires IsInt32(a) && IsInt32(b)
    ensures (Less(a, b) <==> a < b) <==> IsInt32(a - b)
  {
    var d := a - b;
    if d > MAX_INT32 {
      assert (d + 0x8000_0000) % 0x1_0000_0000 == d + 0x8000_0000 - 0x1_0000_0000;
    } else if d < MIN_INT32 {
      assert (d + 0x8000_0000) % 0x1_0000_0000 == d + 0x8000_0000 + 0x1_0000_0000;
    }
  }

  /** The order in which sort.Slice leaves the nodes: none is less than one before it. */
  predicate Arranged(batches: seq<int>) {
    forall i, j :: 0 <= i < j < |batches| ==> !Less(batches[j], batches[i])
  }

  ghost predicate Indices(batches: seq<int>) {
    forall i :: 0 <= i < |batches| ==> IsInt32(batches[i])
  }

  /** No two indices are 2^31 or more apart. */
  ghost predicate Near(batches: seq<int>) {
    forall i, j :: 0 <= i < |batches| && 0 <= j < |batches| ==> batches[i] - batches[j] <= MAX_INT32
  }

  /** The nodes are dispatched in the order of their batches exactly when no two indices are too far apart. */
  lemma ArrangedIsSorted(batches: seq<int>)
    requires Indices(batches) && Arranged(batches)
    ensures Sorted(batches) <==> Near(batches)
  {
    hide Less;
    forall i, j | 0 <= i < |batches| && 0 <= j < |batches|
      ensures (Less(batches[i], batches[j]) <==> batches[i] < batches[j]) <==> IsInt32(batches[i] - batches[j])
    {
      LessExactly(batches[i], batches[j]);
    }
    if !Near(batches) {
      var i, j :| 0 <= i < |batches| && 0 <= j < |batches| && batches[i] - batches[j] > MAX_INT32;
      assert Less(batches[i], batches[j]);
      assert i < j;
    }
  }

  /** For the nodes as they are dispatched: the batches wait for each other exactly when no two indices are 2^31 or
      more apart and all but the smallest are positive. */
  lemma DispatchedBarrier(batches: seq<int>)
    requires Indices(batches) && Arranged(batches)
    ensures Barrier(batches) <==> Near(batches) && Barred(batches)
  {
    hide Barrier, Near, Barred, Sorted, Arranged;
    ArrangedIsSorted(batches);
    BarrierExactly(batches);
  }

  /** So they do whenever no index is negative. */
  lemma NonNegativeBarrier(batches: seq<int>)
    requires Indices(batches) && Arranged(batches) && forall i :: 0 <= i < |batches| ==> batches[i] >= 0
    ensures Barrier(batches)
  {
    hide Barrier;
    DispatchedBarrier(batches);
  }

  /** Two nodes that the comparison puts the wrong way round, though the larger index is positive. */
  lemma WrapBreaks()
    ensures var batches := [MAX_INT32, -2];
            Indices(batches) && Arranged(batches) && !Arranged([-2, MAX_INT32])
            && Barred(batches) && !Near(batches) && !Barrier(batches)
  {
    var batches := [MAX_INT32, -2];
    assert batches[0] - batches[1] > MAX_INT32;
    var other := [-2, MAX_INT32];
    assert Less(other[0], other[1]) <==> Wrap(-2 - MAX_INT32) < 0;
    assert Less(other[1], other[0]);
    DispatchedBarrier(batches);
  }

  /** The response is rendered only when every node has finished, and a wait group's counter is never below zero. */
  lemma RendersLast(batches: seq<int>, run: seq<State>, k: nat, i: nat)
    requires IsRun(run, batches) && k < |run| && i < |run[k].nodes|
    ensures run[k].rendered ==> run[k].nodes[i].status == Finished
    ensures run[k].nodes[i].status == Stored && run[k].nodes[i].wg.Some?
      ==> run[k].nodes[i].wg.value < |run[k].groups| && run[k].groups[run[k].nodes[i].wg.value] > 0
  {
    RunKeeps(run, k, batches);
    var s := run[k];
    if s.nodes[i].status == Stored && s.nodes[i].wg.Some? {
      OwingOneLess(s.nodes, i, s.nodes[i].(status := Finished), s.nodes[i].wg.value, s.next);
    }
  }

  lemma {:induction false} OwingSome(nodes: seq<Node>, w: nat, k: nat) returns (i: nat)
    requires k <= |nodes| && Owing(nodes, w, k) > 0
    ensures i < k && Owes(nodes[i], w)
  {
    if Owes(nodes[k - 1], w) { i := k - 1; } else { i := OwingSome(nodes, w, k - 1); }
  }

  /** Until the response is rendered something can go on: the request never waits for a signal that no node owes. */
  lemma NeverStuck(batches: seq<int>, run: seq<State>, k: nat) returns (e: Event, s': State)
    requires IsRun(run, batches) && k < |run| && !run[k].rendered
    ensures Step(run[k], e, s', batches) && s' != run[k]
  {
    RunKeeps(run, k, batches);
    hide IsRun;
    e, s' := Moves(run[k], batches);
  }

  lemma Moves(s: State, batches: seq<int>) returns (e: Event, s': State)
    requires Inv(s, batches) && !s.rendered
    ensures Step(s, e, s', batches) && s' != s
  {
    if s.inline {
      e, s' := NodeMoves(s, s.next, batches);
    } else if AtWait(s, batches) && !Drained(s) {
      var i := OwingSome(s.nodes, s.wg.value, s.next);
      e, s' := NodeMoves(s, i, batches);
    } else if AtWait(s, batches) {
      e, s' := Wait, PassWait(s, batches);
    } else {
      e, s' := Go, Advance(s);
      if s.next < |s.nodes| { assert s'.nodes[s.next] != s.nodes[s.next]; }
    }
  }

  lemma NodeMoves(s: State, i: nat, batches: seq<int>) returns (e: Event, s': State)
    requires i < |s.nodes| && s.nodes[i].status != Pending && s.nodes[i].status != Finished
    ensures Step(s, e, s', batches) && s' != s
  {
    match s.nodes[i].status
    case Queued => e, s' := Start(i), SetNode(s, i, s.nodes[i].(status := Running));
    case Running => e, s' := Store(i), SetNode(s, i, s.nodes[i].(status := Stored));
    case Stored => e, s' := Signal(i), Finish(s, i);
    assert s'.nodes[i] != s.nodes[i];
  }

  // ---- The exit paths of doProxy

  datatype Rewrite = NoRewrite | Rewritten | NotMatched

  /** What a pre-filter left in the context: nothing, a cached value, a response, or something else as one. */
  datatype Ready = Nothing | Cached(code: int) | Response(code: int) | Misplaced

  /** One attempt at the server; `next` says whether a retry finds a server. */
  datatype Attempt = Attempt(failed: bool, code: int, retryable: bool, next: bool)

  datatype Outcome = Outcome(
    useDefault: bool, hasServer: bool, rewrite: Rewrite, preFails: Option<int>, ready: Ready,
    hasRetry: bool, maxTimes: int, attempts: seq<Attempt>, postFails: Option<int>)

  predicate Succeeds(a: Attempt) {
    !a.failed && a.code < 400
  }

  /** Whether a retry is allowed after attempt `k`, by the strategy and the number of attempts. */
  predicate MayRetry(o: Outcome, k: nat)
    requires k < |o.attempts|
  {
    o.hasRetry && o.attempts[k].retryable && k + 1 < o.maxTimes
  }

  /** Attempt `k` is the last one asked for: it succeeds, may not be retried, or finds no server to retry on; and no
      attempt before it is. */
  ghost predicate Decides(o: Outcome, k: nat) {
    && k < |o.attempts|
    && (Succeeds(o.attempts[k]) || !MayRetry(o, k) || !o.attempts[k].next)
    && forall j :: 0 <= j < k ==> !Succeeds(o.attempts[j]) && MayRetry(o, j) && o.attempts[j].next
  }

  /** The request gets as far as an answer. */
  predicate Admitted(o: Outcome) {
    !o.useDefault && o.hasServer && o.rewrite != NotMatched && o.preFails.None?
  }

  /** There is one deciding attempt, and a successful one is never followed by another. */
  lemma DecidesOnce(o: Outcome, k: nat, l: nat)
    requires Decides(o, k)
    ensures Decides(o, l) <==> l == k
    ensures forall j :: 0 <= j < |o.attempts| && Succeeds(o.attempts[j]) ==> k <= j
  {
  }

  class DispatchNode {
    const inMulti: bool
    const hasGroup: bool
    var failed: bool
    var code: int
    /** History: the parts stored, the signals given, and how often a server was asked. */
    var parts: nat
    var signals: nat
    var asked: nat

    constructor (inMulti: bool, hasGroup: bool)
      ensures this.inMulti == inMulti && this.hasGroup == hasGroup && parts == 0 && signals == 0 && asked == 0
      ensures !failed && code == 0
    {
      this.inMulti, this.hasGroup, failed, code := inMulti, hasGroup, false, 0;
      parts, signals, asked := 0, 0, 0;
    }

    /** The node's end when attempt `k` is the last: a success is an answer, a retry without a server is a 503, and an
        error or a status that is not retried is what it is. */
    ghost predicate EndsAfter(o: Outcome, k: nat, wasFailed: bool, oldCode: int)
      requires k < |o.attempts|
      reads this
    {
      var a := o.attempts[k];
      if Succeeds(a) then Answered(o, a.code, wasFailed, oldCode)
      else if MayRetry(o, k) then failed && code == 503
      else if a.failed then failed && code == 500
      else !failed && code == a.code
    }

    method MaybeDone()
      modifies this`parts, this`signals
      ensures parts == old(parts) + if inMulti then 1 else 0
      ensures signals == old(signals) + if inMulti && hasGroup then 1 else 0
    {
      if inMulti {
        parts := parts + 1;
        if hasGroup {
          signals := signals + 1;
        }
      }
    }

    method Fail(code: int)
      modifies this`failed, this`code, this`parts, this`signals
      ensures failed && this.code == code
      ensures parts == old(parts) + if inMulti then 1 else 0
      ensures signals == old(signals) + if inMulti && hasGroup then 1 else 0
    {
      failed, this.code := true, code;
      MaybeDone();
    }

    /** The node's end after an answer with this status: kept as it is below 400 when the post-filters agree. */
    ghost predicate Answered(o: Outcome, status: int, wasFailed: bool, oldCode: int)
      reads this
    {
      if status >= 400 then !failed && code == status
      else if o.postFails.Some? then failed && code == o.postFails.value
      else failed == wasFailed && code == oldCode
    }

    /** Every path through doProxy stores the node's part once, signals its wait group once, and leaves the error and
        the status of what happened. An attempt is given for each time the server may be asked. */
    method DoProxy(o: Outcome)
      requires |o.attempts| > 0 && (o.hasRetry ==> |o.attempts| >= o.maxTimes)
      modifies this
      ensures parts == old(parts) + if inMulti then 1 else 0
      ensures signals == old(signals) + if inMulti && hasGroup then 1 else 0
      ensures o.useDefault ==> failed == old(failed) && code == old(code)
      ensures !o.useDefault && !o.hasServer ==> failed && code == 503
      ensures !o.useDefault && o.hasServer && o.rewrite == NotMatched ==> failed && code == 400
      ensures !o.useDefault && o.hasServer && o.rewrite != NotMatched && o.preFails.Some? ==>
                failed && code == o.preFails.value
      ensures Admitted(o) && o.ready.Misplaced? ==> failed && code == 500
      ensures Admitted(o) && (o.ready.Cached? || o.ready.Response?) ==>
                Answered(o, o.ready.code, old(failed), old(code))
      ensures Admitted(o) && o.ready.Nothing? ==>
                exists k :: Decides(o, k) && asked == old(asked) + k + 1 && EndsAfter(o, k, old(failed), old(code))
      ensures !(Admitted(o) && o.ready.Nothing?) ==> asked == old(asked)
    {
      if o.useDefault {
        MaybeDone();
        return;
      }
      if !o.hasServer {
        Fail(503);
        return;
      }
      if o.rewrite == NotMatched {
        Fail(400);
        return;
      }
      if o.preFails.Some? {
        Fail(o.preFails.value);
        return;
      }
      var err, status := false, 200;
      match o.ready {
        case Cached(c) => status := c;
        case Misplaced =>
          Fail(500);
          return;
        case Response(c) => status := c;
        case Nothing =>
          var times := 0;
          while true
            invariant 0 <= times < |o.attempts| && unchanged(this`failed, this`code, this`parts, this`signals)
            invariant asked == old(asked) + times
            invariant forall j :: 0 <= j < times ==> !Succeeds(o.attempts[j]) && MayRetry(o, j) && o.attempts[j].next
            decreases |o.attempts| - times
          {
            var a := o.attempts[times];
            err, status := a.failed, a.code;
            asked := asked + 1;
            times := times + 1;
            if !err && status < 400 {
              break;
            }
            if !o.hasRetry {
              break;
            }
            if !a.retryable {
              break;
            }
            if times >= o.maxTimes {
              break;
            }
            if !a.next {
              assert Decides(o, times - 1);
              Fail(503);
              return;
            }
          }
          assert Decides(o, asked - old(asked) - 1);
      }
      if err || status >= 400 {
        failed, code := err, if err then 500 else status;
        MaybeDone();
        return;
      }
      if o.postFails.Some? {
        Fail(o.postFails.value);
        return;
      }
      MaybeDone();
    }
  }
}
