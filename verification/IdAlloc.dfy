/** Distributed id allocation, src/store/store_etcd.go:1121-1215: stores take ranges of ids from one cell by
    compare-and-swap. Reads and commits may fail; a commit that fails may have been applied. */
module IdAlloc {
  import opened Bytes

  const BATCH: nat := 1000

  /** Where allocID is; its lock makes each store one thread. Taken holds the end of a range won but not yet used. */
  datatype Phase = Idle | Reading | Writing(value: nat) | Taken(max: nat)

  datatype Store = Store(base: nat, end: nat, phase: Phase)

  datatype Handed = Handed(store: nat, id: nat)

  /** `handed` is history: the ids returned, in order. */
  datatype State = State(cell: Option<nat>, stores: seq<Store>, handed: seq<Handed>)

  ghost predicate Init(s: State) {
    && s.cell == None && s.handed == []
    && forall i :: 0 <= i < |s.stores| ==> s.stores[i] == Store(0, 0, Idle)
  }

  function Set(s: State, i: nat, t: Store): State
    requires i < |s.stores|
  {
    s.(stores := s.stores[i := t])
  }

  /** The end of allocID: the next id of the range. */
  function HandOut(s: State, i: nat, base: nat, end: nat): State
    requires i < |s.stores|
  {
    Set(s, i, Store(base + 1, end, Idle)).(handed := s.handed + [Handed(i, base + 1)])
  }

  /** Whether the commit's comparison holds: no cell yet, or the value that was read. */
  predicate Matches(s: State, value: nat) {
    if value == 0 then s.cell == None else s.cell == Some(value)
  }

  datatype Event = Join | Call | Read | ReadFails | Commit | CommitFails(applied: bool) | Use

  ghost predicate Step(s: State, i: nat, e: Event, s': State) {
    if e == Join then s' == s.(stores := s.stores + [Store(0, 0, Idle)])
    else
      && i < |s.stores|
      && var t := s.stores[i];
         match e
         case Join => false
         case Call =>
           && t.phase == Idle
           && s' == if t.base == t.end then Set(s, i, t.(phase := Reading)) else HandOut(s, i, t.base, t.end)
         case Read =>
           t.phase == Reading && s' == Set(s, i, t.(phase := Writing(if s.cell.Some? then s.cell.value else 0)))
         case ReadFails => t.phase == Reading && s' == Set(s, i, t.(phase := Idle))
         case Commit =>
           && t.phase.Writing?
           && var max := t.phase.value + BATCH;
              s' == if Matches(s, t.phase.value) then Set(s, i, t.(phase := Taken(max))).(cell := Some(max))
                    else Set(s, i, t.(phase := Reading))
         case CommitFails(applied) =>
           && t.phase.Writing? && (applied ==> Matches(s, t.phase.value))
           && var s1 := Set(s, i, t.(phase := Idle));
              s' == if applied then s1.(cell := Some(t.phase.value + BATCH)) else s1
         case Use =>
           t.phase.Taken? && t.phase.max >= BATCH && s' == HandOut(s, i, t.phase.max - BATCH, t.phase.max)
  }

  // ---- The invariant

  function Top(s: State): nat {
    if s.cell.Some? then s.cell.value else 0
  }

  /** The ids a store may still hand out. */
  predicate Owns(t: Store, id: int) {
    t.base < id <= t.end || (t.phase.Taken? && t.phase.max < id + BATCH && id <= t.phase.max)
  }

  predicate StoreOk(s: State, i: nat)
    requires i < |s.stores|
  {
    var t := s.stores[i];
    && t.base <= t.end <= Top(s)
    && (t.phase != Idle ==> t.base == t.end)
    && (t.phase.Taken? ==> t.base + BATCH <= t.phase.max <= Top(s))
  }

  predicate HandedOk(s: State, h: Handed) {
    && 0 < h.id <= Top(s) && h.store < |s.stores| && h.id <= s.stores[h.store].base
  }

  ghost predicate Inv(s: State) {
    && (s.cell.Some? ==> s.cell.value > 0)
    && (forall i :: 0 <= i < |s.stores| ==> StoreOk(s, i))
    && (forall k :: 0 <= k < |s.handed| ==> HandedOk(s, s.handed[k]))
    && (forall i, j, id :: 0 <= i < j < |s.stores| && Owns(s.stores[i], id) ==> !Owns(s.stores[j], id))
    && (forall i, k :: 0 <= i < |s.stores| && 0 <= k < |s.handed| ==> !Owns(s.stores[i], s.handed[k].id))
    && (forall k, l :: 0 <= k < l < |s.handed| ==> s.handed[k].id != s.handed[l].id)
    && (forall k, l :: 0 <= k < l < |s.handed| && s.handed[k].store == s.handed[l].store ==>
        s.handed[k].id < s.handed[l].id)
  }

  /** A store may change to own only ids it owned, or ids above the cell's old value. */
  lemma ReplaceKeeps(s: State, i: nat, t: Store, cell: Option<nat>)
    requires Inv(s) && i < |s.stores|
    requires var s' := Set(s, i, t).(cell := cell);
             Top(s') >= Top(s) && StoreOk(s', i) && (cell.Some? ==> cell.value > 0)
    requires t.base >= s.stores[i].base && forall id :: Owns(t, id) ==> Owns(s.stores[i], id) || id > Top(s)
    ensures Inv(Set(s, i, t).(cell := cell))
  {
    var s' := Set(s, i, t).(cell := cell);
    forall j | 0 <= j < |s'.stores| ensures StoreOk(s', j) { assert StoreOk(s, j); }
    forall k | 0 <= k < |s'.handed| ensures HandedOk(s', s'.handed[k]) { assert HandedOk(s, s.handed[k]); }
    forall j, id | 0 <= j < |s.stores| && Owns(s.stores[j], id) ensures id <= Top(s) { assert StoreOk(s, j); }
    hide Owns;
    forall j, l, id | 0 <= j < l < |s'.stores| && Owns(s'.stores[j], id) ensures !Owns(s'.stores[l], id) {
      assert Owns(s.stores[j], id) ==> !Owns(s.stores[l], id);
    }
  }

  /** Handing out the first id of a range that the store owns. */
  lemma HandKeeps(s: State, i: nat, base: nat, end: nat)
    requires Inv(s) && i < |s.stores| && s.stores[i].base <= base < end <= Top(s)
    requires forall id :: base < id <= end ==> Owns(s.stores[i], id)
    ensures Inv(HandOut(s, i, base, end))
  {
    var t := Store(base + 1, end, Idle);
    var s1 := Set(s, i, t);
    ReplaceKeeps(s, i, t, s.cell);
    assert Owns(s.stores[i], base + 1) && !Owns(t, base + 1);
    forall j | 0 <= j < |s.stores| && j != i ensures !Owns(s1.stores[j], base + 1) {
      hide Owns;
    }
    forall k | 0 <= k < |s.handed|
      ensures s.handed[k].id != base + 1 && (s.handed[k].store == i ==> s.handed[k].id < base + 1)
    {
      assert HandedOk(s, s.handed[k]);
    }
    AddHanded(s1, Handed(i, base + 1));
  }

  lemma AddHanded(s: State, h: Handed)
    requires Inv(s) && HandedOk(s, h)
    requires forall i :: 0 <= i < |s.stores| ==> !Owns(s.stores[i], h.id)
    requires forall k :: 0 <= k < |s.handed| ==>
        s.handed[k].id != h.id && (s.handed[k].store == h.store ==> s.handed[k].id < h.id)
    ensures Inv(s.(handed := s.handed + [h]))
  {
    hide Owns;
    var s' := s.(handed := s.handed + [h]);
    forall j | 0 <= j < |s'.stores| ensures StoreOk(s', j) { assert StoreOk(s, j); }
    forall k | 0 <= k < |s'.handed| ensures HandedOk(s', s'.handed[k]) {
      if k < |s.handed| { assert HandedOk(s, s.handed[k]); }
    }
  }

  lemma JoinKeeps(s: State)
    requires Inv(s)
    ensures Inv(s.(stores := s.stores + [Store(0, 0, Idle)]))
  {
    var s' := s.(stores := s.stores + [Store(0, 0, Idle)]);
    assert forall id :: !Owns(Store(0, 0, Idle), id);
    hide Owns;
    forall j | 0 <= j < |s'.stores| ensures StoreOk(s', j) { if j < |s.stores| { assert StoreOk(s, j); } }
    forall k | 0 <= k < |s'.handed| ensures HandedOk(s', s'.handed[k]) { assert HandedOk(s, s.handed[k]); }
  }

  lemma StepKeeps(s: State, i: nat, e: Event, s': State)
    requires Inv(s) && Step(s, i, e, s')
    ensures Inv(s')
  {
    if e == Join {
      JoinKeeps(s);
    } else {
      var t := s.stores[i];
      assert StoreOk(s, i);
      hide Inv;
      if e == Call && t.base != t.end {
        HandKeeps(s, i, t.base, t.end);
      } else if e == Use {
        HandKeeps(s, i, t.phase.max - BATCH, t.phase.max);
      } else {
        assert s.cell.Some? ==> s.cell.value > 0 by { CellPositive(s); }
        ReplaceKeeps(s, i, s'.stores[i], s'.cell);
      }
    }
  }

  lemma CellPositive(s: State)
    requires Inv(s)
    ensures s.cell.Some? ==> s.cell.value > 0
  {
  }

  // ---- Main result

  /** A run: stores come up, and their calls interleave, in any way. */
  ghost predicate IsRun(run: seq<State>) {
    && |run| > 0 && Init(run[0])
    && forall k :: 0 <= k < |run| - 1 ==> Next(run[k], run[k + 1])
  }

  ghost predicate Next(s: State, s': State) {
    exists i, e :: Step(s, i, e, s')
  }

  lemma {:induction false} RunKeeps(run: seq<State>, k: nat)
    requires IsRun(run) && k < |run|
    ensures Inv(run[k])
  {
    if k > 0 {
      RunKeeps(run, k - 1);
      hide Inv, Step;
      assert Next(run[k - 1], run[k - 1 + 1]);
      var i, e :| Step(run[k - 1], i, e, run[k]);
      StepKeeps(run[k - 1], i, e, run[k]);
    }
  }

  /** No id is handed out twice, by whichever stores; ids are positive, and each store's only grow. */
  lemma IdsAreUnique(run: seq<State>, k: nat, a: nat, b: nat)
    requires IsRun(run) && k < |run| && a < b < |run[k].handed|
    ensures run[k].handed[a].id != run[k].handed[b].id && run[k].handed[a].id > 0 && run[k].handed[b].id > 0
    ensures run[k].handed[a].store == run[k].handed[b].store ==> run[k].handed[a].id < run[k].handed[b].id
  {
    RunKeeps(run, k);
    assert HandedOk(run[k], run[k].handed[a]) && HandedOk(run[k], run[k].handed[b]);
  }

  /** A store that has used up its range and meets no other store gets the next id above the cell, by a read and
      one commit. */
  lemma UncontendedCall(s: State, i: nat) returns (run: seq<State>)
    requires Inv(s) && i < |s.stores| && s.stores[i].phase == Idle && s.stores[i].base == s.stores[i].end
    ensures |run| == 5 && run[0] == s && forall k :: 0 <= k < 4 ==> Next(run[k], run[k + 1])
    ensures run[4].handed == s.handed + [Handed(i, Top(s) + 1)] && run[4].cell == Some(Top(s) + BATCH)
    ensures run[4].stores == s.stores[i := Store(Top(s) + 1, Top(s) + BATCH, Idle)]
  {
    var t := s.stores[i];
    var s1 := Set(s, i, t.(phase := Reading));
    var s2 := Set(s, i, t.(phase := Writing(Top(s))));
    var s3 := Set(s, i, t.(phase := Taken(Top(s) + BATCH))).(cell := Some(Top(s) + BATCH));
    var s4 := HandOut(s3, i, Top(s), Top(s) + BATCH);
    assert Step(s, i, Call, s1);
    assert Step(s1, i, Read, s2);
    assert Step(s2, i, Commit, s3);
    assert Step(s3, i, Use, s4);
    run := [s, s1, s2, s3, s4];
  }

  // ---- Which id comes next

  /** The id that a store has handed out last, or 0. */
  function LastOf(handed: seq<Handed>, i: nat): nat {
    if handed == [] then 0
    else
      var h := handed[|handed| - 1];
      if h.store == i then h.id else LastOf(handed[..|handed| - 1], i)
  }

  lemma LastGrows(handed: seq<Handed>, h: Handed, i: nat)
    ensures LastOf(handed + [h], i) == if h.store == i then h.id else LastOf(handed, i)
  {
    assert (handed + [h])[..|handed|] == handed;
  }

  predicate Whole(n: int) {
    n % BATCH == 0
  }

  /** A store is at its last id, in a range that ends at a whole number of batches. */
  ghost predicate AtLast(s: State, i: nat)
    requires i < |s.stores|
  {
    var t := s.stores[i];
    && t.base == LastOf(s.handed, i) && Whole(t.end) && t.base <= t.end < t.base + BATCH
    && (t.phase.Taken? ==> Whole(t.phase.max)) && (t.phase.Writing? ==> Whole(t.phase.value))
  }

  ghost predicate InStep(s: State) {
    && (s.cell.Some? ==> Whole(s.cell.value))
    && (forall k :: 0 <= k < |s.handed| ==> s.handed[k].store < |s.stores|)
    && forall i :: 0 <= i < |s.stores| ==> AtLast(s, i)
  }

  lemma NobodysLast(handed: seq<Handed>, i: nat)
    requires forall k :: 0 <= k < |handed| ==> handed[k].store < i
    ensures LastOf(handed, i) == 0
  {
  }

  lemma HandsNext(s: State, i: nat, base: nat, end: nat)
    requires InStep(s) && i < |s.stores| && Whole(end) && base < end <= base + BATCH
    ensures InStep(HandOut(s, i, base, end))
  {
    var s' := HandOut(s, i, base, end);
    forall j | 0 <= j < |s'.stores| ensures AtLast(s', j) {
      assert AtLast(s, j);
      LastGrows(s.handed, Handed(i, base + 1), j);
    }
  }

  lemma StepInStep(s: State, i: nat, e: Event, s': State)
    requires InStep(s) && Step(s, i, e, s')
    ensures InStep(s')
  {
    if e == Join {
      forall j | 0 <= j < |s'.stores| ensures AtLast(s', j) {
        if j < |s.stores| { assert AtLast(s, j); } else { NobodysLast(s.handed, j); }
      }
    } else {
      var t := s.stores[i];
      assert AtLast(s, i);
      hide LastOf;
      if e == Call && t.base != t.end {
        HandsNext(s, i, t.base, t.end);
      } else if e == Use {
        HandsNext(s, i, t.phase.max - BATCH, t.phase.max);
      } else {
        forall j | 0 <= j < |s'.stores| ensures AtLast(s', j) { assert AtLast(s, j); }
      }
    }
  }

  lemma {:induction false} RunInStep(run: seq<State>, k: nat)
    requires IsRun(run) && k < |run|
    ensures InStep(run[k])
  {
    if k > 0 {
      RunInStep(run, k - 1);
      hide InStep, Step;
      assert Next(run[k - 1], run[k - 1 + 1]);
      var i, e :| Step(run[k - 1], i, e, run[k]);
      StepInStep(run[k - 1], i, e, run[k]);
    }
  }

  /** A call hands out the id after the store's last one, without a look at the cell, unless that was the last of its
      range; then it hands out the first id of another range. */
  lemma NextId(run: seq<State>, k: nat, i: nat, e: Event)
    requires IsRun(run) && k + 1 < |run| && Step(run[k], i, e, run[k + 1]) && run[k + 1].handed != run[k].handed
    ensures exists id: nat :: run[k + 1].handed == run[k].handed + [Handed(i, id)]
                         && if Whole(LastOf(run[k].handed, i)) then e == Use && Whole(id - 1)
                            else e == Call && id == LastOf(run[k].handed, i) + 1 && run[k + 1].cell == run[k].cell
  {
    RunInStep(run, k);
    RunKeeps(run, k);
    hide IsRun, LastOf;
    var s := run[k];
    assert AtLast(s, i) && StoreOk(s, i);
    var t := s.stores[i];
    if e == Call {
      assert run[k + 1].handed == s.handed + [Handed(i, t.base + 1)];
      RangeEnds(t.base, t.end);
    } else {
      assert run[k + 1].handed == s.handed + [Handed(i, t.phase.max - BATCH + 1)];
      RangeEnds(t.base, t.end);
    }
  }

  lemma RangeEnds(base: nat, end: nat)
    requires Whole(end) && base <= end < base + BATCH
    ensures Whole(base) <==> base == end
    ensures Whole(end + BATCH) && (end >= BATCH ==> Whole(end - BATCH))
  {
  }

  // ---- Reading all values of a prefix, page by page (src/store/store_etcd.go:1040-1071)

  predicate Ascending(ids: seq<nat>) {
    forall i, j :: 0 <= i < j < |ids| ==> ids[i] < ids[j]
  }

  /** The ids from `start` on, at most `limit` of them: one page. Keys have a fixed width, so their order is that of
      the ids. */
  function Page(ids: seq<nat>, start: nat, limit: nat): seq<nat> {
    if ids == [] || limit == 0 then []
    else if ids[0] < start then Page(ids[1..], start, limit)
    else [ids[0]] + Page(ids[1..], start, limit - 1)
  }

  lemma {:induction false} PageOrder(ids: seq<nat>, start: nat, limit: nat)
    requires Ascending(ids)
    ensures var page := Page(ids, start, limit);
      |page| <= limit && Ascending(page) && forall i :: 0 <= i < |page| ==> page[i] in ids && page[i] >= start
  {
    if ids != [] && limit > 0 {
      assert Ascending(ids[1..]) && ids == [ids[0]] + ids[1..];
      if ids[0] < start {
        PageOrder(ids[1..], start, limit);
      } else {
        PageOrder(ids[1..], start, limit - 1);
      }
    }
  }

  /** A page leaves out nothing before its end; one that is not full leaves out nothing at all. */
  lemma {:induction false} PageCovers(ids: seq<nat>, start: nat, limit: nat, id: nat)
    requires Ascending(ids) && id in ids && id >= start
    requires var page := Page(ids, start, limit); |page| < limit || (|page| > 0 && id <= page[|page| - 1])
    ensures id in Page(ids, start, limit)
  {
    if limit > 0 && id != ids[0] {
      var rest := ids[1..];
      assert Ascending(rest) && ids == [ids[0]] + rest && id in rest;
      if ids[0] < start {
        PageCovers(rest, start, limit, id);
      } else {
        var page := Page(rest, start, limit - 1);
        assert Page(ids, start, limit) == [ids[0]] + page;
        var i :| 0 <= i < |rest| && rest[i] == id;
        assert ids[0] < ids[i + 1];
        PageCovers(rest, start, limit - 1, id);
      }
    }
  }

  /** Visits the values of a prefix. `contents[p]` is what the prefix holds when page `p` is read, so others may add
      and remove values meanwhile. */
  method GetValues(contents: seq<seq<nat>>, limit: nat) returns (visited: seq<nat>, pages: nat, done: bool)
    requires limit > 0 && forall p :: 0 <= p < |contents| ==> Ascending(contents[p])
    ensures Ascending(visited) && pages <= |contents|
    ensures forall id :: id in visited ==> exists p :: 0 <= p < pages && id in contents[p]
    ensures done ==> forall id :: (forall p :: 0 <= p < pages ==> id in contents[p]) && pages > 0 ==> id in visited
    ensures !done ==> pages == |contents|
  {
    var start: nat := 0;
    visited, pages, done := [], 0, false;
    while pages < |contents|
      invariant pages <= |contents| && Ascending(visited) && !done
      invariant forall i :: 0 <= i < |visited| ==> visited[i] < start
      invariant forall id :: id in visited ==> exists p :: 0 <= p < pages && id in contents[p]
      invariant forall id :: id < start && (forall p :: 0 <= p < pages ==> id in contents[p]) && pages > 0 ==>
          id in visited
      invariant pages == 0 ==> start == 0
    {
      var page := Page(contents[pages], start, limit);
      PageOrder(contents[pages], start, limit);
      forall id | id in contents[pages] && id >= start && (|page| < limit || (|page| > 0 && id <= page[|page| - 1]))
        ensures id in page
      {
        PageCovers(contents[pages], start, limit, id);
      }
      visited := visited + page;
      if |page| > 0 {
        start := page[|page| - 1] + 1;
      }
      pages := pages + 1;
      if |page| < limit {
        done := true;
        return;
      }
    }
  }
}
