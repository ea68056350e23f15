/** The intrusive lists of src/goetty/timewheel.go on the heap: forward links, and in each node the address of the
    link that leads to it. Each operation is proved to be its operation on sequences. */
module TimeoutList {

  import opened Lists

  /** The address of a link. */
  datatype Place = Nil | Head(list: List) | Next(node: Node)

  datatype Status = Inactive | Elapsed | Active

  class List {
    var head: Node?
    constructor ()
      ensures head == null
    {
      head := null;
    }
  }

  class Node {
    var next: Node?
    var prev: Place
    var deadline: nat
    var status: Status
    var generation: nat

    constructor ()
      ensures next == null && prev == Nil && status == Inactive && generation == 0
    {
      next, prev, deadline, status, generation := null, Nil, 0, Inactive, 0;
    }

    /** prependLocked. */
    method Prepend(list: List, ghost xs: seq<Node>)
      requires Links(list, xs) && this !in xs
      modifies this`next, this`prev, list, xs`prev
      ensures Links(list, [this] + xs)
    {
      if list.head != null {
        prev := list.head.prev;
        list.head.prev := Next(this);
      } else {
        prev := Head(list);
      }
      next := list.head;
      list.head := this;
      ghost var ws := [this] + xs;
      assert forall j :: 0 <= j < |ws| ==> ws[j] == if j == 0 then this else xs[j - 1];
      assert forall j :: 0 <= j < |xs| ==> xs[j] in xs;
    }

    /** removeLocked: it neither walks the list nor knows which list it is on. */
    method Remove(ghost list: List, ghost xs: seq<Node>)
      requires Links(list, xs) && this in xs
      modifies list, xs`next, xs`prev
      ensures Links(list, Without(xs, this))
      ensures next == null && prev == Nil
    {
      hide Without, NoDup, After, Before;
      ghost var i :| 0 <= i < |xs| && xs[i] == this;
      Neighbours(list, xs, i);
      if next != null {
        next.prev := prev;
      }
      match prev {
        case Head(l) => l.head := next;
        case Next(n) => n.next := next;
      }
      next := null;
      prev := Nil;
      Relinked(list, xs, i);
      WithoutAt(xs, i);
    }

    /** What doTick does with a node that is due. */
    method Expire(ghost bucket: List, ghost xs: seq<Node>, expired: List, ghost ys: seq<Node>)
      requires bucket != expired && Links(bucket, xs) && Links(expired, ys) && this in xs
      requires forall j :: 0 <= j < |xs| ==> xs[j] !in ys
      modifies bucket, expired, xs`next, xs`prev, this`status, ys`prev
      ensures Links(bucket, Without(xs, this)) && Links(expired, [this] + ys) && status == Elapsed
    {
      hide Links, NoDup, Without;
      status := Elapsed;
      LinksHead(bucket, xs);
      WithoutElements(xs, this);
      assert forall j :: 0 <= j < |ys| ==> ys[j] !in xs;
      Remove(bucket, xs);
      Prepend(expired, ys);
    }

    /** putTimeoutLocked, given the free list of the node's deadline. */
    method Put(free: List, ghost ys: seq<Node>)
      requires Links(free, ys) && this !in ys
      modifies this`next, this`prev, this`status, this`generation, free, ys`prev
      ensures Links(free, [this] + ys)
      ensures status == Inactive && generation == old(generation) + 1
    {
      status := Inactive;
      generation := generation + 1;
      Prepend(free, ys);
    }
  }

  ghost function After(xs: seq<Node>, i: nat): Node?
    requires i < |xs|
  {
    if i + 1 < |xs| then xs[i + 1] else null
  }

  ghost function Before(list: List, xs: seq<Node>, i: nat): Place
    requires i < |xs|
  {
    if i == 0 then Head(list) else Next(xs[i - 1])
  }

  /** `list` consists of the nodes `xs`, in order. */
  ghost predicate Links(list: List, xs: seq<Node>)
    reads list, xs`next, xs`prev
  {
    && NoDup(xs) && Chain(list.head, xs)
    && forall i {:trigger xs[i].prev} :: 0 <= i < |xs| ==> xs[i].prev == Before(list, xs, i)
  }

  /** The forward links from `t` lead through `xs`. */
  ghost predicate Chain(t: Node?, xs: seq<Node>)
    reads xs`next
  {
    && t == (if xs == [] then null else xs[0])
    && forall i {:trigger xs[i].next} :: 0 <= i < |xs| ==> xs[i].next == After(xs, i)
  }

  /** What the node at `i` links to, and that no other node is at its place or its neighbours'. */
  lemma Neighbours(list: List, xs: seq<Node>, i: nat)
    requires Links(list, xs) && i < |xs|
    ensures xs[i].next == After(xs, i) == if i + 1 < |xs| then xs[i + 1] else null
    ensures xs[i].prev == Before(list, xs, i) == if i == 0 then Head(list) else Next(xs[i - 1])
    ensures list.head == xs[0]
    ensures forall k :: 0 <= k < |xs| && k != i ==> xs[k] != xs[i]
    ensures i > 0 ==> forall k :: 0 <= k < |xs| && k != i - 1 ==> xs[k] != xs[i - 1]
    ensures i + 1 < |xs| ==> forall k :: 0 <= k < |xs| && k != i + 1 ==> xs[k] != xs[i + 1]
  {
  }

  /** Links that pass over the node at `i`. */
  lemma Relinked(list: List, xs: seq<Node>, i: nat)
    requires NoDup(xs) && i < |xs| && list.head == if i == 0 then After(xs, 0) else xs[0]
    requires forall k {:trigger xs[k].next} :: 0 <= k < |xs| && k != i ==>
        xs[k].next == if k == i - 1 then After(xs, i) else After(xs, k)
    requires forall k {:trigger xs[k].prev} :: 0 <= k < |xs| && k != i ==>
        xs[k].prev == if k == i + 1 then Before(list, xs, i) else Before(list, xs, k)
    ensures Links(list, xs[..i] + xs[i + 1..])
  {
    var ws := xs[..i] + xs[i + 1..];
    CutNoDup(xs, i);
    hide NoDup;
    forall j | 0 <= j < |ws| ensures ws[j].next == After(ws, j) && ws[j].prev == Before(list, ws, j) {
      var k := if j < i then j else j + 1;
      assert ws[j] == xs[k];
    }
  }

  /** getTimeoutLocked. */
  method Get(free: List, ghost ys: seq<Node>) returns (t: Node)
    requires Links(free, ys)
    modifies free, ys`next, ys`prev
    ensures t.next == null && t.prev == Nil
    ensures ys == [] ==> fresh(t) && Links(free, [])
    ensures ys != [] ==> t == ys[0] && Links(free, ys[1..])
  {
    if free.head == null {
      t := new Node();
    } else {
      t := free.head;
      t.Remove(free, ys);
    }
  }

  /** One round of doExpired: the node is put back without being taken off the list that is called out, whose
      later nodes are still reached. */
  method CallOutNext(t: Node, ghost xs: seq<Node>, free: List, ghost ys: seq<Node>) returns (next: Node?)
    requires xs != [] && Chain(t, xs) && Links(free, ys) && NoDup(xs) && forall x :: x in xs ==> x !in ys
    modifies t, free, ys`prev
    ensures Chain(next, xs[1..]) && Links(free, [t] + ys)
    ensures t.status == Inactive && t.generation == old(t.generation) + 1
  {
    next := t.next;
    assert xs[0].next == After(xs, 0) && forall j :: 0 <= j < |xs| ==> xs[j] in xs;
    t.Put(free, ys);
    assert forall j :: 0 <= j < |xs[1..]| ==> xs[1..][j] == xs[j + 1] && xs[j + 1] != t;
  }

  // ---- The sweep of doTick

  /** The bucket and the expired list when the first `i` nodes have been looked at. */
  ghost function BucketAt(xs: seq<Node>, i: nat, due: set<Node>): seq<Node>
    requires i <= |xs|
  {
    Kept(xs[..i], due) + xs[i..]
  }

  ghost function ExpiredAt(xs: seq<Node>, i: nat, due: set<Node>, ys: seq<Node>): seq<Node>
    requires i <= |xs|
  {
    Taken(xs[..i], due) + ys
  }

  lemma SweepEnds(xs: seq<Node>, due: set<Node>, ys: seq<Node>)
    ensures BucketAt(xs, 0, due) == xs && ExpiredAt(xs, 0, due, ys) == ys
    ensures BucketAt(xs, |xs|, due) == Kept(xs, due) && ExpiredAt(xs, |xs|, due, ys) == Taken(xs, due) + ys
  {
    assert xs[..0] == [] && xs[..|xs|] == xs;
  }

  lemma SweepMembers(xs: seq<Node>, i: nat, due: set<Node>, ys: seq<Node>)
    requires i < |xs| && NoDup(xs) && forall j :: 0 <= j < |xs| ==> xs[j] !in ys
    ensures forall j :: 0 <= j < |BucketAt(xs, i, due)| ==>
              BucketAt(xs, i, due)[j] in xs && BucketAt(xs, i, due)[j] !in ExpiredAt(xs, i, due, ys)
    ensures forall j :: 0 <= j < |ExpiredAt(xs, i, due, ys)| ==>
              ExpiredAt(xs, i, due, ys)[j] in xs || ExpiredAt(xs, i, due, ys)[j] in ys
    ensures xs[i] in BucketAt(xs, i, due)
  {
    hide Kept, Taken;
    KeptTaken(xs[..i], due);
    var b := BucketAt(xs, i, due);
    var e := ExpiredAt(xs, i, due, ys);
    var k := |Kept(xs[..i], due)|;
    assert b[k] == xs[i];
    forall j | 0 <= j < |b| ensures b[j] in xs && b[j] !in e {
      assert b[j] == if j < k then Kept(xs[..i], due)[j] else xs[i + (j - k)];
    }
    forall j | 0 <= j < |e| ensures e[j] in xs || e[j] in ys {
      var t := |Taken(xs[..i], due)|;
      assert e[j] == if j < t then Taken(xs[..i], due)[j] else ys[j - t];
    }
  }

  lemma SweepAdvances(xs: seq<Node>, i: nat, due: set<Node>, ys: seq<Node>)
    requires i < |xs| && NoDup(BucketAt(xs, i, due))
    ensures BucketAt(xs, i + 1, due) ==
            if xs[i] in due then Without(BucketAt(xs, i, due), xs[i]) else BucketAt(xs, i, due)
    ensures ExpiredAt(xs, i + 1, due, ys) ==
            if xs[i] in due then [xs[i]] + ExpiredAt(xs, i, due, ys) else ExpiredAt(xs, i, due, ys)
  {
    hide Without, NoDup, Kept, Taken;
    KeptNext(xs, i, due);
    assert xs[i..] == [xs[i]] + xs[i + 1..];
    WithoutMiddle(Kept(xs[..i], due), xs[i], xs[i + 1..]);
    Regroup([xs[i]], Taken(xs[..i], due), ys);
  }

  lemma Regroup(a: seq<Node>, b: seq<Node>, c: seq<Node>)
    ensures (a + b) + c == a + (b + c) && [] + b == b
  {
  }

  /** The node behind the current one in the bucket. */
  lemma SweepNext(bucket: List, xs: seq<Node>, i: nat, due: set<Node>)
    requires i < |xs| && Links(bucket, BucketAt(xs, i, due))
    ensures xs[i].next == if i + 1 < |xs| then xs[i + 1] else null
  {
    var k := |Kept(xs[..i], due)|;
    assert BucketAt(xs, i, due)[k] == xs[i];
    Neighbours(bucket, BucketAt(xs, i, due), k);
  }

  /** Moves the nodes whose deadline has come from the bucket to the expired list. */
  method Sweep(bucket: List, ghost xs: seq<Node>, expired: List, ghost ys: seq<Node>, ticks: nat)
    requires bucket != expired && Links(bucket, xs) && Links(expired, ys) && forall j :: 0 <= j < |xs| ==> xs[j] !in ys
    modifies bucket, expired, xs`next, xs`prev, xs`status, ys`prev
    ensures var due := set x | x in xs && x.deadline <= ticks;
      && Links(bucket, Kept(xs, due)) && Links(expired, Taken(xs, due) + ys)
      && forall x :: x in xs ==> x.status == if x in due then Elapsed else old(x.status)
  {
    hide *;
    ghost var due := set x | x in xs && x.deadline <= ticks;
    ghost var i := 0;
    SweepEnds(xs, due, ys);
    assert NoDup(xs) && bucket.head == (if xs == [] then null else xs[0]) by { LinksHead(bucket, xs); }
    var timeout := bucket.head;
    while timeout != null
      invariant 0 <= i <= |xs| && timeout == (if i < |xs| then xs[i] else null)
      invariant Links(bucket, BucketAt(xs, i, due)) && Links(expired, ExpiredAt(xs, i, due, ys))
      invariant forall j :: 0 <= j < |xs| ==>
                  xs[j].status == if j < i && xs[j] in due then Elapsed else old(xs[j].status)
      decreases |xs| - i
    {
      SweepNext(bucket, xs, i, due);
      Distinct(xs, i);
      assert xs[i] in xs;
      var next := timeout.next;
      if timeout.deadline <= ticks {
        SweepMembers(xs, i, due, ys);
        LinksHead(bucket, BucketAt(xs, i, due));
        SweepAdvances(xs, i, due, ys);
        timeout.Expire(bucket, BucketAt(xs, i, due), expired, ExpiredAt(xs, i, due, ys));
      } else {
        LinksHead(bucket, BucketAt(xs, i, due));
        SweepAdvances(xs, i, due, ys);
      }
      i := i + 1;
      timeout := next;
    }
    assert i == |xs| && due == set x | x in xs && x.deadline <= ticks;
  }

  lemma LinksHead(list: List, xs: seq<Node>)
    requires Links(list, xs)
    ensures NoDup(xs) && list.head == if xs == [] then null else xs[0]
  {
  }
}
