/** The route tree, src/route/route.go. Items are numbered as they are made, the root first, and refer to their
    children by number. */
module Route {
  import opened Bytes
  import P = RouteParser

  /** What distinguishes a node from its siblings: its kind and, for constants, the text. */
  datatype Key = Key(nt: P.NodeType, value: seq<byte>)

  type Path = seq<Key>

  datatype Item = Item(node: P.Node, children: seq<nat>, apis: map<string, nat>)

  const STAR: string := "*"

  function KeyOf(n: P.Node): Key {
    Key(n.nt, if n.nt == P.ConstType then n.value else [])
  }

  predicate Matches(item: P.Node, n: P.Node) {
    if item.nt != n.nt then false
    else
      match item.nt
      case ConstType => item.value == n.value
      case _ => true
  }

  lemma MatchesByKey(a: P.Node, b: P.Node)
    ensures Matches(a, b) <==> KeyOf(a) == KeyOf(b)
  {
  }

  /** The order in which the children of an item are kept. */
  function Rank(nt: P.NodeType): nat {
    match nt
    case NumberType => 1
    case EnumType => 2
    case ConstType => 3
    case StringType => 4
    case SlashType => 5
  }

  // ---- The specification: a table from shape and method to id

  type Table = map<(Path, string), nat>

  function Shape(nodes: seq<P.Node>): (path: Path)
    ensures |path| == |nodes| && forall i :: 0 <= i < |path| ==> path[i] == KeyOf(nodes[i])
  {
    seq(|nodes|, i requires 0 <= i < |nodes| => KeyOf(nodes[i]))
  }

  /** removeSlash, without the slash at the front that it keeps. */
  function Segments(nodes: seq<P.Node>): seq<P.Node> {
    if nodes == [] then []
    else
      var n := nodes[|nodes| - 1];
      Segments(nodes[..|nodes| - 1]) + if n.nt != P.SlashType then [n] else []
  }

  /** A shape may be added with a method unless it has "*" or that method, or any method when adding "*". */
  ghost predicate Conflicts(t: Table, path: Path, verb: string) {
    || (path, STAR) in t || (path, verb) in t
    || (verb == STAR && exists other :: (path, other) in t)
  }

  // ---- The tree

  /** Tree invariants; `paths` gives each item's path from the root. */
  ghost predicate TreeOk(items: seq<Item>, paths: seq<Path>) {
    && |items| == |paths| > 0 && items[0].node.nt == P.SlashType && paths[0] == []
    && (forall i, j :: 0 <= i < j < |items| ==> paths[i] != paths[j])
    && (forall i, k :: 0 <= i < |items| && 0 <= k < |items[i].children| ==>
          ChildOk(items, paths, i, items[i].children[k]))
    && (forall c :: 0 < c < |items| ==> HasParent(items, paths, c))
    && (forall i :: 0 <= i < |items| ==> Ordered(items, i))
  }

  predicate ChildOk(items: seq<Item>, paths: seq<Path>, i: nat, c: nat)
    requires |items| == |paths| && i < |items|
  {
    i < c < |items| && paths[c] == paths[i] + [KeyOf(items[c].node)]
  }

  ghost predicate HasParent(items: seq<Item>, paths: seq<Path>, c: nat)
    requires |items| == |paths| && c < |items|
  {
    exists i :: 0 <= i < c && c in items[i].children && paths[c] == paths[i] + [KeyOf(items[c].node)]
  }

  /** Children are different items, kept in the order of their kinds. */
  predicate Ordered(items: seq<Item>, i: nat)
    requires i < |items|
  {
    forall k, l :: 0 <= k < l < |items[i].children| && items[i].children[k] < |items| && items[i].children[l] < |items|
      ==> items[i].children[k] != items[i].children[l]
          && Rank(items[items[i].children[k]].node.nt) <= Rank(items[items[i].children[l]].node.nt)
  }

  /** The table says what the items' methods say. */
  ghost predicate Tabled(items: seq<Item>, paths: seq<Path>, t: Table) {
    && |items| == |paths|
    && (forall i :: 0 <= i < |items| ==> Listed(items[i].apis, paths[i], t))
    && forall p, m :: (p, m) in t ==> Found(items, paths, p, m)
  }

  ghost predicate Listed(apis: map<string, nat>, path: Path, t: Table) {
    forall m :: m in apis ==> (path, m) in t && t[(path, m)] == apis[m] != 0
  }

  ghost predicate Found(items: seq<Item>, paths: seq<Path>, path: Path, verb: string)
    requires |items| == |paths|
  {
    exists i :: 0 <= i < |items| && paths[i] == path && verb in items[i].apis
  }

  /** Every prefix of an item's path is an item's path. */
  lemma {:induction false} PrefixHasItem(items: seq<Item>, paths: seq<Path>, c: nat, k: nat) returns (i: nat)
    requires TreeOk(items, paths) && c < |items| && k <= |paths[c]|
    ensures i < |items| && paths[i] == paths[c][..k]
  {
    if k == |paths[c]| {
      i := c;
      assert paths[c][..k] == paths[c];
    } else {
      assert HasParent(items, paths, c);
      var j :| 0 <= j < c && c in items[j].children && paths[c] == paths[j] + [KeyOf(items[c].node)];
      i := PrefixHasItem(items, paths, j, k);
      assert paths[c][..k] == paths[j][..k];
    }
  }

  /** The child of an item on the way to one further down. */
  lemma ChildTowards(items: seq<Item>, paths: seq<Path>, i: nat, c: nat) returns (l: nat)
    requires TreeOk(items, paths) && i < |items| && c < |items|
    requires |paths[c]| > |paths[i]| && paths[c][..|paths[i]|] == paths[i]
    ensures l < |items[i].children| && items[i].children[l] < |items|
    ensures KeyOf(items[items[i].children[l]].node) == paths[c][|paths[i]|]
  {
    hide KeyOf;
    var k := |paths[i]|;
    var d := PrefixHasItem(items, paths, c, k + 1);
    assert HasParent(items, paths, d);
    var j :| 0 <= j < d && d in items[j].children && paths[d] == paths[j] + [KeyOf(items[d].node)];
    assert paths[j] == paths[d][..k] == paths[i];
    assert j == i;
    l :| 0 <= l < |items[i].children| && items[i].children[l] == d;
    assert paths[d][k] == KeyOf(items[d].node);
  }

  /** If no child of an item matches, nothing stands below it under that key. */
  lemma NoSuchChild(items: seq<Item>, paths: seq<Path>, i: nat, n: P.Node, below: Path)
    requires |items| == |paths| && TreeOk(items, paths) && i < |items|
    requires forall k :: 0 <= k < |items[i].children| && items[i].children[k] < |items| ==>
        !Matches(items[items[i].children[k]].node, n)
    requires |below| > |paths[i]| && below[..|paths[i]|] == paths[i] && below[|paths[i]|] == KeyOf(n)
    ensures forall c :: 0 <= c < |items| ==> paths[c] != below
  {
    hide TreeOk, Matches, KeyOf;
    forall c | 0 <= c < |items| ensures paths[c] != below {
      if paths[c] == below {
        var l := ChildTowards(items, paths, i, c);
        MatchesByKey(items[items[i].children[l]].node, n);
      }
    }
  }

  /** Two children of one item never match the same nodes, so FindChild has no choice. */
  lemma SiblingsDiffer(items: seq<Item>, paths: seq<Path>, i: nat, k: nat, l: nat)
    requires TreeOk(items, paths) && i < |items| && k < l < |items[i].children|
    ensures items[i].children[k] < |items| && items[i].children[l] < |items|
    ensures !Matches(items[items[i].children[k]].node, items[items[i].children[l]].node)
  {
    var c, d := items[i].children[k], items[i].children[l];
    assert ChildOk(items, paths, i, c) && ChildOk(items, paths, i, d) && Ordered(items, i);
    assert paths[c] != paths[d];
    MatchesByKey(items[c].node, items[d].node);
  }

  // ---- Changes of the tree

  /** append and sort.Slice: the new child goes behind those of its kind or an earlier one. */
  function Insert(items: seq<Item>, children: seq<nat>, c: nat, rank: nat): seq<nat> {
    if children == [] then [c]
    else
      var last := children[|children| - 1];
      if last < |items| && Rank(items[last].node.nt) > rank
      then Insert(items, children[..|children| - 1], c, rank) + [last]
      else children + [c]
  }

  lemma {:induction false} InsertMembers(items: seq<Item>, children: seq<nat>, c: nat, rank: nat)
    ensures var r := Insert(items, children, c, rank);
      c in r && (forall x :: x in children ==> x in r) && forall k :: 0 <= k < |r| ==> r[k] == c || r[k] in children
  {
    if children != [] {
      var n := |children| - 1;
      InsertMembers(items, children[..n], c, rank);
      assert children == children[..n] + [children[n]];
    }
  }

  predicate Ascending(items: seq<Item>, children: seq<nat>) {
    forall k, l :: 0 <= k < l < |children| && children[k] < |items| && children[l] < |items|
      ==> children[k] != children[l] && Rank(items[children[k]].node.nt) <= Rank(items[children[l]].node.nt)
  }

  /** Inserting a number that is not an item's yet, for the item that will get it. */
  lemma {:induction false} InsertAscends(items: seq<Item>, children: seq<nat>, item: Item)
    requires Ascending(items, children) && forall k :: 0 <= k < |children| ==> children[k] < |items|
    ensures Ascending(items + [item], Insert(items, children, |items|, Rank(item.node.nt)))
  {
    var all, added, rank := items + [item], |items|, Rank(item.node.nt);
    if children != [] {
      var n := |children| - 1;
      var last := children[n];
      if Rank(items[last].node.nt) > rank {
        InsertAscends(items, children[..n], item);
        InsertMembers(items, children[..n], added, rank);
        var r := Insert(items, children[..n], added, rank);
        hide Insert;
        forall k | 0 <= k < |r|
          ensures r[k] < |all| && r[k] != last && Rank(all[r[k]].node.nt) <= Rank(items[last].node.nt)
        {
          if r[k] != added { var j :| 0 <= j < n && children[j] == r[k]; }
        }
        AppendAscends(all, r, last);
      } else {
        AppendAscends(all, children, added);
      }
    }
  }

  lemma AppendAscends(items: seq<Item>, children: seq<nat>, c: nat)
    requires Ascending(items, children)
    requires forall k :: 0 <= k < |children| && children[k] < |items| && c < |items|
               ==> children[k] != c && Rank(items[children[k]].node.nt) <= Rank(items[c].node.nt)
    ensures Ascending(items, children + [c])
  {
  }

  /** The items after a new one, for `n`, has been made a child of `parent`. */
  function Grown(items: seq<Item>, parent: nat, n: P.Node): seq<Item>
    requires parent < |items|
  {
    var p := items[parent];
    items[parent := p.(children := Insert(items, p.children, |items|, Rank(n.nt)))] + [Item(n, [], map[])]
  }

  lemma GrownOk(items: seq<Item>, paths: seq<Path>, parent: nat, n: P.Node)
    requires TreeOk(items, paths) && parent < |items|
    requires forall i :: 0 <= i < |paths| ==> paths[i] != paths[parent] + [KeyOf(n)]
    ensures TreeOk(Grown(items, parent, n), paths + [paths[parent] + [KeyOf(n)]])
  {
    var items', paths' := Grown(items, parent, n), paths + [paths[parent] + [KeyOf(n)]];
    var c := |items|;
    var before := items[parent].children;
    InsertMembers(items, before, c, Rank(n.nt));
    hide Insert;
    forall i, k | 0 <= i < |items'| && 0 <= k < |items'[i].children|
      ensures ChildOk(items', paths', i, items'[i].children[k])
    {
      var d := items'[i].children[k];
      if i == parent {
        if d != c {
          var l :| 0 <= l < |before| && before[l] == d;
          assert ChildOk(items, paths, i, before[l]);
        }
      } else {
        assert ChildOk(items, paths, i, items[i].children[k]);
      }
    }
    forall d | 0 < d < |items'| ensures HasParent(items', paths', d) {
      if d == c {
        assert c in items'[parent].children;
      } else {
        assert HasParent(items, paths, d);
        var i :| 0 <= i < d && d in items[i].children && paths[d] == paths[i] + [KeyOf(items[d].node)];
        assert d in items'[i].children;
      }
    }
    forall i | 0 <= i < |items'| ensures Ordered(items', i) { GrownOrdered(items, paths, parent, n, i); }
  }

  lemma GrownOrdered(items: seq<Item>, paths: seq<Path>, parent: nat, n: P.Node, i: nat)
    requires TreeOk(items, paths) && parent < |items| && i <= |items|
    ensures Ordered(Grown(items, parent, n), i)
  {
    var items' := Grown(items, parent, n);
    var added := Item(n, [], map[]);
    if i < |items| {
      assert Ordered(items, i);
      forall k | 0 <= k < |items[i].children| ensures items[i].children[k] < |items| {
        assert ChildOk(items, paths, i, items[i].children[k]);
      }
      if i == parent {
        assert Ascending(items, items[i].children);
        InsertAscends(items, items[i].children, added);
        assert forall c :: 0 <= c < |items'| ==> items'[c].node == (items + [added])[c].node;
      }
    }
  }

  lemma GrownTabled(items: seq<Item>, paths: seq<Path>, t: Table, parent: nat, n: P.Node, path: Path)
    requires Tabled(items, paths, t) && parent < |items|
    ensures Tabled(Grown(items, parent, n), paths + [path], t)
  {
    hide Insert, Listed;
    var items', paths' := Grown(items, parent, n), paths + [path];
    assert Listed(map[], path, t) by { NoneListed(path, t); }
    forall p, m | (p, m) in t ensures Found(items', paths', p, m) {
      assert Found(items, paths, p, m);
      var i :| 0 <= i < |items| && paths[i] == p && m in items[i].apis;
      assert paths'[i] == p && m in items'[i].apis;
    }
  }

  lemma NoneListed(path: Path, t: Table)
    ensures Listed(map[], path, t)
  {
  }

  /** Entering an id at an item. */
  function Entered(items: seq<Item>, i: nat, verb: string, id: nat): seq<Item>
    requires i < |items|
  {
    items[i := items[i].(apis := items[i].apis[verb := id])]
  }

  lemma EnteredOk(items: seq<Item>, paths: seq<Path>, t: Table, i: nat, verb: string, id: nat)
    requires TreeOk(items, paths) && Tabled(items, paths, t) && i < |items| && id != 0
    ensures TreeOk(Entered(items, i, verb, id), paths)
        && Tabled(Entered(items, i, verb, id), paths, t[(paths[i], verb) := id])
  {
    var items' := Entered(items, i, verb, id);
    forall j, k | 0 <= j < |items'| && 0 <= k < |items'[j].children|
      ensures ChildOk(items', paths, j, items'[j].children[k])
    {
      assert ChildOk(items, paths, j, items[j].children[k]);
    }
    forall c | 0 < c < |items'| ensures HasParent(items', paths, c) {
      assert HasParent(items, paths, c);
      var j :| 0 <= j < c && c in items[j].children && paths[c] == paths[j] + [KeyOf(items[c].node)];
      assert c in items'[j].children;
    }
    forall j | 0 <= j < |items'| ensures Ordered(items', j) { assert Ordered(items, j); }
    EnteredTabled(items, paths, t, i, verb, id);
  }

  lemma EnteredTabled(items: seq<Item>, paths: seq<Path>, t: Table, i: nat, verb: string, id: nat)
    requires TreeOk(items, paths) && Tabled(items, paths, t) && i < |items| && id != 0
    ensures Tabled(Entered(items, i, verb, id), paths, t[(paths[i], verb) := id])
  {
    var items', t' := Entered(items, i, verb, id), t[(paths[i], verb) := id];
    forall j | 0 <= j < |items'| ensures Listed(items'[j].apis, paths[j], t') {
      assert Listed(items[j].apis, paths[j], t);
    }
    forall p, m | (p, m) in t' ensures Found(items', paths, p, m) {
      if (p, m) == (paths[i], verb) {
        assert paths[i] == p && m in items'[i].apis;
      } else {
        assert Found(items, paths, p, m);
        var j :| 0 <= j < |items| && paths[j] == p && m in items[j].apis;
        assert paths[j] == p && m in items'[j].apis;
      }
    }
  }

  // ---- The route

  class Route {
    var items: seq<Item>
    /** History: the items' paths, and the table the tree stands for. */
    ghost var paths: seq<Path>
    ghost var table: Table

    ghost predicate Valid()
      reads this
    {
      TreeOk(items, paths) && Tabled(items, paths, table)
    }

    constructor ()
      ensures Valid() && table == map[]
    {
      items, paths, table := [Item(P.SLASH_NODE, [], map[])], [[]], map[];
    }

    /** The loop over an item's children. */
    method FindChild(parent: nat, n: P.Node) returns (child: Option<nat>)
      requires TreeOk(items, paths) && parent < |items|
      ensures child.Some? ==> child.value < |items| && paths[child.value] == paths[parent] + [KeyOf(n)]
      ensures child.None? ==> forall k :: 0 <= k < |items[parent].children| && items[parent].children[k] < |items|
                                ==> !Matches(items[items[parent].children[k]].node, n)
    {
      hide Matches, KeyOf;
      var k := 0;
      while k < |items[parent].children|
        invariant 0 <= k <= |items[parent].children|
        invariant forall l :: 0 <= l < k && items[parent].children[l] < |items| ==>
            !Matches(items[items[parent].children[l]].node, n)
      {
        var c := items[parent].children[k];
        assert ChildOk(items, paths, parent, c);
        if Matches(items[c].node, n) {
          MatchesByKey(items[c].node, n);
          return Some(c);
        }
        k := k + 1;
      }
      return None;
    }

    /** addChildren: a chain of new items below `start`, and the id at its end. */
    method AddChildren(start: nat, nodes: seq<P.Node>, verb: string, id: nat)
      requires Valid() && start < |items| && nodes != [] && id != 0
      requires forall i :: 0 <= i < |paths| ==> paths[i] != paths[start] + [KeyOf(nodes[0])]
      modifies this
      ensures Valid() && table == old(table)[(old(paths)[start] + Shape(nodes), verb) := id]
    {
      var parent: nat := start;
      var k := 0;
      ghost var root := paths[start];
      while k < |nodes|
        invariant 0 <= k <= |nodes| && TreeOk(items, paths) && Tabled(items, paths, table) && table == old(table)
        invariant parent < |items| && paths[parent] == root + Shape(nodes)[..k]
        invariant k < |nodes| ==> forall i :: 0 <= i < |paths| ==> paths[i] != paths[parent] + [KeyOf(nodes[k])]
      {
        var n := nodes[k];
        ghost var path := paths[parent] + [KeyOf(n)];
        GrownOk(items, paths, parent, n);
        GrownTabled(items, paths, table, parent, n, path);
        assert Grown(items, parent, n)[|items|].children == [];
        assert |items| == |paths|;
        items, paths, parent := Grown(items, parent, n), paths + [path], |items|;
        k := k + 1;
        if k < |nodes| {
          NoSuchChild(items, paths, parent, nodes[k], path + [KeyOf(nodes[k])]);
        }
      }
      assert Shape(nodes)[..k] == Shape(nodes);
      hide TreeOk, Tabled, Entered, Shape;
      EnteredOk(items, paths, table, parent, verb, id);
      items := Entered(items, parent, verb, id);
      table := table[(paths[parent], verb) := id];
    }

    /** The loop of Add: down the tree as far as the pattern's nodes match. */
    method Descend(nodes: seq<P.Node>) returns (parent: nat, matchedIdx: nat)
      requires Valid() && nodes != [] && nodes[0].nt == P.SlashType
      ensures parent < |items| && parent < |paths| && matchedIdx < |nodes|
      ensures paths[parent] == Shape(nodes[1..])[..matchedIdx]
      ensures matchedIdx + 1 < |nodes| ==> forall i :: 0 <= i < |paths| ==>
                paths[i] != Shape(nodes[1..]) && paths[i] != paths[parent] + [KeyOf(nodes[matchedIdx + 1])]
    {
      hide Tabled, Matches, KeyOf;
      ghost var path := Shape(nodes[1..]);
      parent, matchedIdx := 0, 0;
      var idx := 0;
      while idx < |nodes|
        invariant 0 <= idx <= |nodes| && parent < |items| && matchedIdx == if idx == 0 then 0 else idx - 1
        invariant paths[parent] == path[..matchedIdx]
      {
        if idx > 0 {
          var child := FindChild(parent, nodes[idx]);
          assert path[..idx] == path[..idx - 1] + [KeyOf(nodes[idx])];
          if child.None? {
            NoSuchChild(items, paths, parent, nodes[idx], path);
            NoSuchChild(items, paths, parent, nodes[idx], path[..idx]);
            return;
          }
          parent := child.value;
          matchedIdx := idx;
        }
        idx := idx + 1;
      }
    }

    /** The end of Add at an item that stands for the whole pattern. */
    method Enter(parent: nat, verb: string, id: nat) returns (ok: bool)
      requires Valid() && id != 0 && parent < |items| && parent < |paths|
      modifies this
      ensures Valid() && paths == old(paths) && ok == !Conflicts(old(table), paths[parent], verb)
      ensures table == if ok then old(table)[(paths[parent], verb) := id] else old(table)
      ensures !ok ==> items == old(items)
    {
      var apis := items[parent].apis;
      ItemConflicts(items, paths, table, parent, verb);
      if verb == STAR && |apis| > 0 {
        return false;
      }
      if STAR in apis || verb in apis {
        return false;
      }
      EnteredOk(items, paths, table, parent, verb, id);
      hide TreeOk, Tabled, Entered;
      items := Entered(items, parent, verb, id);
      table := table[(paths[parent], verb) := id];
      return true;
    }

    /** Add: the pattern is parsed and the id entered, or refused with nothing changed. */
    method Add(pattern: seq<byte>, verb: string, id: nat) returns (ok: bool)
      requires Valid() && id != 0
      modifies this
      ensures Valid()
      ensures (table, ok) == Added(old(table), pattern, verb, id)
      ensures !ok ==> items == old(items)
    {
      hide TreeOk, Tabled, Conflicts;
      var p := new P.Parser(pattern);
      var r := p.Parse();
      if r.SyntaxError? {
        return false;
      }
      ParsedStart(pattern);
      var nodes := RemoveSlash(r.nodes);
      ghost var path := Shape(Segments(r.nodes));
      assert nodes[1..] == Segments(r.nodes);
      var parent, matchedIdx := Descend(nodes);
      if matchedIdx == |nodes| - 1 {
        assert path[..matchedIdx] == path;
        ok := Enter(parent, verb, id);
      } else {
        var rest := nodes[matchedIdx + 1..];
        assert path == path[..matchedIdx] + path[matchedIdx..];
        assert Shape(rest) == path[matchedIdx..];
        assert !Conflicts(table, path, verb) by { NewPath(items, paths, table, path, verb); }
        AddChildren(parent, rest, verb, id);
        return true;
      }
    }
  }

  /** What Add does to the table. */
  ghost function Added(t: Table, pattern: seq<byte>, verb: string, id: nat): (Table, bool) {
    match P.Parsed(pattern)
    case SyntaxError => (t, false)
    case Nodes(nodes) =>
      var path := Shape(Segments(nodes));
      if Conflicts(t, path, verb) then (t, false) else (t[(path, verb) := id], true)
  }

  method RemoveSlash(nodes: seq<P.Node>) returns (value: seq<P.Node>)
    ensures value == (if nodes != [] && nodes[0].nt == P.SlashType then [nodes[0]] else []) + Segments(nodes)
  {
    value := [];
    var idx := 0;
    while idx < |nodes|
      invariant 0 <= idx <= |nodes|
      invariant value == (if idx > 0 && nodes[0].nt == P.SlashType then [nodes[0]] else []) + Segments(nodes[..idx])
    {
      var node := nodes[idx];
      assert nodes[..idx + 1][..idx] == nodes[..idx];
      if node.nt != P.SlashType || idx == 0 {
        value := value + [node];
      }
      idx := idx + 1;
    }
    assert nodes[..idx] == nodes;
  }

  lemma ItemConflicts(items: seq<Item>, paths: seq<Path>, t: Table, i: nat, verb: string)
    requires TreeOk(items, paths) && Tabled(items, paths, t) && i < |items|
    ensures Conflicts(t, paths[i], verb) <==>
      (verb == STAR && |items[i].apis| > 0) || STAR in items[i].apis || verb in items[i].apis
  {
    var apis := items[i].apis;
    assert Listed(apis, paths[i], t);
    forall m ensures (paths[i], m) in t <==> m in apis {
      if (paths[i], m) in t { assert Found(items, paths, paths[i], m); }
    }
    if |apis| > 0 {
      var m :| m in apis;
      assert (paths[i], m) in t;
    }
  }

  lemma NoItemNoConflict(items: seq<Item>, paths: seq<Path>, t: Table, path: Path, verb: string)
    requires Tabled(items, paths, t) && forall i :: 0 <= i < |items| ==> paths[i] != path
    ensures !Conflicts(t, path, verb)
  {
    forall m ensures (path, m) !in t {
      assert (path, m) in t ==> Found(items, paths, path, m);
    }
  }

  lemma NewPath(items: seq<Item>, paths: seq<Path>, t: Table, path: Path, verb: string)
    requires Tabled(items, paths, t) && forall i :: 0 <= i < |paths| ==> paths[i] != path
    ensures !Conflicts(t, path, verb)
  {
    NoItemNoConflict(items, paths, t, path, verb);
  }

  // ---- What the parser returns starts with a slash

  predicate Started(m: P.Machine) {
    if m.prev == P.Unknown then m.nodes == [] else m.nodes != [] && m.nodes[0].nt == P.SlashType
  }

  lemma TurnStarts(m: P.Machine, token: P.Token, t: nat, text: seq<byte>)
    requires Started(m) && token != P.Unknown
    ensures match P.TurnAt(m, token, t, text)
            case On(m') => Started(m')
            case Done(Nodes(nodes)) => nodes != [] && nodes[0].nt == P.SlashType
            case Done(SyntaxError) => true
  {
  }

  lemma {:induction false} RunStarts(input: seq<byte>, m: P.Machine)
    requires m.sp <= m.bp <= |input| && Started(m)
    ensures match P.Run(input, m)
            case Nodes(nodes) => nodes != [] && nodes[0].nt == P.SlashType
            case SyntaxError => true
    decreases |input| - m.bp
  {
    hide P.TurnAt, P.Kind, P.Stop;
    var t := P.Stop(input, m.bp);
    TurnStarts(m, P.TokenAt(input, t), t, input[m.sp..t]);
    match P.Turn(input, m)
    case On(m') => if m.bp < m'.bp <= |input| && m'.sp <= m'.bp { RunStarts(input, m'); }
    case Done(_) =>
  }

  lemma ParsedStart(pattern: seq<byte>)
    ensures match P.Parsed(pattern)
            case Nodes(nodes) => nodes != [] && nodes[0].nt == P.SlashType
            case SyntaxError => true
  {
    RunStarts(P.Stripped(pattern), P.START);
  }

  // ---- Sequences of additions

  datatype Api = Api(pattern: seq<byte>, verb: string, id: nat)

  /** The table after a sequence of additions to an empty route. */
  ghost function Built(apis: seq<Api>): Table {
    if apis == [] then map[]
    else
      var a := apis[|apis| - 1];
      Added(Built(apis[..|apis| - 1]), a.pattern, a.verb, a.id).0
  }

  /** The path that a pattern leads to. */
  function PathOf(pattern: seq<byte>): Option<Path> {
    match P.Parsed(pattern)
    case Nodes(nodes) => Some(Shape(Segments(nodes)))
    case SyntaxError => None
  }

  /** "*" stands alone at its path, and every id in the table is one that was added there for that method. */
  lemma {:induction false} BuiltTable(apis: seq<Api>)
    ensures var t := Built(apis);
      && (forall p, m :: (p, STAR) in t && m != STAR ==> (p, m) !in t)
      && (forall p, m :: (p, m) in t ==>
            exists i ::
              0 <= i < |apis| && PathOf(apis[i].pattern) == Some(p) && apis[i].verb == m && apis[i].id == t[(p, m)])
  {
    if apis != [] {
      var n := |apis| - 1;
      var a := apis[n];
      BuiltTable(apis[..n]);
      var t, t' := Built(apis[..n]), Built(apis);
      forall p, m | (p, m) in t'
        ensures exists i ::
                  0 <= i < |apis| && PathOf(apis[i].pattern) == Some(p) && apis[i].verb == m && apis[i].id == t'[(p, m)]
      {
        if (p, m) in t && t[(p, m)] == t'[(p, m)] {
          var i :| 0 <= i < n && PathOf(apis[..n][i].pattern) == Some(p) && apis[..n][i].verb == m
              && apis[..n][i].id == t[(p, m)];
          assert apis[i] == apis[..n][i];
        } else {
          assert PathOf(apis[n].pattern) == Some(p) && apis[n].verb == m && apis[n].id == t'[(p, m)];
        }
      }
    }
  }

  /** The first id for a path and method stays: later additions never change it. */
  lemma {:induction false} FirstComesFirst(apis: seq<Api>, k: nat, p: Path, m: string)
    requires k <= |apis| && (p, m) in Built(apis[..k])
    ensures (p, m) in Built(apis) && Built(apis)[(p, m)] == Built(apis[..k])[(p, m)]
  {
    hide Added;
    if k == |apis| {
      assert apis[..k] == apis;
    } else {
      var n := |apis| - 1;
      assert apis[..n][..k] == apis[..k];
      FirstComesFirst(apis[..n], k, p, m);
      AddedKeeps(Built(apis[..n]), apis[n], p, m);
    }
  }

  lemma AddedKeeps(t: Table, a: Api, p: Path, m: string)
    requires (p, m) in t
    ensures (p, m) in Added(t, a.pattern, a.verb, a.id).0 && Added(t, a.pattern, a.verb, a.id).0[(p, m)] == t[(p, m)]
  {
  }

  // ---- Which additions get in

  predicate At(a: Api, p: Path) {
    PathOf(a.pattern) == Some(p)
  }

  /** Addition `i` gets in: its pattern is well-formed, and of the additions before it at the same path that got in none
      has "*" or its method, and none at all is there when its own method is "*". */
  ghost predicate GotIn(apis: seq<Api>, i: nat)
    requires i < |apis|
  {
    && PathOf(apis[i].pattern).Some?
    && forall j: nat :: j < i && PathOf(apis[j].pattern) == PathOf(apis[i].pattern) && GotIn(apis, j) ==>
         apis[j].verb != STAR && apis[j].verb != apis[i].verb && apis[i].verb != STAR
  }

  lemma {:induction false} GotInBefore(apis: seq<Api>, n: nat, i: nat)
    requires i < n <= |apis|
    ensures GotIn(apis[..n], i) <==> GotIn(apis, i)
  {
    forall j: nat | j < i ensures apis[..n][j] == apis[j] && (GotIn(apis[..n], j) <==> GotIn(apis, j)) {
      GotInBefore(apis, n, j);
    }
  }

  /** Some addition got in at this path with this method. */
  ghost predicate Taken(apis: seq<Api>, p: Path, m: string) {
    exists i: nat :: i < |apis| && GotIn(apis, i) && At(apis[i], p) && apis[i].verb == m
  }

  lemma {:induction false} TakenGrows(apis: seq<Api>, p: Path, m: string)
    requires apis != []
    ensures var n := |apis| - 1;
            Taken(apis, p, m) <==> Taken(apis[..n], p, m) || (GotIn(apis, n) && At(apis[n], p) && apis[n].verb == m)
  {
    hide GotIn, At;
    var n := |apis| - 1;
    forall i: nat | i < n ensures apis[..n][i] == apis[i] && (GotIn(apis[..n], i) <==> GotIn(apis, i)) {
      GotInBefore(apis, n, i);
    }
    if Taken(apis[..n], p, m) {
      var i: nat :| i < n && GotIn(apis[..n], i) && At(apis[..n][i], p) && apis[..n][i].verb == m;
      assert GotIn(apis, i) && At(apis[i], p);
    }
    if Taken(apis, p, m) {
      var i: nat :| i < |apis| && GotIn(apis, i) && At(apis[i], p) && apis[i].verb == m;
      if i < n { assert GotIn(apis[..n], i) && At(apis[..n][i], p); }
    }
  }

  /** The last addition gets in exactly when nothing that is there conflicts with it. */
  lemma {:induction false} LastGotIn(apis: seq<Api>, p: Path)
    requires apis != [] && At(apis[|apis| - 1], p)
    ensures var n := |apis| - 1; var v := apis[n].verb; var past := apis[..n];
            GotIn(apis, n) <==>
              !Taken(past, p, STAR) && !Taken(past, p, v) && (v == STAR ==> forall m :: !Taken(past, p, m))
  {
    var n := |apis| - 1;
    var v, past := apis[n].verb, apis[..n];
    forall j: nat | j < n ensures past[j] == apis[j] && (GotIn(past, j) <==> GotIn(apis, j)) {
      GotInBefore(apis, n, j);
    }
    if GotIn(apis, n) {
      forall m | Taken(past, p, m) ensures m != STAR && m != v && v != STAR {
        var j: nat :| j < n && GotIn(past, j) && At(past[j], p) && past[j].verb == m;
        assert GotIn(apis, j);
      }
    } else {
      var j: nat :| j < n && PathOf(apis[j].pattern) == PathOf(apis[n].pattern) && GotIn(apis, j)
                    && (apis[j].verb == STAR || apis[j].verb == v || v == STAR);
      assert GotIn(past, j) && At(past[j], p);
      assert Taken(past, p, apis[j].verb);
    }
  }

  /** What one more addition does, in terms of those that got in. */
  lemma {:induction false} OneMoreBuilt(apis: seq<Api>)
    requires apis != []
    requires forall p, m :: (p, m) in Built(apis[..|apis| - 1]) <==> Taken(apis[..|apis| - 1], p, m)
    ensures Added(Built(apis[..|apis| - 1]), apis[|apis| - 1].pattern, apis[|apis| - 1].verb, apis[|apis| - 1].id).1
       <==> GotIn(apis, |apis| - 1)
  {
    hide Built, Taken;
    var n := |apis| - 1;
    if PathOf(apis[n].pattern).Some? {
      var p := PathOf(apis[n].pattern).value;
      LastGotIn(apis, p);
      var t, v := Built(apis[..n]), apis[n].verb;
      forall m ensures (p, m) in t <==> Taken(apis[..n], p, m) {}
      assert Added(t, apis[n].pattern, v, apis[n].id).1 <==> !Conflicts(t, p, v);
      hide GotIn, Added;
      assert (exists m :: (p, m) in t) <==> exists m :: Taken(apis[..n], p, m);
    }
  }

  lemma AddedIs(t: Table, a: Api)
    ensures var (t', ok) := Added(t, a.pattern, a.verb, a.id);
            if ok then PathOf(a.pattern).Some? && t' == t[(PathOf(a.pattern).value, a.verb) := a.id] else t' == t
  {
  }

  /** The table after any additions holds exactly those that got in, each with its id; and the next one is accepted
      exactly when it gets in. */
  lemma {:induction false} BuiltExactly(apis: seq<Api>)
    ensures forall p, m :: (p, m) in Built(apis) <==> Taken(apis, p, m)
    ensures apis != [] ==>
              (Added(Built(apis[..|apis| - 1]), apis[|apis| - 1].pattern, apis[|apis| - 1].verb, apis[|apis| - 1].id).1
               <==> GotIn(apis, |apis| - 1))
  {
    hide GotIn, Taken, PathOf;
    if apis == [] {
      assert forall p, m :: !Taken(apis, p, m) by { NothingTaken(apis); }
    } else {
      var n := |apis| - 1;
      BuiltExactly(apis[..n]);
      OneMoreBuilt(apis);
      AddedIs(Built(apis[..n]), apis[n]);
      hide Added;
      forall p, m ensures (p, m) in Built(apis) <==> Taken(apis, p, m) { TakenGrows(apis, p, m); }
    }
  }

  lemma NothingTaken(apis: seq<Api>)
    requires apis == []
    ensures forall p, m :: !Taken(apis, p, m)
  {
  }

  /** An addition that got in is found with its own id. */
  lemma {:induction false} GotInStays(apis: seq<Api>, i: nat, p: Path)
    requires i < |apis| && GotIn(apis, i) && At(apis[i], p)
    ensures (p, apis[i].verb) in Built(apis) && Built(apis)[(p, apis[i].verb)] == apis[i].id
  {
    hide GotIn, Added, PathOf;
    var first := apis[..i + 1];
    assert first[..i + 1 - 1] == apis[..i] && first[i] == apis[i] && |first| - 1 == i;
    GotInBefore(apis, i + 1, i);
    BuiltExactly(first);
    AddedIs(Built(first[..i]), first[i]);
    FirstComesFirst(apis, i + 1, p, apis[i].verb);
  }

  /** Without "*" every path and method ever added is in the table, with the id of the first such addition. */
  lemma {:induction false} FirstAdditions(apis: seq<Api>, i: nat, p: Path)
    requires forall j: nat :: j < |apis| ==> apis[j].verb != STAR
    requires i < |apis| && At(apis[i], p)
    requires forall j: nat :: j < i && At(apis[j], p) ==> apis[j].verb != apis[i].verb
    ensures GotIn(apis, i)
    ensures (p, apis[i].verb) in Built(apis) && Built(apis)[(p, apis[i].verb)] == apis[i].id
  {
    hide Built, PathOf;
    GotInStays(apis, i, p);
  }
}
