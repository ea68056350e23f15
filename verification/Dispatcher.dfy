/** The dispatcher's bind table, src/proxy/dispatcher_*.go: one goroutine handles the events and replaces the table;
    requests read whichever table they find. Ids are non-zero. */
module Dispatcher {
  import opened Bytes

  datatype Status = Down | Up | Unknown

  /** A server's registration; `checked` says that it has a health check. */
  datatype Server = Server(id: nat, checked: bool)

  // ---- Values of the tables

  datatype Entry = Entry(svrID: nat, status: Status)

  datatype Bound = Bound(servers: seq<Entry>, actives: seq<Server>)

  datatype Tables = Tables(servers: map<nat, Server>, clusters: set<nat>, binds: map<nat, Bound>)

  function KeepEntries(es: seq<Entry>, id: nat): seq<Entry> {
    if es == [] then []
    else KeepEntries(es[..|es| - 1], id) + if es[|es| - 1].svrID == id then [] else [es[|es| - 1]]
  }

  function KeepServers(ss: seq<Server>, id: nat): seq<Server> {
    if ss == [] then []
    else KeepServers(ss[..|ss| - 1], id) + if ss[|ss| - 1].id == id then [] else [ss[|ss| - 1]]
  }

  function Without(b: Bound, id: nat): Bound {
    Bound(KeepEntries(b.servers, id), KeepServers(b.actives, id))
  }

  /** copyBinds: a zero cluster stands for all of them. */
  function Copied(binds: map<nat, Bound>, clusterID: nat, serverID: nat): map<nat, Bound> {
    map k | k in binds :: if clusterID == 0 || clusterID == k then Without(binds[k], serverID) else binds[k]
  }

  function SetEntries(es: seq<Entry>, id: nat, st: Status): (r: seq<Entry>)
    ensures |r| == |es|
  {
    seq(|es|, i requires 0 <= i < |es| => if es[i].svrID == id then Entry(id, st) else es[i])
  }

  predicate HasBind(b: Bound, id: nat) {
    exists i :: 0 <= i < |b.servers| && b.servers[i].svrID == id
  }

  function SetStatus(b: Bound, meta: Server, st: Status): Bound {
    if !HasBind(b, meta.id) then b
    else Bound(SetEntries(b.servers, meta.id, st),
               if st == Up then b.actives + [meta] else KeepServers(b.actives, meta.id))
  }

  /** The actives that stay when a server becomes `st`. */
  function Filtered(ss: seq<Server>, id: nat, st: Status): seq<Server> {
    if ss == [] then []
    else
      var last := ss[|ss| - 1];
      Filtered(ss[..|ss| - 1], id, st) + if last.id != id || st == Up then [last] else []
  }

  lemma {:induction false} FilteredKeeps(ss: seq<Server>, id: nat, st: Status)
    ensures Filtered(ss, id, st) == if st == Up then ss else KeepServers(ss, id)
  {
    if ss != [] { FilteredKeeps(ss[..|ss| - 1], id, st); }
  }

  lemma FilteredAdded(ss: seq<Server>, meta: Server, st: Status)
    ensures Filtered(ss + [meta], meta.id, st) == if st == Up then ss + [meta] else KeepServers(ss, meta.id)
  {
    FilteredKeeps(ss + [meta], meta.id, st);
    assert (ss + [meta])[..|ss|] == ss;
  }

  // ---- The objects

  class BindInfo {
    var svrID: nat
    var status: Status

    constructor (svrID: nat, status: Status)
      ensures this.svrID == svrID && this.status == status
    {
      this.svrID, this.status := svrID, status;
    }
  }

  class Binds {
    var servers: seq<BindInfo>
    var actives: seq<Server>

    constructor ()
      ensures servers == [] && actives == []
    {
      servers, actives := [], [];
    }
  }

  /** The object `b` holds the value `v`. */
  ghost predicate Shows(b: Binds, v: Bound)
    reads b, b.servers
  {
    b.actives == v.actives && ShowsEntries(b.servers, v.servers)
  }

  ghost function Objects(m: map<nat, Binds>): set<object>
    reads m.Values
  {
    m.Values + set k, i | k in m && 0 <= i < |m[k].servers| :: m[k].servers[i]
  }

  ghost predicate ShowsAll(m: map<nat, Binds>, v: map<nat, Bound>)
    reads m.Values, Objects(m)
  {
    m.Keys == v.Keys && forall k :: k in m ==> Shows(m[k], v[k])
  }

  ghost predicate ShowsEntries(infos: seq<BindInfo>, es: seq<Entry>)
    reads infos
  {
    |infos| == |es| && forall i :: 0 <= i < |es| ==> infos[i].svrID == es[i].svrID && infos[i].status == es[i].status
  }

  method CopyServers(infos: seq<BindInfo>, ghost es: seq<Entry>, drop: bool, serverID: nat)
    returns (copy: seq<BindInfo>)
    requires ShowsEntries(infos, es)
    ensures forall i :: 0 <= i < |copy| ==> fresh(copy[i])
    ensures ShowsEntries(copy, if drop then KeepEntries(es, serverID) else es)
  {
    copy := [];
    var i := 0;
    while i < |infos|
      invariant 0 <= i <= |infos|
      invariant forall j :: 0 <= j < |copy| ==> fresh(copy[j])
      invariant ShowsEntries(copy, if drop then KeepEntries(es[..i], serverID) else es[..i])
    {
      var info := infos[i];
      assert es[..i + 1][..i] == es[..i];
      if info.svrID != serverID || !drop {
        var n := new BindInfo(info.svrID, info.status);
        copy := copy + [n];
      }
      i := i + 1;
    }
    assert es[..i] == es;
  }

  method CopyActives(actives: seq<Server>, drop: bool, serverID: nat) returns (copy: seq<Server>)
    ensures copy == if drop then KeepServers(actives, serverID) else actives
  {
    copy := [];
    var i := 0;
    while i < |actives|
      invariant 0 <= i <= |actives|
      invariant copy == if drop then KeepServers(actives[..i], serverID) else actives[..i]
    {
      var info := actives[i];
      assert actives[..i + 1][..i] == actives[..i];
      if info.id != serverID || !drop {
        copy := copy + [info];
      }
      i := i + 1;
    }
    assert actives[..i] == actives;
  }

  method CopyOne(b: Binds, ghost v: Bound, drop: bool, serverID: nat) returns (copy: Binds)
    requires Shows(b, v)
    ensures fresh(copy) && forall i :: 0 <= i < |copy.servers| ==> fresh(copy.servers[i])
    ensures Shows(copy, if drop then Without(v, serverID) else v)
  {
    copy := new Binds();
    copy.servers := CopyServers(b.servers, v.servers, drop, serverID);
    copy.actives := CopyActives(b.actives, drop, serverID);
  }

  ghost predicate Apart(a: Binds, b: Binds)
    reads a, b
  {
    a != b && forall i :: 0 <= i < |a.servers| ==> a.servers[i] !in b.servers
  }

  /** Different clusters share no objects. */
  ghost predicate Separate(m: map<nat, Binds>)
    reads m.Values
  {
    forall k, l :: k in m && l in m && k != l ==> Apart(m[k], m[l])
  }

  lemma ShowsNothing(b: Binds)
    requires b.servers == [] && b.actives == []
    ensures Shows(b, Bound([], []))
  {
  }

  /** The end of addBind. */
  method Attach(b: Binds, ghost v: Bound, meta: Server)
    requires Shows(b, v)
    modifies b
    ensures Shows(b, Attached(v, meta))
  {
    var status := if meta.checked then Unknown else Up;
    var info := new BindInfo(meta.id, status);
    b.servers := b.servers + [info];
    if status == Up {
      b.actives := b.actives + [meta];
    }
  }

  method AddEntry(values: map<nat, Binds>, ghost v: map<nat, Bound>, clusterID: nat, meta: Server)
    returns (r: map<nat, Binds>)
    requires ShowsAll(values, v) && Separate(values)
    modifies values.Values
    ensures ShowsAll(r, v[clusterID := Attached(if clusterID in v then v[clusterID] else Bound([], []), meta)])
  {
    hide Shows, Objects, Attached;
    r := values;
    if clusterID !in values {
      var none := new Binds();
      assert Shows(none, Bound([], [])) by { ShowsNothing(none); }
      r := r[clusterID := none];
    }
    ghost var v' := v[clusterID := if clusterID in v then v[clusterID] else Bound([], [])];
    assert ShowsAll(r, v');
    Attach(r[clusterID], v'[clusterID], meta);
    forall k | k in r && k != clusterID ensures Shows(r[k], v'[k]) {}
  }

  /** The loop body of doStatusChangedEvent. */
  method SetOne(b: Binds, ghost v: Bound, meta: Server, st: Status)
    requires Shows(b, v)
    modifies b, b.servers
    ensures Shows(b, SetStatus(v, meta, st)) && b.servers == old(b.servers)
  {
    hide Filtered;
    var hasServer := SetInfos(b, v, meta.id, st);
    if hasServer {
      b.actives := b.actives + [meta];
      b.actives := Filtered(b.actives, meta.id, st);
      FilteredAdded(v.actives, meta, st);
    } else {
      assert SetEntries(v.servers, meta.id, st) == v.servers by { NothingSet(v, meta.id, st); }
    }
  }

  lemma NothingSet(v: Bound, id: nat, st: Status)
    requires !HasBind(v, id)
    ensures SetEntries(v.servers, id, st) == v.servers
  {
    assert forall j :: 0 <= j < |v.servers| ==> v.servers[j].svrID != id;
  }

  /** Its loop over the entries. */
  method SetInfos(b: Binds, ghost v: Bound, id: nat, st: Status) returns (hasServer: bool)
    requires Shows(b, v)
    modifies b.servers
    ensures ShowsEntries(b.servers, SetEntries(v.servers, id, st)) && hasServer == HasBind(v, id)
  {
    hasServer := false;
    var i := 0;
    while i < |b.servers|
      invariant 0 <= i <= |b.servers|
      invariant forall j :: 0 <= j < |b.servers| ==> b.servers[j].svrID == v.servers[j].svrID
      invariant forall j :: 0 <= j < |b.servers| ==>
                  b.servers[j].status == v.servers[j].status || (v.servers[j].svrID == id && b.servers[j].status == st)
      invariant forall j :: 0 <= j < i && v.servers[j].svrID == id ==> b.servers[j].status == st
      invariant hasServer == exists j :: 0 <= j < i && v.servers[j].svrID == id
    {
      if b.servers[i].svrID == id {
        hasServer := true;
        b.servers[i].status := st;
      }
      i := i + 1;
    }
  }

  /** What the loop of doStatusChangedEvent works on: a table that shows `w`, all of it among `objects`. */
  ghost predicate Loaded(values: map<nat, Binds>, w: map<nat, Bound>, objects: set<object>)
    reads values.Values, Objects(values)
  {
    && ShowsAll(values, w) && Separate(values)
    && forall k :: k in values ==>
         values[k] in objects && forall i :: 0 <= i < |values[k].servers| ==> values[k].servers[i] in objects
  }

  /** One cluster's turn. */
  method ApplyOne(values: map<nat, Binds>, ghost w: map<nat, Bound>, key: nat, meta: Server, st: Status,
      ghost objects: set<object>)
    requires Loaded(values, w, objects) && key in values && key in w
    modifies objects
    ensures Loaded(values, w[key := SetStatus(w[key], meta, st)], objects)
  {
    hide Shows, SetStatus, Objects;
    assert forall k :: k in values && k != key ==> Apart(values[k], values[key]);
    SetOne(values[key], w[key], meta, st);
    forall k | k in values && k != key ensures Shows(values[k], w[k]) {}
    forall k, l | k in values && l in values && k != l ensures Apart(values[k], values[l]) {
      assert old(Apart(values[k], values[l]));
    }
  }

  method ApplyStatus(values: map<nat, Binds>, ghost v: map<nat, Bound>, meta: Server, st: Status,
      ghost objects: set<object>)
    requires Loaded(values, v, objects) && values.Keys == v.Keys
    modifies objects
    ensures Loaded(values, Changed(v, meta, st), objects)
  {
    hide *;
    ghost var w := v;
    var keys := values.Keys;
    assert PartlyChanged(v, w, keys, meta, st) by { NothingChanged(v, meta, st); }
    while keys != {}
      invariant keys <= values.Keys == v.Keys && Loaded(values, w, objects) && PartlyChanged(v, w, keys, meta, st)
      decreases |keys|
    {
      var key :| key in keys;
      assert key in w by { PartChanges(v, w, keys, key, meta, st); }
      ApplyOne(values, w, key, meta, st, objects);
      PartChanges(v, w, keys, key, meta, st);
      w := w[key := SetStatus(w[key], meta, st)];
      keys := keys - {key};
    }
    AllChanged(v, w, meta, st);
  }

  /** The outer loop has still the clusters `keys` to do. */
  ghost predicate PartlyChanged(v: map<nat, Bound>, w: map<nat, Bound>, keys: set<nat>, meta: Server, st: Status) {
    w.Keys == v.Keys && forall k :: k in v ==> w[k] == if k in keys then v[k] else SetStatus(v[k], meta, st)
  }

  lemma PartChanges(v: map<nat, Bound>, w: map<nat, Bound>, keys: set<nat>, key: nat, meta: Server, st: Status)
    requires PartlyChanged(v, w, keys, meta, st) && key in keys && key in v
    ensures key in w && PartlyChanged(v, w[key := SetStatus(w[key], meta, st)], keys - {key}, meta, st)
  {
  }

  lemma NothingChanged(v: map<nat, Bound>, meta: Server, st: Status)
    ensures PartlyChanged(v, v, v.Keys, meta, st)
  {
  }

  lemma AllChanged(v: map<nat, Bound>, w: map<nat, Bound>, meta: Server, st: Status)
    requires PartlyChanged(v, w, {}, meta, st)
    ensures w == Changed(v, meta, st)
  {
  }

  lemma ShownLoads(values: map<nat, Binds>, w: map<nat, Bound>)
    requires ShowsAll(values, w) && Separate(values)
    ensures Loaded(values, w, Objects(values)) && values.Keys == w.Keys
  {
  }

  lemma LoadedShows(values: map<nat, Binds>, w: map<nat, Bound>, objects: set<object>)
    requires Loaded(values, w, objects)
    ensures ShowsAll(values, w)
  {
  }

  // ---- What each event does to the tables

  datatype Event =
    | AddServer(meta: Server) | UpdateServer(meta: Server) | RemoveServer(id: nat)
    | AddCluster(id: nat) | RemoveCluster(id: nat)
    | AddBind(clusterID: nat, serverID: nat) | RemoveBind(clusterID: nat, serverID: nat)
    | StatusChanged(meta: Server, status: Status)

  /** A status that getServerStatus may report: that of any entry of the server, maps having no order. */
  ghost predicate Reports(binds: map<nat, Bound>, id: nat, st: Status) {
    if exists k :: k in binds && HasBind(binds[k], id) then
      exists k, i :: k in binds && 0 <= i < |binds[k].servers| && binds[k].servers[i] == Entry(id, st)
    else st == Unknown
  }

  /** One more entry; a server without a health check counts as up at once. */
  function Attached(b: Bound, meta: Server): Bound {
    var st := if meta.checked then Unknown else Up;
    Bound(b.servers + [Entry(meta.id, st)], if st == Up then b.actives + [meta] else b.actives)
  }

  function Bind(t: Tables, clusterID: nat, serverID: nat): map<nat, Bound>
    requires serverID in t.servers
  {
    var meta := t.servers[serverID];
    var binds := Copied(t.binds, 0, 0);
    var b := if clusterID in binds then binds[clusterID] else Bound([], []);
    binds[clusterID := Attached(b, meta)]
  }

  function Changed(binds: map<nat, Bound>, meta: Server, st: Status): map<nat, Bound> {
    map k | k in binds :: SetStatus(binds[k], meta, st)
  }

  /** `seen` is the status that the handler of StatusChanged read. */
  ghost predicate Step(t: Tables, e: Event, t': Tables) {
    match e
    case AddServer(meta) => t' == if meta.id in t.servers then t else t.(servers := t.servers[meta.id := meta])
    case UpdateServer(meta) => t' == if meta.id in t.servers then t.(servers := t.servers[meta.id := meta]) else t
    case RemoveServer(id) =>
      t' == if id in t.servers then t.(servers := t.servers - {id}, binds := Copied(t.binds, 0, id)) else t
    case AddCluster(id) => t' == t.(clusters := t.clusters + {id})
    case RemoveCluster(id) =>
      t' == if id in t.clusters then t.(clusters := t.clusters - {id}, binds := Copied(t.binds, id, 0)) else t
    case AddBind(c, s) =>
      t' == if s in t.servers && c in t.clusters then t.(binds := Bind(t, c, s)) else t
    case RemoveBind(c, s) =>
      t' == if s in t.servers && c in t.clusters then t.(binds := Copied(t.binds, c, s)) else t
    case StatusChanged(meta, st) =>
      || t' == t.(binds := Changed(Copied(t.binds, 0, 0), meta, st))
      || (t' == t && Reports(t.binds, meta.id, st))
  }

  // ---- The dispatcher

  class Dispatcher {
    var servers: map<nat, Server>
    var clusters: set<nat>
    var binds: map<nat, Binds>
    ghost var shown: map<nat, Bound>

    ghost predicate Valid()
      reads this, binds.Values, Objects(binds)
    {
      ShowsAll(binds, shown)
    }

    ghost function State(): Tables
      reads this
    {
      Tables(servers, clusters, shown)
    }

    constructor ()
      ensures Valid() && State() == Tables(map[], {}, map[])
    {
      servers, clusters, binds, shown := map[], {}, map[], map[];
    }

    method CopyTable(clusterID: nat, serverID: nat) returns (values: map<nat, Binds>)
      requires Valid()
      ensures Separate(values) && ShowsAll(values, Copied(shown, clusterID, serverID))
      ensures forall k :: k in values ==> fresh(values[k])
      ensures forall k, i :: k in values && 0 <= i < |values[k].servers| ==> fresh(values[k].servers[i])
    {
      hide Shows, Objects;
      values := map[];
      var keys := binds.Keys;
      while keys != {}
        invariant keys <= binds.Keys && values.Keys == binds.Keys - keys
        invariant Separate(values) && forall k :: k in values ==> fresh(values[k])
        invariant forall k, i :: k in values && 0 <= i < |values[k].servers| ==> fresh(values[k].servers[i])
        invariant forall k :: k in values ==> Shows(values[k], Copied(shown, clusterID, serverID)[k])
        decreases |keys|
      {
        var key :| key in keys;
        var n := CopyOne(binds[key], shown[key], clusterID == 0 || clusterID == key, serverID);
        forall k | k in values ensures Apart(values[k], n) && Apart(n, values[k]) {}
        values := values[key := n];
        keys := keys - {key};
      }
    }

    method CopyBinds(clusterID: nat, serverID: nat) returns (values: map<nat, Binds>)
      requires Valid()
      ensures Separate(values) && ShowsAll(values, Copied(shown, clusterID, serverID))
      ensures fresh(Objects(values)) && fresh(values.Values)
    {
      hide Valid, ShowsAll, Separate, Copied;
      values := CopyTable(clusterID, serverID);
    }

    /** Replaces the table; the one before is left as it is. */
    method Publish(values: map<nat, Binds>, ghost v: map<nat, Bound>)
      requires ShowsAll(values, v) && Valid()
      modifies this`binds, this`shown
      ensures Valid() && binds == values && shown == v
      ensures ShowsAll(old(binds), old(shown))
    {
      hide Shows, Objects;
      binds := values;
      shown := v;
    }

    method AddServer(meta: Server)
      requires Valid()
      modifies this
      ensures Valid() && Step(old(State()), Event.AddServer(meta), State())
      ensures ShowsAll(old(binds), old(shown))
    {
      hide Shows, Objects;
      if meta.id !in servers {
        servers := servers[meta.id := meta];
      }
    }

    method UpdateServer(meta: Server)
      requires Valid()
      modifies this
      ensures Valid() && Step(old(State()), Event.UpdateServer(meta), State())
      ensures ShowsAll(old(binds), old(shown))
    {
      hide Shows, Objects;
      if meta.id in servers {
        servers := servers[meta.id := meta];
      }
    }

    method RemoveServer(id: nat)
      requires Valid()
      modifies this
      ensures Valid() && Step(old(State()), Event.RemoveServer(id), State())
      ensures ShowsAll(old(binds), old(shown))
    {
      if id !in servers {
        return;
      }
      hide Shows, Objects, Copied;
      var newBinds := CopyBinds(0, id);
      servers := servers - {id};
      Publish(newBinds, Copied(shown, 0, id));
    }

    method AddCluster(id: nat)
      requires Valid()
      modifies this
      ensures Valid() && Step(old(State()), Event.AddCluster(id), State())
      ensures ShowsAll(old(binds), old(shown))
    {
      hide Shows, Objects;
      clusters := clusters + {id};
    }

    method RemoveCluster(id: nat)
      requires Valid()
      modifies this
      ensures Valid() && Step(old(State()), Event.RemoveCluster(id), State())
      ensures ShowsAll(old(binds), old(shown))
    {
      if id !in clusters {
        return;
      }
      hide Shows, Objects, Copied;
      var newBinds := CopyBinds(id, 0);
      clusters := clusters - {id};
      Publish(newBinds, Copied(shown, id, 0));
    }

    method AddBind(clusterID: nat, serverID: nat)
      requires Valid()
      modifies this
      ensures Valid() && Step(old(State()), Event.AddBind(clusterID, serverID), State())
      ensures ShowsAll(old(binds), old(shown))
    {
      if serverID !in servers || clusterID !in clusters {
        return;
      }
      hide Shows, ShowsAll, Objects, Apart;
      var newValues := CopyBinds(0, 0);
      newValues := AddEntry(newValues, Copied(shown, 0, 0), clusterID, servers[serverID]);
      Publish(newValues, Bind(State(), clusterID, serverID));
    }

    method RemoveBind(clusterID: nat, serverID: nat)
      requires Valid()
      modifies this
      ensures Valid() && Step(old(State()), Event.RemoveBind(clusterID, serverID), State())
      ensures ShowsAll(old(binds), old(shown))
    {
      if serverID !in servers || clusterID !in clusters {
        return;
      }
      hide Shows, Objects, Copied;
      var newBinds := CopyBinds(clusterID, serverID);
      Publish(newBinds, Copied(shown, clusterID, serverID));
    }

    method GetServerStatus(id: nat) returns (status: Status)
      requires Valid()
      ensures Reports(shown, id, status)
    {
      hide Objects;
      var keys := binds.Keys;
      while keys != {}
        invariant keys <= binds.Keys
        invariant forall k :: k in shown && k !in keys ==> !HasBind(shown[k], id)
        decreases |keys|
      {
        var key :| key in keys;
        var i := 0;
        assert Shows(binds[key], shown[key]);
        while i < |binds[key].servers|
          invariant 0 <= i <= |binds[key].servers|
          invariant forall j :: 0 <= j < i ==> shown[key].servers[j].svrID != id
        {
          var info := binds[key].servers[i];
          if info.svrID == id {
            assert shown[key].servers[i] == Entry(id, info.status);
            assert HasBind(shown[key], id);
            return info.status;
          }
          i := i + 1;
        }
        keys := keys - {key};
      }
      return Unknown;
    }

    method CopyChanged(meta: Server, status: Status) returns (values: map<nat, Binds>)
      requires Valid()
      ensures ShowsAll(values, Changed(Copied(shown, 0, 0), meta, status))
    {
      hide *;
      values := CopyBinds(0, 0);
      ghost var copied := Copied(shown, 0, 0);
      ghost var objects := Objects(values);
      ShownLoads(values, copied);
      ApplyStatus(values, copied, meta, status, objects);
      LoadedShows(values, Changed(copied, meta, status), objects);
    }

    method StatusChanged(meta: Server, status: Status)
      requires Valid()
      modifies this
      ensures Valid() && Step(old(State()), Event.StatusChanged(meta, status), State())
      ensures ShowsAll(old(binds), old(shown))
    {
      var oldStatus := GetServerStatus(meta.id);
      if oldStatus == status {
        return;
      }
      hide Shows, ShowsAll, Reports, Changed;
      var newValues := CopyChanged(meta, status);
      Publish(newValues, Changed(Copied(shown, 0, 0), meta, status));
    }

    /** selectServerFromCluster; `lb` is the cluster's balancer. */
    method SelectServer(clusterID: nat, lb: seq<Server> -> nat) returns (svr: Option<Server>)
      requires Valid()
      ensures svr == Select(State(), clusterID, lb)
    {
      if clusterID !in clusters {
        return None;
      }
      if clusterID in binds {
        assert Shows(binds[clusterID], shown[clusterID]);
        var id := lb(binds[clusterID].actives);
        return if id in servers then Some(servers[id]) else None;
      }
      return None;
    }
  }

  function Select(t: Tables, clusterID: nat, lb: seq<Server> -> nat): Option<Server> {
    if clusterID in t.clusters && clusterID in t.binds then
      var id := lb(t.binds[clusterID].actives);
      if id in t.servers then Some(t.servers[id]) else None
    else None
  }

  // ---- The invariant

  predicate IsActive(b: Bound, id: nat) {
    exists i :: 0 <= i < |b.actives| && b.actives[i].id == id
  }

  predicate IsUp(b: Bound, id: nat) {
    Entry(id, Up) in b.servers
  }

  ghost predicate BoundOk(b: Bound, servers: map<nat, Server>) {
    && (forall i :: 0 <= i < |b.servers| ==> b.servers[i].svrID in servers)
    && forall id :: IsActive(b, id) <==> IsUp(b, id)
  }

  ghost predicate Inv(t: Tables) {
    && 0 !in t.servers && 0 !in t.clusters
    && (forall id :: id in t.servers ==> t.servers[id].id == id)
    && forall c :: c in t.binds ==> BoundOk(t.binds[c], t.servers)
  }

  /** Registered ids are not zero. */
  predicate Allowed(e: Event) {
    match e
    case AddServer(meta) => meta.id != 0
    case AddCluster(id) => id != 0
    case StatusChanged(meta, _) => meta.id != 0
    case _ => true
  }

  lemma {:induction false} KeepEntriesMembers(es: seq<Entry>, id: nat)
    ensures forall e :: e in KeepEntries(es, id) <==> e in es && e.svrID != id
  {
    if es != [] {
      var n := |es| - 1;
      KeepEntriesMembers(es[..n], id);
      assert es == es[..n] + [es[n]];
    }
  }

  lemma {:induction false} KeepServersMembers(ss: seq<Server>, id: nat)
    ensures forall s :: s in KeepServers(ss, id) <==> s in ss && s.id != id
  {
    if ss != [] {
      var n := |ss| - 1;
      KeepServersMembers(ss[..n], id);
      assert ss == ss[..n] + [ss[n]];
    }
  }

  lemma ActiveMember(b: Bound, id: nat)
    ensures IsActive(b, id) <==> exists s :: s in b.actives && s.id == id
  {
  }

  lemma WithoutOk(b: Bound, id: nat, servers: map<nat, Server>)
    requires BoundOk(b, servers)
    ensures BoundOk(Without(b, id), servers)
    ensures forall i :: 0 <= i < |Without(b, id).servers| ==> Without(b, id).servers[i].svrID != id
  {
    var b' := Without(b, id);
    KeepEntriesMembers(b.servers, id);
    KeepServersMembers(b.actives, id);
    hide KeepEntries, KeepServers;
    forall i | 0 <= i < |b'.servers| ensures b'.servers[i].svrID in servers && b'.servers[i].svrID != id {
      assert b'.servers[i] in b.servers;
    }
    forall x ensures IsActive(b', x) <==> IsUp(b', x) {
      ActiveMember(b, x);
      ActiveMember(b', x);
      assert IsActive(b, x) <==> IsUp(b, x);
    }
  }

  lemma SetStatusOk(b: Bound, meta: Server, st: Status, servers: map<nat, Server>)
    requires BoundOk(b, servers)
    ensures BoundOk(SetStatus(b, meta, st), servers)
  {
    if HasBind(b, meta.id) {
      var b' := SetStatus(b, meta, st);
      KeepServersMembers(b.actives, meta.id);
      hide KeepServers;
      var k :| 0 <= k < |b.servers| && b.servers[k].svrID == meta.id;
      assert b'.servers[k] == Entry(meta.id, st);
      forall x ensures IsActive(b', x) <==> IsUp(b', x) {
        ActiveMember(b, x);
        ActiveMember(b', x);
        assert IsActive(b, x) <==> IsUp(b, x);
        if x != meta.id { SetEntriesOthers(b.servers, meta.id, st, x); } else { SetEntriesOwn(b.servers, x, st); }
      }
    }
  }

  lemma SetEntriesOthers(es: seq<Entry>, id: nat, st: Status, x: nat)
    requires x != id
    ensures Entry(x, Up) in SetEntries(es, id, st) <==> Entry(x, Up) in es
  {
    if Entry(x, Up) in es {
      var i :| 0 <= i < |es| && es[i] == Entry(x, Up);
      assert SetEntries(es, id, st)[i] == Entry(x, Up);
    }
  }

  lemma SetEntriesOwn(es: seq<Entry>, id: nat, st: Status)
    ensures st != Up ==> Entry(id, Up) !in SetEntries(es, id, st)
  {
  }

  lemma AttachedOk(b: Bound, meta: Server, servers: map<nat, Server>)
    requires BoundOk(b, servers) && meta.id in servers
    ensures BoundOk(Attached(b, meta), servers)
  {
    var b' := Attached(b, meta);
    forall x ensures IsActive(b', x) <==> IsUp(b', x) {
      ActiveMember(b, x);
      ActiveMember(b', x);
      assert IsActive(b, x) <==> IsUp(b, x);
    }
  }

  /** Every event keeps the invariant. */
  lemma StepKeeps(t: Tables, e: Event, t': Tables)
    requires Inv(t) && Allowed(e) && Step(t, e, t')
    ensures Inv(t')
  {
    hide IsActive, IsUp, Without, SetStatus, Attached;
    forall c | c in t'.binds ensures BoundOk(t'.binds[c], t'.servers) {
      match e
      case RemoveServer(id) => if c in t.binds { WithoutOk(t.binds[c], id, t.servers); }
      case RemoveCluster(id) => if c in t.binds { WithoutOk(t.binds[c], 0, t.servers); }
      case RemoveBind(_, id) => if c in t.binds { WithoutOk(t.binds[c], id, t.servers); }
      case AddBind(k, id) =>
        if c in t.binds { WithoutOk(t.binds[c], 0, t.servers); }
        if id in t.servers && k in t.clusters {
          var b := if c in t.binds then Without(t.binds[c], 0) else Bound([], []);
          assert BoundOk(Bound([], []), t.servers) by { NothingBound(t.servers); }
          AttachedOk(b, t.servers[id], t.servers);
        }
      case StatusChanged(meta, st) =>
        if c in t.binds {
          WithoutOk(t.binds[c], 0, t.servers);
          SetStatusOk(Without(t.binds[c], 0), meta, st, t.servers);
        }
      case _ =>
    }
  }

  // ---- What the events mean for who is bound and who is up

  predicate BoundIn(t: Tables, c: nat, id: nat) {
    c in t.binds && HasBind(t.binds[c], id)
  }

  predicate UpIn(t: Tables, c: nat, id: nat) {
    c in t.binds && IsUp(t.binds[c], id)
  }

  /** Each event as a change of the relations "bound" and "up", in every cluster and for every server. */
  ghost predicate Means(t: Tables, e: Event, t': Tables, c: nat, id: nat) {
    match e
    case AddBind(k, s) =>
      var valid := s in t.servers && k in t.clusters && (c, id) == (k, s);
      && (BoundIn(t', c, id) <==> BoundIn(t, c, id) || valid)
      && (UpIn(t', c, id) <==> UpIn(t, c, id) || (valid && !t.servers[s].checked))
    case RemoveBind(k, s) =>
      var gone := s in t.servers && k in t.clusters && (c, id) == (k, s);
      && (BoundIn(t', c, id) <==> BoundIn(t, c, id) && !gone) && (UpIn(t', c, id) <==> UpIn(t, c, id) && !gone)
    case RemoveServer(s) =>
      var gone := s in t.servers && id == s;
      && (BoundIn(t', c, id) <==> BoundIn(t, c, id) && !gone) && (UpIn(t', c, id) <==> UpIn(t, c, id) && !gone)
    case StatusChanged(meta, st) =>
      && (BoundIn(t', c, id) <==> BoundIn(t, c, id))
      && (t' != t && id == meta.id ==> (UpIn(t', c, id) <==> BoundIn(t, c, id) && st == Up))
      && (t' == t || id != meta.id ==> (UpIn(t', c, id) <==> UpIn(t, c, id)))
    case _ => (BoundIn(t', c, id) <==> BoundIn(t, c, id)) && (UpIn(t', c, id) <==> UpIn(t, c, id))
  }

  lemma WithoutMeans(b: Bound, x: nat, id: nat)
    ensures HasBind(Without(b, x), id) <==> HasBind(b, id) && id != x
    ensures IsUp(Without(b, x), id) <==> IsUp(b, id) && id != x
  {
    KeepEntriesMembers(b.servers, x);
    hide KeepEntries, KeepServers;
    var b' := Without(b, x);
    if HasBind(b', id) {
      var i :| 0 <= i < |b'.servers| && b'.servers[i].svrID == id;
      assert b'.servers[i] in b.servers;
    }
    if HasBind(b, id) && id != x {
      var i :| 0 <= i < |b.servers| && b.servers[i].svrID == id;
      assert b.servers[i] in b'.servers;
    }
  }

  lemma AttachedMeans(b: Bound, meta: Server, id: nat)
    ensures HasBind(Attached(b, meta), id) <==> HasBind(b, id) || id == meta.id
    ensures IsUp(Attached(b, meta), id) <==> IsUp(b, id) || (id == meta.id && !meta.checked)
  {
    var b' := Attached(b, meta);
    assert b'.servers[|b.servers|].svrID == meta.id;
    if HasBind(b, id) {
      var i :| 0 <= i < |b.servers| && b.servers[i].svrID == id;
      assert b'.servers[i] == b.servers[i];
    }
  }

  lemma SetStatusMeans(b: Bound, meta: Server, st: Status, id: nat)
    ensures HasBind(SetStatus(b, meta, st), id) <==> HasBind(b, id)
    ensures IsUp(SetStatus(b, meta, st), id) <==> if id == meta.id then HasBind(b, id) && st == Up else IsUp(b, id)
  {
    if HasBind(b, meta.id) {
      var b' := SetStatus(b, meta, st);
      forall i | 0 <= i < |b.servers| ensures b'.servers[i].svrID == b.servers[i].svrID {}
      if HasBind(b, id) {
        var i :| 0 <= i < |b.servers| && b.servers[i].svrID == id;
        assert b'.servers[i].svrID == id;
      }
      if id != meta.id {
        SetEntriesOthers(b.servers, meta.id, st, id);
      } else {
        SetEntriesOwn(b.servers, id, st);
        var k :| 0 <= k < |b.servers| && b.servers[k].svrID == id;
        assert b'.servers[k] == Entry(id, st);
      }
    }
    UpIsBound(b, id);
  }

  lemma UpIsBound(b: Bound, id: nat)
    ensures IsUp(b, id) ==> HasBind(b, id)
  {
    if IsUp(b, id) {
      var k :| 0 <= k < |b.servers| && b.servers[k] == Entry(id, Up);
      assert b.servers[k].svrID == id;
    }
  }

  /** Every event does to who is bound where and who is up what it means, and to nobody else anything. */
  lemma EventsMean(t: Tables, e: Event, t': Tables, c: nat, id: nat)
    requires Inv(t) && Allowed(e) && Step(t, e, t') && id != 0
    ensures Means(t, e, t', c, id)
  {
    hide IsUp, HasBind, Without, SetStatus, Attached, BoundOk;
    var b := if c in t.binds then t.binds[c] else Bound([], []);
    WithoutMeans(b, 0, id);
    NobodyBound(id);
    match e
    case RemoveServer(s) => WithoutMeans(b, s, id);
    case RemoveBind(_, s) => WithoutMeans(b, s, id);
    case AddBind(k, s) =>
      if s in t.servers && k in t.clusters {
        AttachedMeans(Without(b, 0), t.servers[s], id);
        AttachedMeans(Bound([], []), t.servers[s], id);
      }
    case StatusChanged(meta, st) => SetStatusMeans(Without(b, 0), meta, st, id);
    case _ =>
  }

  /** Each event as a change of who is registered, with which data, and of which clusters there are. */
  ghost predicate Registers(t: Tables, e: Event, t': Tables, c: nat, id: nat) {
    && (match e
        case AddServer(meta) =>
          && (id in t'.servers <==> id in t.servers || id == meta.id)
          && (id in t.servers ==> t'.servers[id] == t.servers[id])
          && (id == meta.id && id !in t.servers ==> t'.servers[id] == meta)
        case UpdateServer(meta) =>
          && (id in t'.servers <==> id in t.servers)
          && (id in t.servers ==> t'.servers[id] == if id == meta.id then meta else t.servers[id])
        case RemoveServer(s) =>
          && (id in t'.servers <==> id in t.servers && id != s)
          && (id in t'.servers ==> t'.servers[id] == t.servers[id])
        case _ => t'.servers == t.servers)
    && match e
       case AddCluster(k) => c in t'.clusters <==> c in t.clusters || c == k
       case RemoveCluster(k) => c in t'.clusters <==> c in t.clusters && c != k
       case _ => t'.clusters == t.clusters
  }

  /** Every event registers and forgets what it says, and nothing else; and nobody is selected from a cluster that is
      not there. */
  lemma EventsRegister(t: Tables, e: Event, t': Tables, c: nat, id: nat, lb: seq<Server> -> nat)
    requires Step(t, e, t')
    ensures Registers(t, e, t', c, id)
    ensures c !in t'.clusters ==> Select(t', c, lb) == None
  {
    hide Copied, Changed, Bind, Reports;
  }

  // ---- When a change of status reaches every entry

  ghost predicate AllHave(binds: map<nat, Bound>, id: nat, st: Status) {
    forall c, i :: c in binds && 0 <= i < |binds[c].servers| && binds[c].servers[i].svrID == id ==>
                     binds[c].servers[i].status == st
  }

  ghost predicate SomeHas(binds: map<nat, Bound>, id: nat, st: Status) {
    exists c, i :: c in binds && 0 <= i < |binds[c].servers| && binds[c].servers[i] == Entry(id, st)
  }

  /** A change of status is certain to leave every entry of the server with that status exactly when they all have
      it before, or none has: while some have it and others lack it, the handler may look at one that has it and pass
      the change over. */
  lemma StatusReachesAll(t: Tables, meta: Server, st: Status)
    ensures (forall t' :: Step(t, Event.StatusChanged(meta, st), t') ==> AllHave(t'.binds, meta.id, st))
       <==> AllHave(t.binds, meta.id, st) || !SomeHas(t.binds, meta.id, st)
  {
    hide Changed, Copied;
    var e := Event.StatusChanged(meta, st);
    if SomeHas(t.binds, meta.id, st) {
      SomeIsReported(t.binds, meta.id, st);
      assert Step(t, e, t);
    } else if Reports(t.binds, meta.id, st) {
      ReportsSome(t.binds, meta.id, st);
      UnboundHasAll(t.binds, meta.id, st);
    }
    forall t' | t' == t.(binds := Changed(Copied(t.binds, 0, 0), meta, st)) ensures AllHave(t'.binds, meta.id, st) {
      ChangedHave(Copied(t.binds, 0, 0), meta, st);
    }
  }

  lemma SomeIsReported(binds: map<nat, Bound>, id: nat, st: Status)
    requires SomeHas(binds, id, st)
    ensures Reports(binds, id, st)
  {
    var c, i :| c in binds && 0 <= i < |binds[c].servers| && binds[c].servers[i] == Entry(id, st);
    assert HasBind(binds[c], id);
  }

  lemma ReportsSome(binds: map<nat, Bound>, id: nat, st: Status)
    requires Reports(binds, id, st)
    ensures SomeHas(binds, id, st) || forall c :: c in binds ==> !HasBind(binds[c], id)
  {
  }

  lemma UnboundHasAll(binds: map<nat, Bound>, id: nat, st: Status)
    requires forall c :: c in binds ==> !HasBind(binds[c], id)
    ensures AllHave(binds, id, st)
  {
    assert forall c, i :: c in binds && 0 <= i < |binds[c].servers| ==> binds[c].servers[i].svrID != id by {
      forall c | c in binds ensures forall i :: 0 <= i < |binds[c].servers| ==> binds[c].servers[i].svrID != id {
        assert !HasBind(binds[c], id);
      }
    }
  }

  lemma ChangedHave(binds: map<nat, Bound>, meta: Server, st: Status)
    ensures AllHave(Changed(binds, meta, st), meta.id, st)
  {
    hide KeepServers;
    var changed := Changed(binds, meta, st);
    forall c, i | c in changed && 0 <= i < |changed[c].servers| && changed[c].servers[i].svrID == meta.id
      ensures changed[c].servers[i].status == st
    {
      StatusEntries(binds[c], meta, st);
    }
  }

  lemma StatusEntries(b: Bound, meta: Server, st: Status)
    ensures SetStatus(b, meta, st).servers == SetEntries(b.servers, meta.id, st)
  {
    hide KeepServers;
    if !HasBind(b, meta.id) { NothingSet(b, meta.id, st); }
  }

  /** A server with a health check is bound to cluster 1, comes up, and is bound to cluster 2; then it is reported up
      once more, and the report is passed over. */
  function SkippedRun(): seq<Tables> {
    var meta := Server(1, true);
    var servers := map[1 := meta];
    var fresh', up := Bound([Entry(1, Unknown)], []), Bound([Entry(1, Up)], [meta]);
    [ Tables(map[], {}, map[]), Tables(servers, {}, map[]), Tables(servers, {1}, map[]), Tables(servers, {1, 2}, map[]),
      Tables(servers, {1, 2}, map[1 := fresh']), Tables(servers, {1, 2}, map[1 := up]),
      Tables(servers, {1, 2}, map[1 := up, 2 := fresh']), Tables(servers, {1, 2}, map[1 := up, 2 := fresh']) ]
  }

  function SkippedEvents(): seq<Event> {
    var meta := Server(1, true);
    [ Event.AddServer(meta), Event.AddCluster(1), Event.AddCluster(2), Event.AddBind(1, 1),
      Event.StatusChanged(meta, Up), Event.AddBind(2, 1), Event.StatusChanged(meta, Up) ]
  }

  /** So in a run from the empty tables a server that was reported up in cluster 2 stays out of selection there. */
  lemma StatusMayBeSkipped(lb: seq<Server> -> nat)
    requires Chooses(lb)
    ensures var run := SkippedRun();
            && |run| == |SkippedEvents()| + 1 && IsRun(run)
            && (forall k :: 0 <= k < |run| - 1 ==>
                  Allowed(SkippedEvents()[k]) && Step(run[k], SkippedEvents()[k], run[k + 1]))
            && BoundIn(run[7], 2, 1) && UpIn(run[7], 1, 1) && !UpIn(run[7], 2, 1) && Select(run[7], 2, lb) == None
  {
    var run, es := SkippedRun(), SkippedEvents();
    SkippedSteps();
    forall k | 0 <= k < |run| - 1 ensures Next(run[k], run[k + 1]) {
      assert Allowed(es[k]) && Step(run[k], es[k], run[k + 1]);
    }
    RunKeeps(run, 7);
    assert run[7].binds[2].servers[0].svrID == 1;
    assert run[7].binds[1].servers[0] == Entry(1, Up);
    SelectsUpServer(run[7], 2, lb);
  }

  lemma CopiedWhole(binds: map<nat, Bound>)
    requires forall c, i :: c in binds && 0 <= i < |binds[c].servers| ==> binds[c].servers[i].svrID != 0
    requires forall c, i :: c in binds && 0 <= i < |binds[c].actives| ==> binds[c].actives[i].id != 0
    ensures Copied(binds, 0, 0) == binds
  {
    hide KeepEntries, KeepServers;
    forall c | c in binds ensures Without(binds[c], 0) == binds[c] {
      KeepsAll(binds[c].servers, binds[c].actives, 0);
    }
  }

  lemma SkippedSteps()
    ensures var run := SkippedRun();
            forall k :: 0 <= k < |run| - 1 ==>
                Allowed(SkippedEvents()[k]) && Step(run[k], SkippedEvents()[k], run[k + 1])
  {
    hide Step, Chooses, Select, BoundIn, UpIn;
    var run, es := SkippedRun(), SkippedEvents();
    SkippedStart(run[0], run[1], run[2], run[3]);
    SkippedBind(run[3], 1);
    SkippedUp(run[4]);
    SkippedBind(run[5], 2);
    SkippedAgain(run[6]);
    forall k | 0 <= k < |run| - 1 ensures Allowed(es[k]) && Step(run[k], es[k], run[k + 1]) {
      if k == 3 {
        assert run[4] == run[3].(binds := run[3].binds[1 := Bound([Entry(1, Unknown)], [])]);
      } else if k == 5 {
        assert run[6] == run[5].(binds := run[5].binds[2 := Bound([Entry(1, Unknown)], [])]);
      }
    }
  }

  lemma SkippedStart(t: Tables, t1: Tables, t2: Tables, t3: Tables)
    requires t == Tables(map[], {}, map[]) && t1 == t.(servers := map[1 := Server(1, true)])
    requires t2 == t1.(clusters := {1}) && t3 == t2.(clusters := {1, 2})
    ensures Step(t, Event.AddServer(Server(1, true)), t1) && Step(t1, Event.AddCluster(1), t2)
    ensures Step(t2, Event.AddCluster(2), t3)
  {
  }

  lemma SkippedAgain(t: Tables)
    requires 1 in t.binds && t.binds[1] == Bound([Entry(1, Up)], [Server(1, true)])
    ensures Step(t, Event.StatusChanged(Server(1, true), Up), t)
  {
    hide Changed, Copied, Reports;
    assert t.binds[1].servers[0] == Entry(1, Up);
    SomeIsReported(t.binds, 1, Up);
  }

  lemma SkippedBind(t: Tables, c: nat)
    requires t.servers == map[1 := Server(1, true)] && c in t.clusters && c !in t.binds
    requires t.binds == map[] || t.binds == map[1 := Bound([Entry(1, Up)], [Server(1, true)])]
    ensures Step(t, Event.AddBind(c, 1), t.(binds := t.binds[c := Bound([Entry(1, Unknown)], [])]))
  {
    hide Copied, Attached;
    CopiedWhole(t.binds);
    AttachedChecked(Server(1, true));
  }

  lemma AttachedChecked(meta: Server)
    requires meta.checked
    ensures Attached(Bound([], []), meta) == Bound([Entry(meta.id, Unknown)], [])
  {
  }

  lemma SkippedUp(t: Tables)
    requires t.binds == map[1 := Bound([Entry(1, Unknown)], [])]
    ensures Step(t, Event.StatusChanged(Server(1, true), Up),
                 t.(binds := map[1 := Bound([Entry(1, Up)], [Server(1, true)])]))
  {
    hide Copied, SetStatus, Reports;
    CopiedWhole(t.binds);
    OneComesUp(Server(1, true));
    assert Changed(t.binds, Server(1, true), Up) == map[1 := Bound([Entry(1, Up)], [Server(1, true)])];
  }

  lemma OneComesUp(meta: Server)
    ensures SetStatus(Bound([Entry(meta.id, Unknown)], []), meta, Up) == Bound([Entry(meta.id, Up)], [meta])
  {
    var b := Bound([Entry(meta.id, Unknown)], []);
    assert b.servers[0].svrID == meta.id;
  }

  lemma NobodyBound(id: nat)
    ensures !HasBind(Bound([], []), id) && !IsUp(Bound([], []), id)
  {
  }

  lemma NothingBound(servers: map<nat, Server>)
    ensures BoundOk(Bound([], []), servers)
  {
  }

  ghost predicate IsRun(run: seq<Tables>) {
    && |run| > 0 && run[0] == Tables(map[], {}, map[])
    && forall k :: 0 <= k < |run| - 1 ==> Next(run[k], run[k + 1])
  }

  ghost predicate Next(t: Tables, t': Tables) {
    exists e :: Allowed(e) && Step(t, e, t')
  }

  /** After any events, each cluster's active ids are exactly the bound ids with an Up entry, and every bound id is
      a registered server. */
  lemma {:induction false} RunKeeps(run: seq<Tables>, k: nat)
    requires IsRun(run) && k < |run|
    ensures Inv(run[k])
  {
    if k > 0 {
      RunKeeps(run, k - 1);
      hide Inv, Step;
      assert Next(run[k - 1], run[k - 1 + 1]);
      var e :| Allowed(e) && Step(run[k - 1], e, run[k]);
      StepKeeps(run[k - 1], e, run[k]);
    }
  }

  /** A balancer returns the id of one of the servers it is given, and 0 when there are none. */
  ghost predicate Chooses(lb: seq<Server> -> nat) {
    && lb([]) == 0
    && forall ss: seq<Server> :: ss != [] ==> exists i :: 0 <= i < |ss| && ss[i].id == lb(ss)
  }

  /** Selection from an existing cluster yields a server exactly when some bound server is up, and then yields one
      that is. */
  lemma SelectsUpServer(t: Tables, clusterID: nat, lb: seq<Server> -> nat)
    requires Inv(t) && clusterID in t.clusters && Chooses(lb)
    ensures Select(t, clusterID, lb).Some? <==> clusterID in t.binds && exists id :: IsUp(t.binds[clusterID], id)
    ensures Select(t, clusterID, lb).Some? ==> IsUp(t.binds[clusterID], Select(t, clusterID, lb).value.id)
  {
    if clusterID in t.binds {
      var b := t.binds[clusterID];
      var id := lb(b.actives);
      assert forall x :: IsActive(b, x) <==> IsUp(b, x);
      if b.actives != [] {
        assert IsActive(b, id) && IsUp(b, id);
        var i :| 0 <= i < |b.servers| && b.servers[i] == Entry(id, Up);
        assert b.servers[i].svrID in t.servers;
      }
    }
  }

  /** Removing a cluster removes none of its binds: a cluster added under its id again finds them. */
  lemma RemovedClusterKeepsBinds(t: Tables, id: nat, t': Tables)
    requires Inv(t) && Step(t, Event.RemoveCluster(id), t')
    ensures t'.binds == t.binds
  {
    forall c | c in t.binds
      ensures Without(t.binds[c], 0).servers == t.binds[c].servers
      ensures Without(t.binds[c], 0).actives == t.binds[c].actives
    {
      var b := t.binds[c];
      assert BoundOk(b, t.servers);
      forall i | 0 <= i < |b.actives| ensures b.actives[i].id != 0 {
        assert IsActive(b, b.actives[i].id) && IsUp(b, b.actives[i].id);
      }
      KeepsAll(b.servers, b.actives, 0);
    }
  }

  lemma {:induction false} KeepsAll(es: seq<Entry>, ss: seq<Server>, id: nat)
    ensures (forall i :: 0 <= i < |es| ==> es[i].svrID != id) ==> KeepEntries(es, id) == es
    ensures (forall i :: 0 <= i < |ss| ==> ss[i].id != id) ==> KeepServers(ss, id) == ss
    decreases |es| + |ss|
  {
    if es != [] { KeepsAll(es[..|es| - 1], [], id); }
    if ss != [] { KeepsAll([], ss[..|ss| - 1], id); }
  }
}
