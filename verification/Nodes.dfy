/** The in-place hash joins that hand fetched neighbours to the nodes of a query. */
module Nodes {
  import opened Wrappers
  import opened Lists
  import opened Store
  import opened EagerLoad

  // A node of the current query; its Edges fields are filled in place.
  class Node {
    const kind: Kind
    const fields: Row
    const loaded: set<Edge>
    var many: map<Edge, seq<Entity>>
    var one: map<Edge, Entity>

    constructor (kind: Kind, fields: Row, loaded: set<Edge>)
      ensures this.kind == kind && this.fields == fields && this.loaded == loaded
      ensures many == map[] && one == map[]
    {
      this.kind := kind;
      this.fields := fields;
      this.loaded := loaded;
      many := map[];
      one := map[];
    }

    function Freeze(): Entity
      reads this
    {
      Entity(kind, fields, many, one, loaded)
    }

    function Id(): Store.Id {
      KeyOf(fields, IdColumn)
    }
  }

  function Freeze(nodes: seq<Node>): (ns: seq<Entity>)
    reads nodes
    ensures |ns| == |nodes| && forall i | 0 <= i < |nodes| :: ns[i] == nodes[i].Freeze()
  {
    seq(|nodes|, i requires 0 <= i < |nodes| reads nodes => nodes[i].Freeze())
  }

  ghost predicate DistinctNodes(nodes: seq<Node>) {
    forall i, j | 0 <= i < j < |nodes| :: nodes[i] != nodes[j]
  }

  // One node per row, with the selected columns.
  method MakeNodes(kind: Kind, rows: seq<Row>, columns: seq<Column>, loaded: set<Edge>) returns (nodes: seq<Node>)
    ensures fresh(nodes) && DistinctNodes(nodes)
    ensures Freeze(nodes) == DecodeAll(kind, rows, columns, loaded)
  {
    nodes := [];
    for i := 0 to |rows|
      invariant |nodes| == i && fresh(nodes) && DistinctNodes(nodes)
      invariant forall j | 0 <= j < i :: nodes[j].Freeze() == Decode(kind, rows[j], columns, loaded)
    {
      var node := new Node(kind, Project(rows[i], columns), loaded);
      nodes := nodes + [node];
    }
  }

  // ---------- One to many ----------

  // The map sends every id to the node at the position that `owner` gives it.
  ghost predicate IndexedBy(nodes: seq<Node>, nodeids: map<Id, Node>, owner: map<Id, nat>) {
    && nodeids.Keys == owner.Keys
    && forall id | id in owner :: owner[id] < |nodes| && nodeids[id] == nodes[owner[id]]
  }

  // Indexing by id one after the other: the last node with an id owns it.
  function OwnerOf(ids: seq<Id>): map<Id, nat> {
    if ids == [] then map[]
    else
      var n := |ids| - 1;
      OwnerOf(ids[..n])[ids[n] := n]
  }

  lemma {:induction false} OwnerIsLastPosition(ids: seq<Id>)
    ensures var owner := OwnerOf(ids);
      && (forall id :: id in owner <==> id in ids)
      && (forall id | id in owner :: owner[id] < |ids| && ids[owner[id]] == id)
      && (forall i, id | id in owner && owner[id] < i < |ids| :: ids[i] != id)
  {
    if ids != [] {
      var n := |ids| - 1;
      assert ids == ids[..n] + [ids[n]];
      OwnerIsLastPosition(ids[..n]);
    }
  }

  ghost function IdsOfNodes(nodes: seq<Node>): (ids: seq<Id>)
    ensures |ids| == |nodes| && forall i | 0 <= i < |nodes| :: ids[i] == nodes[i].Id()
  {
    seq(|nodes|, i requires 0 <= i < |nodes| => nodes[i].Id())
  }

  // Collect the ids, index the nodes by id and reset the edge to the empty list.
  method IndexById(e: Edge, nodes: seq<Node>) returns (fks: seq<Id>, nodeids: map<Id, Node>)
    requires DistinctNodes(nodes)
    modifies nodes
    ensures fks == IdsOfNodes(nodes)
    ensures IndexedBy(nodes, nodeids, OwnerOf(fks))
    ensures forall i | 0 <= i < |nodes| :: nodes[i].one == old(nodes[i].one) && nodes[i].many == old(nodes[i].many)[e := []]
  {
    fks, nodeids := [], map[];
    for i := 0 to |nodes|
      invariant fks == IdsOfNodes(nodes)[..i]
      invariant IndexedBy(nodes, nodeids, OwnerOf(fks))
      invariant forall j | 0 <= j < |nodes| :: nodes[j].one == old(nodes[j].one)
      invariant forall j | 0 <= j < i :: nodes[j].many == old(nodes[j].many)[e := []]
      invariant forall j | i <= j < |nodes| :: nodes[j].many == old(nodes[j].many)
    {
      ghost var before := fks;
      fks := fks + [nodes[i].Id()];
      assert fks[..i] == before;
      nodeids := nodeids[nodes[i].Id() := nodes[i]];
      nodes[i].many := nodes[i].many[e := []];
    }
  }

  // The shares of the nodes after the first k neighbours were appended one by one.
  ghost function Shares(e: Edge, owner: map<Id, nat>, n: nat, children: seq<Entity>, k: nat): (shares: seq<seq<Entity>>)
    requires k <= |children| && forall id | id in owner :: owner[id] < n
    ensures |shares| == n
  {
    if k == 0 then seq(n, _ => [])
    else Dealt(e, owner, Shares(e, owner, n, children, k - 1), children[k - 1])
  }

  ghost function Dealt(e: Edge, owner: map<Id, nat>, shares: seq<seq<Entity>>, child: Entity): (r: seq<seq<Entity>>)
    requires forall id | id in owner :: owner[id] < |shares|
    ensures |r| == |shares|
  {
    var fk := TargetKey(e, child);
    if fk in owner then shares[owner[fk] := shares[owner[fk]] + [child]] else shares
  }

  // Every node holds its share on edge e, over what it held before.
  ghost predicate HoldShares(e: Edge, nodes: seq<Node>, before: seq<map<Edge, seq<Entity>>>, shares: seq<seq<Entity>>)
    requires |before| == |shares| == |nodes|
    reads nodes
  {
    forall i | 0 <= i < |nodes| :: nodes[i].many == before[i][e := shares[i]]
  }

  // Append one neighbour to the node its foreign key names.
  method AppendOne(e: Edge, nodes: seq<Node>, nodeids: map<Id, Node>, n: Entity, ghost owner: map<Id, nat>,
                   ghost before: seq<map<Edge, seq<Entity>>>, ghost shares: seq<seq<Entity>>)
    requires DistinctNodes(nodes) && IndexedBy(nodes, nodeids, owner) && TargetKey(e, n) in owner
    requires |before| == |shares| == |nodes| && HoldShares(e, nodes, before, shares)
    modifies nodes
    ensures HoldShares(e, nodes, before, Dealt(e, owner, shares, n))
    ensures forall i | 0 <= i < |nodes| :: nodes[i].one == old(nodes[i].one)
  {
    var node := nodeids[TargetKey(e, n)];
    node.many := node.many[e := node.many[e] + [n]];
  }

  // Append every neighbour to the node its foreign key names; stop at the first that names none.
  method AppendNeighbours(e: Edge, nodes: seq<Node>, nodeids: map<Id, Node>, children: seq<Entity>,
                          ghost owner: map<Id, nat>, ghost before: seq<map<Edge, seq<Entity>>>)
    returns (stray: Option<Entity>)
    requires DistinctNodes(nodes) && IndexedBy(nodes, nodeids, owner)
    requires |before| == |nodes| && HoldShares(e, nodes, before, seq(|nodes|, _ => []))
    modifies nodes
    ensures forall i | 0 <= i < |nodes| :: nodes[i].one == old(nodes[i].one)
    ensures stray == Unclaimed(e, owner.Keys, children)
    ensures stray == None ==> HoldShares(e, nodes, before, Shares(e, owner, |nodes|, children, |children|))
  {
    for k := 0 to |children|
      invariant Unclaimed(e, owner.Keys, children) == Unclaimed(e, owner.Keys, children[k..])
      invariant forall i | 0 <= i < |nodes| :: nodes[i].one == old(nodes[i].one)
      invariant HoldShares(e, nodes, before, Shares(e, owner, |nodes|, children, k))
    {
      UnclaimedStep(e, owner.Keys, children, k);
      if TargetKey(e, children[k]) !in nodeids {
        return Some(children[k]);
      }
      AppendOne(e, nodes, nodeids, children[k], owner, before, Shares(e, owner, |nodes|, children, k));
    }
    stray := None;
  }

  // The first neighbour whose key is none of the nodes' keys.
  function Unclaimed(e: Edge, keys: set<Id>, children: seq<Entity>): Option<Entity> {
    if children == [] then None
    else if TargetKey(e, children[0]) in keys then Unclaimed(e, keys, children[1..])
    else Some(children[0])
  }

  lemma UnclaimedStep(e: Edge, keys: set<Id>, children: seq<Entity>, k: nat)
    requires k < |children|
    ensures Unclaimed(e, keys, children[k..]) ==
      if TargetKey(e, children[k]) in keys then Unclaimed(e, keys, children[k + 1..]) else Some(children[k])
  {
    assert children[k..][1..] == children[k + 1..];
  }

  lemma {:induction false} UnclaimedIsStray(e: Edge, nodes: seq<Entity>, keys: set<Id>, children: seq<Entity>)
    requires forall x :: x in keys <==> exists i :: 0 <= i < |nodes| && SourceKey(e, nodes[i]) == x
    ensures Unclaimed(e, keys, children) == Stray(e, nodes, children)
  {
    if children != [] { UnclaimedIsStray(e, nodes, keys, children[1..]); }
  }

  lemma NeighboursSnoc(e: Edge, id: Id, children: seq<Entity>, c: Entity)
    ensures Neighbours(e, id, children + [c]) ==
      if TargetKey(e, c) == id then Neighbours(e, id, children) + [c] else Neighbours(e, id, children)
  {
    var p := c => TargetKey(e, c) == id;
    FilterConcat(p, children, [c]);
    FilterCons(p, c, []);
  }

  // The owner of an id ends with all neighbours of that id, in order; any other node with none.
  lemma {:induction false} SharesAreNeighbours(e: Edge, ids: seq<Id>, owner: map<Id, nat>, children: seq<Entity>,
                                              k: nat, i: nat)
    requires i < |ids| && k <= |children|
    requires forall id | id in owner :: owner[id] < |ids| && ids[owner[id]] == id
    requires ids[i] in owner
    ensures Shares(e, owner, |ids|, children, k)[i] ==
      if i == owner[ids[i]] then Neighbours(e, ids[i], children[..k]) else []
    decreases k
  {
    if k > 0 {
      SharesAreNeighbours(e, ids, owner, children, k - 1, i);
      assert children[..k] == children[..k - 1] + [children[k - 1]];
      NeighboursSnoc(e, ids[i], children[..k - 1], children[k - 1]);
    }
  }

  lemma OwnerIsLast(nodes: seq<Entity>, ids: seq<Id>, i: nat)
    requires i < |nodes| == |ids| && forall j | 0 <= j < |nodes| :: ids[j] == EntityId(nodes[j])
    ensures ids[i] in OwnerOf(ids) && (IsLast(nodes, i) <==> i == OwnerOf(ids)[ids[i]])
  {
    OwnerIsLastPosition(ids);
    assert ids[i] in ids;
  }

  // The in-place result is the join that `Attach` describes.
  lemma SharesAreAttached(e: Edge, before: seq<Entity>, children: seq<Entity>)
    requires ToMany(e)
    ensures var owner := OwnerOf(KeysOf(e, before));
      && (forall id | id in owner :: owner[id] < |before|)
      && Unclaimed(e, owner.Keys, children) == Stray(e, before, children)
      && forall i | 0 <= i < |before| :: AttachTo(e, before, i, children)
           == before[i].(many := before[i].many[e := Shares(e, owner, |before|, children, |children|)[i]])
  {
    var ids := KeysOf(e, before);
    var owner := OwnerOf(ids);
    OwnerIsLastPosition(ids);
    forall x { KeysAreSourceKeys(e, before, x); }
    UnclaimedIsStray(e, before, owner.Keys, children);
    assert children[..|children|] == children;
    forall i | 0 <= i < |before| ensures AttachTo(e, before, i, children)
      == before[i].(many := before[i].many[e := Shares(e, owner, |before|, children, |children|)[i]])
    {
      OwnerIsLast(before, ids, i);
      SharesAreNeighbours(e, ids, owner, children, |children|, i);
    }
  }

  // The nodes are `before` with edge e reset to the empty list.
  ghost predicate Reset(e: Edge, nodes: seq<Node>, before: seq<Entity>)
    reads nodes
  {
    && |nodes| == |before|
    && forall i | 0 <= i < |nodes| :: nodes[i].Freeze() == before[i].(many := before[i].many[e := []])
  }

  method PrepareMany(e: Edge, nodes: seq<Node>) returns (fks: seq<Id>, nodeids: map<Id, Node>)
    requires ToMany(e) && DistinctNodes(nodes)
    modifies nodes
    ensures fks == KeysOf(e, old(Freeze(nodes)))
    ensures IndexedBy(nodes, nodeids, OwnerOf(fks)) && Reset(e, nodes, old(Freeze(nodes)))
  {
    fks, nodeids := IndexById(e, nodes);
    assert fks == KeysOf(e, old(Freeze(nodes)));
  }

  // Hand the neighbours of a one-to-many edge to nodes indexed by id.
  method JoinMany(e: Edge, nodes: seq<Node>, nodeids: map<Id, Node>, children: seq<Entity>, ghost before: seq<Entity>)
    returns (err: Option<QueryError>)
    requires ToMany(e) && DistinctNodes(nodes) && Reset(e, nodes, before)
    requires IndexedBy(nodes, nodeids, OwnerOf(KeysOf(e, before)))
    modifies nodes
    ensures Attach(e, before, children) == if err.Some? then Err(err.value) else Ok(Freeze(nodes))
  {
    ghost var owner := OwnerOf(KeysOf(e, before));
    ghost var many := seq(|nodes|, i requires 0 <= i < |nodes| => before[i].many);
    var stray := AppendNeighbours(e, nodes, nodeids, children, owner, many);
    SharesAreAttached(e, before, children);
    if stray.Some? {
      return Some(UnexpectedKey(TargetKey(e, stray.value)));
    }
    err := None;
    assert Freeze(nodes) == Attach(e, before, children).value;
  }

  // ---------- Many to one ----------

  // The positions with each key, in order.
  function GroupsOf(keys: seq<Id>): (groups: map<Id, seq<nat>>)
    ensures forall id :: id in groups <==> id in keys
  {
    if keys == [] then map[]
    else
      var n := |keys| - 1;
      assert keys == keys[..n] + [keys[n]];
      AddTo(GroupsOf(keys[..n]), keys[n], n)
  }

  function AddTo<T>(groups: map<Id, seq<T>>, key: Id, x: T): map<Id, seq<T>> {
    groups[key := (if key in groups then groups[key] else []) + [x]]
  }

  // The groups partition the nodes: a group lists, in order and once each, exactly the nodes with its key.
  lemma GroupGrows(keys: seq<Id>, id: Id, g0: seq<nat>, g: seq<nat>, n: nat)
    requires n + 1 == |keys| && g == if keys[n] == id then g0 + [n] else g0
    requires forall i :: i in g0 <==> 0 <= i < n && keys[i] == id
    ensures forall i :: i in g <==> 0 <= i < |keys| && keys[i] == id
  {
  }

  lemma {:induction false} GroupsPartition(keys: seq<Id>, id: Id)
    requires id in keys
    ensures var g := GroupsOf(keys)[id];
      && (forall i :: i in g <==> 0 <= i < |keys| && keys[i] == id)
      && (forall a, b | 0 <= a < b < |g| :: g[a] < g[b])
  {
    var n := |keys| - 1;
    assert keys == keys[..n] + [keys[n]];
    var g := GroupsOf(keys)[id];
    if id in keys[..n] {
      GroupsPartition(keys[..n], id);
      var g0 := GroupsOf(keys[..n])[id];
      assert g == if keys[n] == id then g0 + [n] else g0;
      assert forall a | 0 <= a < |g0| :: g0[a] in g0 && g0[a] < n;
      GroupGrows(keys, id, g0, g, n);
    } else {
      assert g == [n];
    }
  }

  ghost predicate GroupedBy(nodes: seq<Node>, nodeids: map<Id, seq<Node>>, groups: map<Id, seq<nat>>) {
    && nodeids.Keys == groups.Keys
    && forall id | id in groups ::
      && |nodeids[id]| == |groups[id]|
      && forall j | 0 <= j < |groups[id]| :: groups[id][j] < |nodes| && nodeids[id][j] == nodes[groups[id][j]]
  }

  lemma GroupOneMore(nodes: seq<Node>, nodeids: map<Id, seq<Node>>, groups: map<Id, seq<nat>>, key: Id, i: nat)
    requires GroupedBy(nodes, nodeids, groups) && i < |nodes|
    ensures GroupedBy(nodes, AddTo(nodeids, key, nodes[i]), AddTo(groups, key, i))
  {
  }

  ghost function NodeKeys(e: Edge, nodes: seq<Node>): (keys: seq<Id>)
    requires !ToMany(e)
    ensures |keys| == |nodes| && forall i | 0 <= i < |nodes| :: keys[i] == KeyOf(nodes[i].fields, ForeignKey(e))
  {
    seq(|nodes|, i requires 0 <= i < |nodes| => KeyOf(nodes[i].fields, ForeignKey(e)))
  }

  lemma OneMoreKey(keys: seq<Id>, i: nat)
    requires i < |keys|
    ensures GroupsOf(keys[..i + 1]) == AddTo(GroupsOf(keys[..i]), keys[i], i)
    ensures Dedup(keys[..i + 1]) == Dedup(keys[..i]) + if keys[i] in Dedup(keys[..i]) then [] else [keys[i]]
  {
    assert keys[..i + 1][..i] == keys[..i];
  }

  // Group the nodes by foreign key and collect each foreign key once.
  method GroupByKey(e: Edge, nodes: seq<Node>) returns (ids: seq<Id>, nodeids: map<Id, seq<Node>>)
    requires !ToMany(e)
    ensures ids == Dedup(NodeKeys(e, nodes))
    ensures GroupedBy(nodes, nodeids, GroupsOf(NodeKeys(e, nodes)))
  {
    ids, nodeids := [], map[];
    ghost var keys := NodeKeys(e, nodes);
    for i := 0 to |nodes|
      invariant ids == Dedup(keys[..i])
      invariant GroupedBy(nodes, nodeids, GroupsOf(keys[..i]))
    {
      var fk := KeyOf(nodes[i].fields, ForeignKey(e));
      if fk !in nodeids {
        ids := ids + [fk];
      }
      GroupOneMore(nodes, nodeids, GroupsOf(keys[..i]), fk, i);
      nodeids := AddTo(nodeids, fk, nodes[i]);
      OneMoreKey(keys, i);
    }
    assert keys[..|nodes|] == keys;
  }

  function WithLast(one: map<Edge, Entity>, e: Edge, ns: seq<Entity>): map<Edge, Entity> {
    if ns == [] then one else one[e := ns[|ns| - 1]]
  }

  // Every node points to the last of the neighbours in `seen` that has its key.
  ghost predicate HoldLast(e: Edge, nodes: seq<Node>, before: seq<map<Edge, Entity>>, keys: seq<Id>, seen: seq<Entity>)
    requires |before| == |keys| == |nodes|
    reads nodes
  {
    forall i | 0 <= i < |nodes| :: nodes[i].one == WithLast(before[i], e, Neighbours(e, keys[i], seen))
  }

  // Assign neighbour n to every node of its group.
  method AssignGroup(e: Edge, nodes: seq<Node>, group: seq<Node>, ghost positions: seq<nat>, n: Entity)
    requires DistinctNodes(nodes) && |group| == |positions|
    requires forall j | 0 <= j < |group| :: positions[j] < |nodes| && group[j] == nodes[positions[j]]
    modifies nodes
    ensures forall i | 0 <= i < |nodes| :: nodes[i].many == old(nodes[i].many)
    ensures forall i | 0 <= i < |nodes| ::
      nodes[i].one == if i in positions then old(nodes[i].one)[e := n] else old(nodes[i].one)
  {
    for j := 0 to |group|
      invariant forall i | 0 <= i < |nodes| :: nodes[i].many == old(nodes[i].many)
      invariant forall i | 0 <= i < |nodes| ::
        nodes[i].one == if i in positions[..j] then old(nodes[i].one)[e := n] else old(nodes[i].one)
    {
      group[j].one := group[j].one[e := n];
    }
    assert positions[..|group|] == positions;
  }

  method AssignOne(e: Edge, nodes: seq<Node>, nodeids: map<Id, seq<Node>>, n: Entity,
                   ghost keys: seq<Id>, ghost before: seq<map<Edge, Entity>>, ghost seen: seq<Entity>)
    requires DistinctNodes(nodes) && |keys| == |before| == |nodes|
    requires GroupedBy(nodes, nodeids, GroupsOf(keys)) && TargetKey(e, n) in nodeids
    requires HoldLast(e, nodes, before, keys, seen)
    modifies nodes
    ensures forall i | 0 <= i < |nodes| :: nodes[i].many == old(nodes[i].many)
    ensures HoldLast(e, nodes, before, keys, seen + [n])
  {
    var id := TargetKey(e, n);
    GroupsPartition(keys, id);
    AssignGroup(e, nodes, nodeids[id], GroupsOf(keys)[id], n);
    forall i | 0 <= i < |nodes| ensures nodes[i].one == WithLast(before[i], e, Neighbours(e, keys[i], seen + [n])) {
      LastOneMore(before[i], e, keys[i], seen, n);
    }
  }

  lemma LastOneMore(one: map<Edge, Entity>, e: Edge, key: Id, seen: seq<Entity>, n: Entity)
    ensures WithLast(one, e, Neighbours(e, key, seen + [n])) ==
      if TargetKey(e, n) == key then WithLast(one, e, Neighbours(e, key, seen))[e := n]
      else WithLast(one, e, Neighbours(e, key, seen))
  {
    NeighboursSnoc(e, key, seen, n);
  }

  // Assign every neighbour to the nodes that point to it; stop at the first that no node points to.
  method AssignNeighbours(e: Edge, nodes: seq<Node>, nodeids: map<Id, seq<Node>>, children: seq<Entity>,
                          ghost keys: seq<Id>, ghost before: seq<map<Edge, Entity>>)
    returns (stray: Option<Entity>)
    requires DistinctNodes(nodes) && |keys| == |before| == |nodes|
    requires GroupedBy(nodes, nodeids, GroupsOf(keys)) && HoldLast(e, nodes, before, keys, [])
    modifies nodes
    ensures forall i | 0 <= i < |nodes| :: nodes[i].many == old(nodes[i].many)
    ensures stray == Unclaimed(e, nodeids.Keys, children)
    ensures stray == None ==> HoldLast(e, nodes, before, keys, children)
  {
    for k := 0 to |children|
      invariant forall i | 0 <= i < |nodes| :: nodes[i].many == old(nodes[i].many)
      invariant Unclaimed(e, nodeids.Keys, children) == Unclaimed(e, nodeids.Keys, children[k..])
      invariant HoldLast(e, nodes, before, keys, children[..k])
    {
      if TargetKey(e, children[k]) !in nodeids {
        return Some(children[k]);
      }
      AssignOne(e, nodes, nodeids, children[k], keys, before, children[..k]);
      assert children[..k + 1] == children[..k] + [children[k]];
    }
    assert children[..|children|] == children;
    stray := None;
  }

  // The in-place result is the join that `Attach` describes.
  lemma LastIsAttached(e: Edge, before: seq<Entity>, children: seq<Entity>)
    requires !ToMany(e)
    ensures var keys := KeysOf(e, before);
      && Unclaimed(e, GroupsOf(keys).Keys, children) == Stray(e, before, children)
      && forall i | 0 <= i < |before| :: AttachTo(e, before, i, children)
           == before[i].(one := WithLast(before[i].one, e, Neighbours(e, keys[i], children)))
  {
    forall x { KeysAreSourceKeys(e, before, x); }
    UnclaimedIsStray(e, before, GroupsOf(KeysOf(e, before)).Keys, children);
  }

  ghost function Ones(ns: seq<Entity>): (r: seq<map<Edge, Entity>>)
    ensures |r| == |ns| && forall i | 0 <= i < |ns| :: r[i] == ns[i].one
  {
    seq(|ns|, i requires 0 <= i < |ns| => ns[i].one)
  }

  // The node is the entity it was, but for what it points to.
  ghost predicate SameButOne(n: Node, before: Entity)
    reads n
  {
    n.kind == before.kind && n.fields == before.fields && n.loaded == before.loaded && n.many == before.many
  }

  lemma FrozenIsAttached(e: Edge, nodes: seq<Node>, before: seq<Entity>, children: seq<Entity>)
    requires !ToMany(e) && |nodes| == |before| && Stray(e, before, children).None?
    requires forall i | 0 <= i < |nodes| :: SameButOne(nodes[i], before[i])
    requires HoldLast(e, nodes, Ones(before), KeysOf(e, before), children)
    ensures Attach(e, before, children) == Ok(Freeze(nodes))
  {
    LastIsAttached(e, before, children);
    forall i | 0 <= i < |nodes| ensures nodes[i].Freeze() == AttachTo(e, before, i, children) {
      assert SameButOne(nodes[i], before[i]);
    }
    assert Freeze(nodes) == Attach(e, before, children).value;
  }

  // Hand the neighbours of a many-to-one edge to nodes grouped by foreign key.
  method JoinOne(e: Edge, nodes: seq<Node>, nodeids: map<Id, seq<Node>>, children: seq<Entity>, ghost before: seq<Entity>)
    returns (err: Option<QueryError>)
    requires !ToMany(e) && DistinctNodes(nodes) && Freeze(nodes) == before
    requires GroupedBy(nodes, nodeids, GroupsOf(KeysOf(e, before)))
    modifies nodes
    ensures Attach(e, before, children) == if err.Some? then Err(err.value) else Ok(Freeze(nodes))
  {
    ghost var keys, ones := KeysOf(e, before), Ones(before);
    forall i | 0 <= i < |nodes| ensures SameButOne(nodes[i], before[i]) && nodes[i].one == ones[i] {
      assert Freeze(nodes)[i] == nodes[i].Freeze();
    }
    var stray := AssignNeighbours(e, nodes, nodeids, children, keys, ones);
    assert stray == Stray(e, before, children) by { LastIsAttached(e, before, children); }
    if stray.Some? {
      err := Some(UnexpectedKey(TargetKey(e, stray.value)));
    } else {
      err := None;
      FrozenIsAttached(e, nodes, before, children);
    }
  }
}
