/** Laws of eager loading on every store and query tree, limits included. */
module EdgeLaws {
  import opened Wrappers
  import opened Lists
  import opened Store
  import opened EagerLoad
  import opened NestedJoin

  // ---------- Edges do not interfere ----------

  // Everything but the edges.
  ghost predicate SameBase(a: Entity, b: Entity) {
    a.kind == b.kind && a.fields == b.fields && a.loaded == b.loaded
  }

  ghost predicate SameBases(a: seq<Entity>, b: seq<Entity>) {
    |a| == |b| && forall i | 0 <= i < |a| :: SameBase(a[i], b[i])
  }

  // The two entities have the same neighbours along e.
  ghost predicate SameEdge(e: Edge, a: Entity, b: Entity) {
    && (e in a.many <==> e in b.many) && (e in a.many ==> a.many[e] == b.many[e])
    && (e in a.one <==> e in b.one) && (e in a.one ==> a.one[e] == b.one[e])
  }

  lemma KeysDependOnBases(e: Edge, a: seq<Entity>, b: seq<Entity>)
    requires SameBases(a, b)
    ensures KeysOf(e, a) == KeysOf(e, b)
  {
    forall i | 0 <= i < |a| ensures SourceKey(e, a[i]) == SourceKey(e, b[i]) {}
  }

  lemma AttachDependsOnBases(e: Edge, a: seq<Entity>, b: seq<Entity>, i: nat, children: seq<Entity>)
    requires SameBases(a, b) && i < |a| && SameEdge(e, a[i], b[i])
    ensures SameEdge(e, AttachTo(e, a, i, children), AttachTo(e, b, i, children))
  {
    assert SourceKey(e, a[i]) == SourceKey(e, b[i]);
    assert IsLast(a, i) <==> IsLast(b, i) by {
      assert forall j | 0 <= j < |a| :: EntityId(a[j]) == EntityId(b[j]);
    }
  }

  // The neighbours one loader fetches for the nodes.
  function Fetched(db: Db, q: Tree, e: Edge, nodes: seq<Entity>): Result<seq<Entity>, QueryError>
    requires e in q.edges
  {
    Run(db, Primed(e, q.edges[e].own, nodes), q.edges[e]).nodes
  }

  // After the loaders of `es`, node i has along e exactly the join of e, computed as if e were loaded
  // alone, if e is one of them and was requested; and what it had before otherwise.
  ghost predicate JoinedAt(db: Db, q: Tree, es: seq<Edge>, nodes: seq<Entity>, out: seq<Entity>, e: Edge, i: nat)
    requires i < |out| == |nodes|
  {
    if e in es && e in q.edges then
      Fetched(db, q, e, nodes).Ok? && SameEdge(e, out[i], AttachTo(e, nodes, i, Fetched(db, q, e, nodes).value))
    else SameEdge(e, out[i], nodes[i])
  }

  ghost predicate Joined(db: Db, q: Tree, es: seq<Edge>, nodes: seq<Entity>, out: seq<Entity>) {
    SameBases(out, nodes) && forall e, i | 0 <= i < |nodes| :: JoinedAt(db, q, es, nodes, out, e, i)
  }

  lemma {:induction false} EdgesCompose(db: Db, q: Tree, es: seq<Edge>, nodes: seq<Entity>, edges: map<Edge, Tree>)
    requires forall i, j | 0 <= i < j < |es| :: es[i] != es[j]
    requires RunEdges(db, q, es, nodes, edges).nodes.Ok?
    ensures Joined(db, q, es, nodes, RunEdges(db, q, es, nodes, edges).nodes.value)
    decreases |es|
  {
    if es != [] {
      var e, rest := es[0], es[1..];
      var out := RunEdges(db, q, es, nodes, edges).nodes.value;
      if e in q.edges {
        var primed := Primed(e, q.edges[e].own, nodes);
        var nodes' := Attach(e, nodes, Fetched(db, q, e, nodes).value).value;
        EdgesCompose(db, q, rest, nodes', edges[e := Tree(primed, Run(db, primed, q.edges[e]).edges)]);
        JoinedByFirst(db, q, es, nodes, nodes', out);
      } else {
        EdgesCompose(db, q, rest, nodes, edges);
        JoinedBySkipping(db, q, es, nodes, out);
      }
    }
  }

  lemma JoinedByFirst(db: Db, q: Tree, es: seq<Edge>, nodes: seq<Entity>, nodes': seq<Entity>, out: seq<Entity>)
    requires es != [] && es[0] in q.edges && es[0] !in es[1..]
    requires Fetched(db, q, es[0], nodes).Ok? && Attach(es[0], nodes, Fetched(db, q, es[0], nodes).value) == Ok(nodes')
    requires Joined(db, q, es[1..], nodes', out)
    ensures Joined(db, q, es, nodes, out)
  {
    AttachKeepsOthers(es[0], nodes, Fetched(db, q, es[0], nodes).value, nodes');
    forall f, i | 0 <= i < |nodes| ensures JoinedAt(db, q, es, nodes, out, f, i) {
      assert JoinedAt(db, q, es[1..], nodes', out, f, i);
      JoinedFirst(db, q, es, nodes, nodes', out, f, i);
    }
  }

  lemma JoinedBySkipping(db: Db, q: Tree, es: seq<Edge>, nodes: seq<Entity>, out: seq<Entity>)
    requires es != [] && es[0] !in q.edges && Joined(db, q, es[1..], nodes, out)
    ensures Joined(db, q, es, nodes, out)
  {
    forall f, i | 0 <= i < |nodes| ensures JoinedAt(db, q, es, nodes, out, f, i) {
      assert JoinedAt(db, q, es[1..], nodes, out, f, i);
      assert f in es <==> f == es[0] || f in es[1..];
    }
  }

  lemma FetchedDependsOnBases(db: Db, q: Tree, e: Edge, a: seq<Entity>, b: seq<Entity>)
    requires SameBases(a, b) && e in q.edges
    ensures Fetched(db, q, e, a) == Fetched(db, q, e, b)
  {
    KeysDependOnBases(e, a, b);
  }

  lemma AttachToKeepsOthers(e: Edge, nodes: seq<Entity>, i: nat, children: seq<Entity>, f: Edge)
    requires i < |nodes|
    ensures SameBase(AttachTo(e, nodes, i, children), nodes[i])
    ensures f != e ==> SameEdge(f, AttachTo(e, nodes, i, children), nodes[i])
  {
  }

  // A join leaves the entities, and their other edges, alone.
  lemma AttachKeepsOthers(e: Edge, nodes: seq<Entity>, children: seq<Entity>, nodes': seq<Entity>)
    requires Attach(e, nodes, children) == Ok(nodes')
    ensures SameBases(nodes', nodes)
    ensures forall i | 0 <= i < |nodes| :: nodes'[i] == AttachTo(e, nodes, i, children)
    ensures forall f, i | 0 <= i < |nodes| && f != e :: SameEdge(f, nodes'[i], nodes[i])
  {
    forall f, i | 0 <= i < |nodes|
      ensures SameBase(nodes'[i], nodes[i]) && (f != e ==> SameEdge(f, nodes'[i], nodes[i]))
    {
      AttachToKeepsOthers(e, nodes, i, children, f);
    }
  }

  lemma JoinedLater(db: Db, q: Tree, e: Edge, nodes: seq<Entity>, nodes': seq<Entity>, out: Entity, i: nat)
    requires e in q.edges && SameBases(nodes', nodes) && i < |nodes| && SameEdge(e, nodes'[i], nodes[i])
    requires Fetched(db, q, e, nodes').Ok? && SameEdge(e, out, AttachTo(e, nodes', i, Fetched(db, q, e, nodes').value))
    ensures Fetched(db, q, e, nodes).Ok? && SameEdge(e, out, AttachTo(e, nodes, i, Fetched(db, q, e, nodes).value))
  {
    FetchedDependsOnBases(db, q, e, nodes', nodes);
    var children := Fetched(db, q, e, nodes).value;
    AttachDependsOnBases(e, nodes', nodes, i, children);
    SameEdgeTransitive(e, out, AttachTo(e, nodes', i, children), AttachTo(e, nodes, i, children));
  }

  lemma JoinedFirst(db: Db, q: Tree, es: seq<Edge>, nodes: seq<Entity>, nodes': seq<Entity>, out: seq<Entity>,
                    e: Edge, i: nat)
    requires es != [] && es[0] in q.edges && es[0] !in es[1..]
    requires Fetched(db, q, es[0], nodes).Ok? && Attach(es[0], nodes, Fetched(db, q, es[0], nodes).value) == Ok(nodes')
    requires i < |nodes| && SameBases(out, nodes') && JoinedAt(db, q, es[1..], nodes', out, e, i)
    ensures JoinedAt(db, q, es, nodes, out, e, i)
  {
    var first := Fetched(db, q, es[0], nodes).value;
    assert SameBases(nodes', nodes) && nodes'[i] == AttachTo(es[0], nodes, i, first) by {
      AttachKeepsOthers(es[0], nodes, first, nodes');
    }
    AttachToKeepsOthers(es[0], nodes, i, first, e);
    assert e in es <==> e == es[0] || e in es[1..];
    if e == es[0] {
      assert SameEdge(e, out[i], nodes'[i]);
    } else if e in es && e in q.edges {
      JoinedLater(db, q, e, nodes, nodes', out[i], i);
    } else {
      SameEdgeTransitive(e, out[i], nodes'[i], nodes[i]);
    }
  }

  lemma SameEdgeTransitive(e: Edge, a: Entity, b: Entity, c: Entity)
    requires SameEdge(e, a, b) && SameEdge(e, b, c)
    ensures SameEdge(e, a, c)
  {
  }

  function Decoded(b: Builder, q: Tree, rows: seq<Row>): (ns: seq<Entity>)
    ensures |ns| == |rows|
  {
    DecodeAll(b.kind, rows, SpecColumns(b, q.edges.Keys), q.edges.Keys)
  }

  lemma RunIsEdges(db: Db, b: Builder, q: Tree, rows: seq<Row>)
    requires Fetch(db, b) == Ok(rows) && rows != [] && Run(db, b, q).nodes.Ok?
    ensures Run(db, b, q) == RunEdges(db, q, EdgesOf(b.kind), Decoded(b, q, rows), q.edges)
  {
  }

  // sqlAll over a non-empty result: every requested edge gets exactly its join, every other edge nothing,
  // and the loaded types are exactly the requested edges.
  lemma RunComposes(db: Db, b: Builder, q: Tree, rows: seq<Row>)
    requires Fetch(db, b) == Ok(rows) && rows != [] && Run(db, b, q).nodes.Ok?
    ensures var out := Run(db, b, q).nodes.value;
      && Joined(db, q, EdgesOf(b.kind), Decoded(b, q, rows), out)
      && forall i | 0 <= i < |rows| :: out[i].loaded == q.edges.Keys
           && forall e | e !in q.edges :: e !in out[i].many && e !in out[i].one
  {
    var nodes := Decoded(b, q, rows);
    RunIsEdges(db, b, q, rows);
    EdgesAreDistinct(b.kind);
    EdgesCompose(db, q, EdgesOf(b.kind), nodes, q.edges);
    var out := Run(db, b, q).nodes.value;
    forall i | 0 <= i < |rows|
      ensures out[i].loaded == q.edges.Keys && forall e | e !in q.edges :: e !in out[i].many && e !in out[i].one
    {
      assert nodes[i].many == map[] && nodes[i].one == map[] && SameBase(out[i], nodes[i]);
      forall e | e !in q.edges ensures e !in out[i].many && e !in out[i].one {
        assert JoinedAt(db, q, EdgesOf(b.kind), nodes, out, e, i);
      }
    }
  }

  // A run returns one entity per fetched row, with that row's selected columns.
  lemma RunKeepsRows(db: Db, b: Builder, q: Tree, rows: seq<Row>)
    requires Fetch(db, b) == Ok(rows) && Run(db, b, q).nodes.Ok?
    ensures SameBases(Run(db, b, q).nodes.value, Decoded(b, q, rows))
  {
    if rows != [] { RunComposes(db, b, q, rows); }
  }

  // ---------- Conservation ----------

  ghost function TotalNeighbours(e: Edge, nodes: seq<Entity>, children: seq<Entity>): nat {
    if nodes == [] then 0
    else |Neighbours(e, SourceKey(e, nodes[0]), children)| + TotalNeighbours(e, nodes[1..], children)
  }

  // The neighbours whose key is among the given ones.
  function Claimed(e: Edge, keys: seq<Id>, children: seq<Entity>): seq<Entity> {
    Filter(c => TargetKey(e, c) in keys, children)
  }

  lemma {:induction false} ClaimedSplit(e: Edge, key: Id, keys: seq<Id>, children: seq<Entity>)
    requires key !in keys
    ensures |Claimed(e, [key] + keys, children)| == |Neighbours(e, key, children)| + |Claimed(e, keys, children)|
  {
    if children != [] { ClaimedSplit(e, key, keys, children[1..]); }
  }

  lemma {:induction false} TotalIsClaimed(e: Edge, nodes: seq<Entity>, children: seq<Entity>)
    requires DistinctBy(n => SourceKey(e, n), nodes)
    ensures TotalNeighbours(e, nodes, children) == |Claimed(e, KeysOf(e, nodes), children)|
  {
    if nodes == [] {
      FilterNone(c => TargetKey(e, c) in KeysOf(e, nodes), children);
    } else {
      var key, rest := SourceKey(e, nodes[0]), nodes[1..];
      TotalIsClaimed(e, rest, children);
      assert KeysOf(e, nodes) == [key] + KeysOf(e, rest);
      forall j | 0 <= j < |rest| ensures KeysOf(e, rest)[j] != key {
        assert rest[j] == nodes[j + 1];
      }
      ClaimedSplit(e, key, KeysOf(e, rest), children);
    }
  }

  lemma {:induction false} FilterNone<T>(p: T -> bool, s: seq<T>)
    requires forall x | x in s :: !p(x)
    ensures Filter(p, s) == []
  {
    if s != [] { FilterNone(p, s[1..]); }
  }

  // Every fetched neighbour lands in exactly one node's list: none is lost and none is repeated.
  lemma NeighboursAreConserved(e: Edge, nodes: seq<Entity>, children: seq<Entity>)
    requires ToMany(e) && DistinctBy(n => EntityId(n), nodes) && Attach(e, nodes, children).Ok?
    ensures TotalNeighbours(e, nodes, children) == |children|
    ensures forall i | 0 <= i < |nodes| ::
      Attach(e, nodes, children).value[i].many[e] == Neighbours(e, EntityId(nodes[i]), children)
  {
    assert DistinctBy(n => SourceKey(e, n), nodes) by {
      assert forall i, j | 0 <= i < j < |nodes| :: (n => EntityId(n))(nodes[i]) != (n => EntityId(n))(nodes[j]);
    }
    TotalIsClaimed(e, nodes, children);
    forall c | c in children ensures TargetKey(e, c) in KeysOf(e, nodes) {
      KeysAreSourceKeys(e, nodes, TargetKey(e, c));
    }
    FilterAll(c => TargetKey(e, c) in KeysOf(e, nodes), children);
    forall i | 0 <= i < |nodes| ensures IsLast(nodes, i) {
      forall j | i < j < |nodes| ensures EntityId(nodes[j]) != EntityId(nodes[i]) {
        assert (n => EntityId(n))(nodes[i]) != (n => EntityId(n))(nodes[j]);
      }
    }
  }

  // A limit on a child builder bounds the neighbours of all nodes together, not those of each node.
  lemma ChildLimitIsShared(db: Db, q: Tree, e: Edge, nodes: seq<Entity>)
    requires e in q.edges && ToMany(e) && GetOr(q.edges[e].own.limit, 0) > 0
    requires DistinctBy(n => EntityId(n), nodes)
    requires Fetched(db, q, e, nodes).Ok? && Attach(e, nodes, Fetched(db, q, e, nodes).value).Ok?
    ensures TotalNeighbours(e, nodes, Fetched(db, q, e, nodes).value) <= q.edges[e].own.limit.value
  {
    var children := Fetched(db, q, e, nodes).value;
    var primed := Primed(e, q.edges[e].own, nodes);
    NeighboursAreConserved(e, nodes, children);
    RunKeepsRows(db, primed, q.edges[e], Fetch(db, primed).value);
  }

  // ---------- Keys survive projection ----------

  lemma PrimedAsksForKeys(e: Edge, child: Tree, nodes: seq<Entity>)
    requires child.own.kind == Target(e)
    ensures var cs := SpecColumns(Primed(e, child.own, nodes), child.edges.Keys);
      IdColumn in cs && JoinColumn(e) in cs
  {
    var primed := Primed(e, child.own, nodes);
    PrimedKeepsKey(e, child.own, child.edges.Keys);
    assert SpecColumns(primed, child.edges.Keys) == SpecColumns(KeyField(e, child.own), child.edges.Keys);
    if primed.fields == [] {
      assert ValidColumn(primed.kind, IdColumn);
    }
  }

  // Whatever fields the child selects, a fetched neighbour has the id and the join key of its row.
  lemma FetchedKeepKeys(db: Db, q: Tree, e: Edge, nodes: seq<Entity>)
    requires e in q.edges && q.edges[e].own.kind == Target(e)
    requires Fetched(db, q, e, nodes).Ok?
    ensures Fetch(db, Primed(e, q.edges[e].own, nodes)).Ok?
    ensures var rows := Fetch(db, Primed(e, q.edges[e].own, nodes)).value;
      var children := Fetched(db, q, e, nodes).value;
      && |children| == |rows|
      && forall i | 0 <= i < |rows| :: EntityId(children[i]) == KeyOf(rows[i], IdColumn)
           && TargetKey(e, children[i]) == KeyOf(rows[i], JoinColumn(e))
  {
    var child := q.edges[e];
    var primed := Primed(e, child.own, nodes);
    var rows := Fetch(db, primed).value;
    var cs := SpecColumns(primed, child.edges.Keys);
    RunKeepsRows(db, primed, child, rows);
    PrimedAsksForKeys(e, child, nodes);
    var children := Fetched(db, q, e, nodes).value;
    forall i | 0 <= i < |rows|
      ensures EntityId(children[i]) == KeyOf(rows[i], IdColumn) && TargetKey(e, children[i]) == KeyOf(rows[i], JoinColumn(e))
    {
      assert SameBase(children[i], Decoded(primed, child, rows)[i]);
      ProjectedKeepsKeys(e, children[i], rows[i], cs);
    }
  }

  lemma ProjectedKeepsKeys(e: Edge, n: Entity, row: Row, cs: seq<Column>)
    requires n.fields == Project(row, cs) && IdColumn in cs && JoinColumn(e) in cs
    ensures EntityId(n) == KeyOf(row, IdColumn) && TargetKey(e, n) == KeyOf(row, JoinColumn(e))
  {
    ProjectKeeps(row, cs, IdColumn);
    ProjectKeeps(row, cs, JoinColumn(e));
  }
}
