/** Selecting columns on an eager-loaded query changes what its entities show, never which entities are joined. */
module Projections {
  import opened Wrappers
  import opened Lists
  import opened Store
  import opened EagerLoad
  import opened NestedJoin
  import opened EdgeLaws

  // The child of e selecting other fields.
  function WithFields(q: Tree, e: Edge, fields: seq<Column>): Tree
    requires e in q.edges
  {
    q.(edges := q.edges[e := q.edges[e].(own := q.edges[e].own.(fields := fields))])
  }

  lemma {:induction false} SameKeysSameNeighbours(e: Edge, id: Id, a: seq<Entity>, b: seq<Entity>)
    requires |a| == |b|
    requires forall i | 0 <= i < |a| :: EntityId(a[i]) == EntityId(b[i]) && TargetKey(e, a[i]) == TargetKey(e, b[i])
    ensures Map(n => EntityId(n), Neighbours(e, id, a)) == Map(n => EntityId(n), Neighbours(e, id, b))
  {
    if a != [] {
      assert forall i | 0 <= i < |a[1..]| :: a[1..][i] == a[i + 1] && b[1..][i] == b[i + 1];
      SameKeysSameNeighbours(e, id, a[1..], b[1..]);
      MapCons(n => EntityId(n), a[0], Neighbours(e, id, a[1..]));
      MapCons(n => EntityId(n), b[0], Neighbours(e, id, b[1..]));
    }
  }

  // ---------- A projected load succeeds like the full one ----------

  // The nodes join by the same keys along every edge of q.
  ghost predicate SameSourceKeys(q: Tree, a: seq<Entity>, b: seq<Entity>) {
    |a| == |b| && forall f, i | f in q.edges && 0 <= i < |a| :: SourceKey(f, a[i]) == SourceKey(f, b[i])
  }

  lemma {:induction false} StrayDependsOnKeys(e: Edge, a: seq<Entity>, b: seq<Entity>, children: seq<Entity>)
    requires |a| == |b| && forall i | 0 <= i < |a| :: SourceKey(e, a[i]) == SourceKey(e, b[i])
    ensures Stray(e, a, children) == Stray(e, b, children)
  {
    if children != [] {
      var key := TargetKey(e, children[0]);
      assert (exists i | 0 <= i < |a| :: SourceKey(e, a[i]) == key)
        <==> (exists i | 0 <= i < |b| :: SourceKey(e, b[i]) == key);
      StrayDependsOnKeys(e, a, b, children[1..]);
    }
  }

  lemma AttachKeepsKeys(q: Tree, e: Edge, a: seq<Entity>, b: seq<Entity>, children: seq<Entity>)
    requires SameSourceKeys(q, a, b) && e in q.edges
    ensures Attach(e, a, children).Ok? <==> Attach(e, b, children).Ok?
    ensures Attach(e, a, children).Ok? ==>
      SameSourceKeys(q, Attach(e, a, children).value, Attach(e, b, children).value)
  {
    StrayDependsOnKeys(e, a, b, children);
    forall f, i | f in q.edges && 0 <= i < |a|
      ensures SourceKey(f, AttachTo(e, a, i, children)) == SourceKey(f, AttachTo(e, b, i, children))
    {
      AttachToKeepsKey(f, e, a, i, children);
      AttachToKeepsKey(f, e, b, i, children);
    }
  }

  lemma AttachToKeepsKey(f: Edge, e: Edge, nodes: seq<Entity>, i: nat, children: seq<Entity>)
    requires i < |nodes|
    ensures SourceKey(f, AttachTo(e, nodes, i, children)) == SourceKey(f, nodes[i])
  {
  }

  // Whether the loaders succeed depends on the nodes' keys only.
  lemma {:induction false} EdgesDependOnKeys(db: Db, q: Tree, es: seq<Edge>, a: seq<Entity>, b: seq<Entity>,
                                             edges: map<Edge, Tree>, edges': map<Edge, Tree>)
    requires SameSourceKeys(q, a, b)
    ensures RunEdges(db, q, es, a, edges).nodes.Ok? <==> RunEdges(db, q, es, b, edges').nodes.Ok?
    decreases |es|
  {
    if es != [] {
      var e, rest := es[0], es[1..];
      if e !in q.edges {
        EdgesDependOnKeys(db, q, rest, a, b, edges, edges');
      } else {
        assert KeysOf(e, a) == KeysOf(e, b);
        var primed := Primed(e, q.edges[e].own, a);
        var r := Run(db, primed, q.edges[e]);
        if r.nodes.Ok? {
          AttachKeepsKeys(q, e, a, b, r.nodes.value);
          if Attach(e, a, r.nodes.value).Ok? {
            EdgesDependOnKeys(db, q, rest, Attach(e, a, r.nodes.value).value, Attach(e, b, r.nodes.value).value,
                              edges[e := Tree(primed, r.edges)], edges'[e := Tree(primed, r.edges)]);
          }
        }
      }
    }
  }

  lemma DecodedKeepsKey(b: Builder, q: Tree, rows: seq<Row>, f: Edge, i: nat)
    requires i < |rows| && f in q.edges && Source(f) == b.kind
    ensures SourceKey(f, Decoded(b, q, rows)[i]) == RowKey(f, rows[i])
  {
    var cs := SpecColumns(b, q.edges.Keys);
    SpecKeepsKeys(b, q.edges.Keys, f);
    ProjectKeeps(rows[i], cs, if ToMany(f) then IdColumn else ForeignKey(f));
  }

  // A run that succeeds with one valid selection succeeds with every valid selection.
  lemma ProjectedRunSucceeds(db: Db, b: Builder, b': Builder, q: Tree)
    requires forall f | f in q.edges :: Source(f) == b.kind
    requires b'.kind == b.kind && Fetch(db, b') == Fetch(db, b) && InvalidFieldIn(b'.kind, b'.fields).None?
    requires Run(db, b, q).nodes.Ok?
    ensures Run(db, b', q).nodes.Ok?
  {
    var rows := Fetch(db, b).value;
    if rows != [] {
      DecodedHaveSameKeys(b, b', q, rows);
      EdgesDependOnKeys(db, q, EdgesOf(b.kind), Decoded(b, q, rows), Decoded(b', q, rows), q.edges, q.edges);
      RunLoadsEdges(db, b, q, rows);
      RunLoadsEdges(db, b', q, rows);
    }
  }

  lemma DecodedHaveSameKeys(b: Builder, b': Builder, q: Tree, rows: seq<Row>)
    requires b'.kind == b.kind && forall f | f in q.edges :: Source(f) == b.kind
    ensures SameSourceKeys(q, Decoded(b, q, rows), Decoded(b', q, rows))
  {
    forall f, i | f in q.edges && 0 <= i < |rows|
      ensures SourceKey(f, Decoded(b, q, rows)[i]) == SourceKey(f, Decoded(b', q, rows)[i])
    {
      DecodedKeepsKey(b, q, rows, f, i);
      DecodedKeepsKey(b', q, rows, f, i);
    }
  }

  lemma RunLoadsEdges(db: Db, b: Builder, q: Tree, rows: seq<Row>)
    requires Fetch(db, b) == Ok(rows) && rows != [] && InvalidFieldIn(b.kind, b.fields).None?
    ensures Run(db, b, q) == RunEdges(db, q, EdgesOf(b.kind), Decoded(b, q, rows), q.edges)
  {
  }

  // Every valid selection on the inner query leaves the join as it is: the load succeeds if it did before, and
  // every node gets neighbours with the same ids in the same order.
  lemma ProjectionKeepsJoin(db: Db, q: Tree, e: Edge, nodes: seq<Entity>, fields: seq<Column>, id: Id)
    requires e in q.edges && q.edges[e].own.kind == Target(e)
    requires forall f | f in q.edges[e].edges :: Source(f) == q.edges[e].own.kind
    requires Fetched(db, q, e, nodes).Ok? && InvalidFieldIn(q.edges[e].own.kind, fields).None?
    ensures Fetched(db, WithFields(q, e, fields), e, nodes).Ok?
    ensures Map(n => EntityId(n), Neighbours(e, id, Fetched(db, q, e, nodes).value))
      == Map(n => EntityId(n), Neighbours(e, id, Fetched(db, WithFields(q, e, fields), e, nodes).value))
  {
    var q' := WithFields(q, e, fields);
    var primed, primed' := Primed(e, q.edges[e].own, nodes), Primed(e, q'.edges[e].own, nodes);
    PrimedIsValid(e, q'.edges[e].own, nodes);
    assert Fetch(db, primed') == Fetch(db, primed);
    ProjectedRunSucceeds(db, primed, primed', q.edges[e]);
    RunIgnoresOwn(db, primed', q.edges[e], q'.edges[e]);
    FetchedKeepKeys(db, q, e, nodes);
    FetchedKeepKeys(db, q', e, nodes);
    SameKeysSameNeighbours(e, id, Fetched(db, q, e, nodes).value, Fetched(db, q', e, nodes).value);
  }
}
