/** What the edges of the schema mean, written out column by column: which rows an eager load may give to which. */
module Links {
  import opened Wrappers
  import opened Lists
  import opened Store
  import opened EagerLoad
  import opened EdgeLaws
  import opened NestedJoin
  import opened SharedWindow
  import opened ChildLimits
  import opened Answers

  // The tables that an edge leads from and to.
  ghost predicate Joins(e: Edge, source: Kind, target: Kind) {
    match e
    case CustomerToChannels => source == Customer && target == CustomerChannel
    case CustomerToBriefs => source == Customer && target == CustomerBrief
    case CustomerToAdvertiserDeals | CustomerToManagedDeals => source == Customer && target == Deal
    case LinkToCustomer => source == CustomerChannel && target == Customer
    case LinkToChannel => source == CustomerChannel && target == Channel
    case ChannelToLinks => source == Channel && target == CustomerChannel
    case ChannelToDeals => source == Channel && target == Deal
    case BriefLinkToCustomer => source == CustomerBrief && target == Customer
    case BriefLinkToBrief => source == CustomerBrief && target == Brief
    case BriefToLinks => source == Brief && target == CustomerBrief
    case DealToChannel => source == Deal && target == Channel
    case DealToAdvertiser | DealToChannelManager => source == Deal && target == Customer
  }

  ghost predicate SameKey(a: Row, c: Column, b: Row, d: Column) {
    c in a && d in b && a[c].Key? && a[c] == b[d]
  }

  // The target row belongs to the source row along the edge.
  ghost predicate Linked(e: Edge, source: Row, target: Row) {
    match e
    case CustomerToChannels | CustomerToBriefs => SameKey(source, IdColumn, target, CustomerId)
    case CustomerToAdvertiserDeals => SameKey(source, IdColumn, target, AdvertiserCustomerId)
    case CustomerToManagedDeals => SameKey(source, IdColumn, target, ChannelManagerId)
    case ChannelToLinks | ChannelToDeals => SameKey(source, IdColumn, target, ChannelId)
    case BriefToLinks => SameKey(source, IdColumn, target, BriefId)
    case LinkToCustomer | BriefLinkToCustomer => SameKey(source, CustomerId, target, IdColumn)
    case LinkToChannel | DealToChannel => SameKey(source, ChannelId, target, IdColumn)
    case BriefLinkToBrief => SameKey(source, BriefId, target, IdColumn)
    case DealToAdvertiser => SameKey(source, AdvertiserCustomerId, target, IdColumn)
    case DealToChannelManager => SameKey(source, ChannelManagerId, target, IdColumn)
  }

  lemma JoinsIsEnds(e: Edge, k: Kind, l: Kind)
    ensures Joins(e, k, l) <==> Source(e) == k && Target(e) == l
  {
  }

  // Rows with the key that the source row sends are those linked to it.
  lemma LinkedIsJoined(e: Edge, source: Row, target: Row)
    requires WellFormedRow(Source(e), source) && WellFormedRow(Target(e), target)
    ensures Linked(e, source, target) <==> KeyOf(target, JoinColumn(e)) == RowKey(e, source)
  {
    JoinKeyIsKey(e);
    var c, d := if ToMany(e) then IdColumn else ForeignKey(e), JoinColumn(e);
    assert c in KeyColumns(Source(e)) && d in KeyColumns(Target(e));
    assert Linked(e, source, target) == SameKey(source, c, target, d);
  }

  // All rows that a query for one source row finds: those of the other table that its predicates admit and that are
  // linked to it.
  lemma AllForIsLinked(db: Db, e: Edge, child: Builder, source: Row, w: Row)
    requires WellFormed(db) && Joins(e, Source(e), child.kind) && WellFormedRow(Source(e), source)
    ensures w in AllFor(db, e, child, [RowKey(e, source)]) <==>
      w in RowsIn(db, child.kind) && Admits(child.preds, w) && Linked(e, source, w)
  {
    var p := In(JoinColumn(e), [RowKey(e, source)]);
    JoinsIsEnds(e, Source(e), child.kind);
    MatchingRows(db, child.kind, child.preds + [p], child.order);
    MatchesOneMore(child.preds, p, w);
    AdmitsIsMatches(child.preds, w);
    if w in RowsIn(db, child.kind) {
      LinkedIsJoined(e, source, w);
      JoinKeyIsKey(e);
      if Matches(child.preds + [p], w) { InMatching(db, child.kind, child.preds + [p], child.order, w); }
    }
  }

  // The neighbours that an entity has along an edge.
  ghost predicate Neighbour(n: Entity, e: Edge, m: Entity) {
    (e in n.many && m in n.many[e]) || (e in n.one && n.one[e] == m)
  }

  // The entity has the columns it has from the row.
  ghost predicate TakenFrom(m: Entity, w: Row) {
    forall c | c in m.fields :: c in w && m.fields[c] == w[c]
  }

  // The nodes of rows before their edges are loaded.
  lemma DecodedKeys(b: Builder, q: Tree, rows: seq<Row>, e: Edge, i: nat)
    requires i < |rows| && e in q.edges && Source(e) == b.kind
    ensures SourceKey(e, Decoded(b, q, rows)[i]) == RowKey(e, rows[i])
  {
    var cs := SpecColumns(b, q.edges.Keys);
    SpecKeepsKeys(b, q.edges.Keys, e);
    ProjectKeeps(rows[i], cs, if ToMany(e) then IdColumn else ForeignKey(e));
  }

  lemma NeighbourIsFetched(e: Edge, nodes: seq<Entity>, i: nat, children: seq<Entity>, n: Entity, m: Entity)
    requires i < |nodes| && nodes[i].many == map[] && nodes[i].one == map[]
    requires SameEdge(e, n, AttachTo(e, nodes, i, children)) && Neighbour(n, e, m)
    ensures m in children && TargetKey(e, m) == SourceKey(e, nodes[i])
  {
  }

  // A fetched neighbour is taken from a row of the child's table that the child admits and that has its key.
  lemma FetchedIsTaken(db: Db, q: Tree, e: Edge, nodes: seq<Entity>, m: Entity) returns (w: Row)
    requires WellFormed(db) && e in q.edges && q.edges[e].own.kind == Target(e) && Fetched(db, q, e, nodes).Ok?
    requires m in Fetched(db, q, e, nodes).value
    ensures w in RowsIn(db, q.edges[e].own.kind) && Admits(q.edges[e].own.preds, w) && TakenFrom(m, w)
    ensures KeyOf(w, JoinColumn(e)) == TargetKey(e, m)
  {
    var child, children := q.edges[e].own, Fetched(db, q, e, nodes).value;
    var primed := Primed(e, child, nodes);
    var x :| 0 <= x < |children| && children[x] == m;
    FetchedKeepKeys(db, q, e, nodes);
    RunKeepsRows(db, primed, q.edges[e], Fetch(db, primed).value);
    w := Fetch(db, primed).value[x];
    assert SameBase(children[x], Decoded(primed, q.edges[e], Fetch(db, primed).value)[x]);
    FetchedRowIsAdmitted(db, e, child, nodes, w);
  }

  lemma FetchedRowIsAdmitted(db: Db, e: Edge, child: Builder, nodes: seq<Entity>, w: Row)
    requires Fetch(db, Primed(e, child, nodes)).Ok? && w in Fetch(db, Primed(e, child, nodes)).value
    ensures w in RowsIn(db, child.kind) && Admits(child.preds, w)
  {
    var p := In(JoinColumn(e), BatchKeys(e, nodes));
    MatchingRows(db, child.kind, child.preds + [p], child.order);
    MatchesOneMore(child.preds, p, w);
    AdmitsIsMatches(child.preds, w);
  }

  // A neighbour that joining the fetched ones gives node i.
  lemma NeighbourOfNode(db: Db, q: Tree, e: Edge, nodes: seq<Entity>, i: nat, n: Entity, m: Entity) returns (w: Row)
    requires WellFormed(db) && e in q.edges && q.edges[e].own.kind == Target(e) && Fetched(db, q, e, nodes).Ok?
    requires i < |nodes| && nodes[i].many == map[] && nodes[i].one == map[]
    requires SameEdge(e, n, AttachTo(e, nodes, i, Fetched(db, q, e, nodes).value)) && Neighbour(n, e, m)
    ensures w in RowsIn(db, q.edges[e].own.kind) && Admits(q.edges[e].own.preds, w) && TakenFrom(m, w)
    ensures KeyOf(w, JoinColumn(e)) == SourceKey(e, nodes[i])
  {
    NeighbourIsFetched(e, nodes, i, Fetched(db, q, e, nodes).value, n, m);
    w := FetchedIsTaken(db, q, e, nodes, m);
  }

  // Every neighbour that a run gives an entity is a row of the other table that the child admits, linked to the
  // entity's own row, whatever the children limit.
  lemma NeighbourIsLinked(db: Db, b: Builder, q: Tree, rows: seq<Row>, out: seq<Entity>, i: nat, e: Edge, m: Entity)
    returns (w: Row)
    requires WellFormed(db) && Belongs(q) && b.kind == q.own.kind && e in q.edges
    requires Fetch(db, b) == Ok(rows) && Run(db, b, q).nodes == Ok(out) && i < |rows| && i < |out|
    requires Neighbour(out[i], e, m)
    ensures Joins(e, b.kind, q.edges[e].own.kind) && w in RowsIn(db, q.edges[e].own.kind)
    ensures Admits(q.edges[e].own.preds, w) && Linked(e, rows[i], w) && TakenFrom(m, w)
  {
    JoinsIsEnds(e, b.kind, q.edges[e].own.kind);
    EdgeOfRun(db, b, q, rows, i, e);
    DecodedIsBare(b, q, rows, i);
    w := NeighbourOfNode(db, q, e, Decoded(b, q, rows), i, out[i], m);
    SameKeyIsLinked(db, b, q, rows, i, e, w);
  }

  lemma DecodedIsBare(b: Builder, q: Tree, rows: seq<Row>, i: nat)
    requires i < |rows|
    ensures |Decoded(b, q, rows)| == |rows|
    ensures Decoded(b, q, rows)[i].many == map[] && Decoded(b, q, rows)[i].one == map[]
  {
  }

  lemma SameKeyIsLinked(db: Db, b: Builder, q: Tree, rows: seq<Row>, i: nat, e: Edge, w: Row)
    requires WellFormed(db) && Fetch(db, b) == Ok(rows) && i < |rows|
    requires e in q.edges && Joins(e, b.kind, q.edges[e].own.kind) && w in RowsIn(db, q.edges[e].own.kind)
    requires KeyOf(w, JoinColumn(e)) == SourceKey(e, Decoded(b, q, rows)[i])
    ensures Linked(e, rows[i], w)
  {
    JoinsIsEnds(e, b.kind, q.edges[e].own.kind);
    DecodedKeys(b, q, rows, e, i);
    RowIsWellFormed(db, b, rows, i);
    LinkedIsJoined(e, rows[i], w);
  }

  lemma EdgeOfRun(db: Db, b: Builder, q: Tree, rows: seq<Row>, i: nat, e: Edge)
    requires Belongs(q) && b.kind == q.own.kind && e in q.edges
    requires Fetch(db, b) == Ok(rows) && i < |rows| && Run(db, b, q).nodes.Ok?
    ensures |Run(db, b, q).nodes.value| == |rows| && Fetched(db, q, e, Decoded(b, q, rows)).Ok?
    ensures SameEdge(e, Run(db, b, q).nodes.value[i],
                     AttachTo(e, Decoded(b, q, rows), i, Fetched(db, q, e, Decoded(b, q, rows)).value))
  {
    RunComposes(db, b, q, rows);
    JoinKeyIsKey(e);
    assert JoinedAt(db, q, EdgesOf(b.kind), Decoded(b, q, rows), Run(db, b, q).nodes.value, e, i);
  }

  lemma RowIsWellFormed(db: Db, b: Builder, rows: seq<Row>, i: nat)
    requires WellFormed(db) && Fetch(db, b) == Ok(rows) && i < |rows|
    ensures WellFormedRow(b.kind, rows[i])
  {
    MatchingRows(db, b.kind, b.preds, b.order);
    assert rows[i] in rows;
  }

  // ---------- Where nothing is cut off ----------

  lemma LastIsSame(e: Edge, n: Entity, nodes: seq<Entity>, i: nat, children: seq<Entity>, x: nat)
    requires i < |nodes| && IsLast(nodes, i) && SameEdge(e, n, AttachTo(e, nodes, i, children))
    requires var found := Neighbours(e, SourceKey(e, nodes[i]), children);
      x < |found| && (!ToMany(e) ==> |found| <= 1)
    ensures Neighbour(n, e, Neighbours(e, SourceKey(e, nodes[i]), children)[x])
  {
  }

  lemma IdAmong(ns: seq<Entity>, rows: seq<Row>, w: Row) returns (x: nat)
    requires Map(n => EntityId(n), ns) == Map(row => KeyOf(row, IdColumn), rows) && w in rows
    ensures x < |ns| && EntityId(ns[x]) == KeyOf(w, IdColumn)
  {
    x :| 0 <= x < |rows| && rows[x] == w;
    assert Map(n => EntityId(n), ns)[x] == Map(row => KeyOf(row, IdColumn), rows)[x];
  }

  lemma LinkedIsShared(db: Db, e: Edge, child: Builder, rows: seq<Row>, i: nat, w: Row)
    requires WellFormed(db) && AmpleEdge(db, e, child, rows) && i < |rows|
    requires Joins(e, Source(e), child.kind) && WellFormedRow(Source(e), rows[i])
    requires w in RowsIn(db, child.kind) && Admits(child.preds, w) && Linked(e, rows[i], w)
    ensures w in WithKey(JoinColumn(e), RowKey(e, rows[i]), SharedRows(db, e, child, rows))
  {
    JoinsIsEnds(e, Source(e), child.kind);
    AllForIsLinked(db, e, child, rows[i], w);
    RowSendsKey(e, rows, i);
    BatchHoldsLookup(db, e, child, BatchKeysOf(e, rows), RowKey(e, rows[i]));
  }

  // And if the child's window cuts nothing off, every row of the other table that the child admits and that is linked
  // to an entity's own row is among its neighbours.
  lemma LinkedIsLoaded(db: Db, b: Builder, q: Tree, rows: seq<Row>, out: seq<Entity>, i: nat, e: Edge, w: Row)
    returns (m: Entity)
    requires WellFormed(db) && Belongs(q) && b.kind == q.own.kind && e in q.edges
    requires Fetch(db, b) == Ok(rows) && Run(db, b, q).nodes == Ok(out) && i < |rows| && i < |out|
    requires AmpleEdge(db, e, q.edges[e].own, rows)
    requires w in RowsIn(db, q.edges[e].own.kind) && Admits(q.edges[e].own.preds, w) && Linked(e, rows[i], w)
    ensures Neighbour(out[i], e, m) && EntityId(m) == KeyOf(w, IdColumn)
  {
    JoinsIsEnds(e, b.kind, q.edges[e].own.kind);
    RowIsWellFormed(db, b, rows, i);
    LinkedIsShared(db, e, q.edges[e].own, rows, i, w);
    EdgeOfRun(db, b, q, rows, i, e);
    m := SharedIsLoaded(db, b, q, rows, out[i], i, e, w);
  }

  lemma SharedIsLoaded(db: Db, b: Builder, q: Tree, rows: seq<Row>, n: Entity, i: nat, e: Edge, w: Row)
    returns (m: Entity)
    requires WellFormed(db) && Belongs(q) && b.kind == q.own.kind && e in q.edges
    requires Fetch(db, b) == Ok(rows) && i < |rows|
    requires Fetched(db, q, e, Decoded(b, q, rows)).Ok?
    requires SameEdge(e, n, AttachTo(e, Decoded(b, q, rows), i, Fetched(db, q, e, Decoded(b, q, rows)).value))
    requires w in WithKey(JoinColumn(e), RowKey(e, rows[i]), SharedRows(db, e, q.edges[e].own, rows))
    ensures Neighbour(n, e, m) && EntityId(m) == KeyOf(w, IdColumn)
  {
    var nodes := NestedAll(db, b, q, rows, {});
    var key := RowKey(e, rows[i]);
    DecodedIsNested(db, b, q, rows);
    FetchedRows(db, b, rows);
    NodeAt(db, b, q, rows, e, i);
    NeighboursAreShared(db, b, q, rows, e, key);
    var found := Neighbours(e, key, Fetched(db, q, e, nodes).value);
    var x := IdAmong(found, WithKey(JoinColumn(e), key, SharedRows(db, e, q.edges[e].own, rows)), w);
    if !ToMany(e) { OneAtMost(db, b, q, rows, e, key); }
    LastIsSame(e, n, nodes, i, Fetched(db, q, e, nodes).value, x);
    m := found[x];
  }

  // ---------- The order of loading ----------

  // How many edges of the same table are loaded before this one.
  function Rank(e: Edge): nat {
    match e
    case CustomerToChannels | LinkToCustomer | ChannelToLinks | BriefLinkToCustomer | BriefToLinks | DealToChannel => 0
    case CustomerToBriefs | LinkToChannel | ChannelToDeals | BriefLinkToBrief | DealToAdvertiser => 1
    case CustomerToAdvertiserDeals | DealToChannelManager => 2
    case CustomerToManagedDeals => 3
  }

  lemma EdgesAreRanked(e: Edge)
    ensures Rank(e) < |EdgesOf(Source(e))| && EdgesOf(Source(e))[Rank(e)] == e
    ensures forall x | 0 <= x < |EdgesOf(Source(e))| :: Rank(EdgesOf(Source(e))[x]) == x
  {
  }

  // What the queries of the requested edges return for these nodes.
  ghost function Results(db: Db, q: Tree, nodes: seq<Entity>): map<Edge, Result<seq<Entity>, QueryError>> {
    map e | e in q.edges :: Fetched(db, q, e, nodes)
  }

  lemma SameResults(db: Db, q: Tree, nodes: seq<Entity>, nodes': seq<Entity>)
    requires SameBases(nodes', nodes)
    ensures Results(db, q, nodes') == Results(db, q, nodes)
  {
    forall f | f in q.edges ensures Fetched(db, q, f, nodes') == Fetched(db, q, f, nodes) {
      FetchedDependsOnBases(db, q, f, nodes', nodes);
    }
  }

  // Edge x of the list is the first that fails, with this error.
  ghost predicate FailsFirst(es: seq<Edge>, results: map<Edge, Result<seq<Entity>, QueryError>>, error: QueryError,
      x: nat)
  {
    && x < |es| && es[x] in results && results[es[x]] == Err(error)
    && forall y | 0 <= y < x && es[y] in results :: results[es[y]].Ok?
  }

  lemma FailsOneLater(es: seq<Edge>, results: map<Edge, Result<seq<Entity>, QueryError>>, error: QueryError, x: nat)
    returns (y: nat)
    requires es != [] && (es[0] in results ==> results[es[0]].Ok?) && FailsFirst(es[1..], results, error, x)
    ensures FailsFirst(es, results, error, y)
  {
    assert forall z | 0 < z < |es| :: es[z] == es[1..][z - 1];
    y := x + 1;
  }

  // Loading an edge whose query succeeds goes on with the rest.
  lemma LoadGoesOn(db: Db, q: Tree, es: seq<Edge>, nodes: seq<Entity>, edges: map<Edge, Tree>)
    returns (nodes': seq<Entity>, edges': map<Edge, Tree>)
    requires Belongs(q) && es != [] && (es[0] in q.edges ==> Fetched(db, q, es[0], nodes).Ok?)
    ensures Results(db, q, nodes') == Results(db, q, nodes)
    ensures RunEdges(db, q, es, nodes, edges) == RunEdges(db, q, es[1..], nodes', edges')
  {
    var e := es[0];
    nodes', edges' := nodes, edges;
    if e in q.edges {
      FetchedHasNoStray(db, q, e, nodes);
      var primed := Primed(e, q.edges[e].own, nodes);
      nodes' := Attach(e, nodes, Fetched(db, q, e, nodes).value).value;
      edges' := edges[e := Tree(primed, Run(db, primed, q.edges[e]).edges)];
      AttachKeepsOthers(e, nodes, Fetched(db, q, e, nodes).value, nodes');
      SameResults(db, q, nodes, nodes');
    }
  }

  // An edge whose query fails ends the loading.
  lemma LoadStops(db: Db, q: Tree, es: seq<Edge>, nodes: seq<Entity>, edges: map<Edge, Tree>, error: QueryError)
    requires RunEdges(db, q, es, nodes, edges).nodes == Err(error)
    ensures es != []
    ensures es[0] in q.edges && Fetched(db, q, es[0], nodes).Err? ==> Fetched(db, q, es[0], nodes) == Err(error)
  {
  }

  lemma {:induction false} FirstEdgeFails(db: Db, q: Tree, es: seq<Edge>, nodes: seq<Entity>, edges: map<Edge, Tree>,
      error: QueryError, results: map<Edge, Result<seq<Entity>, QueryError>>) returns (x: nat)
    requires Belongs(q) && RunEdges(db, q, es, nodes, edges).nodes == Err(error)
    requires results == Results(db, q, nodes)
    ensures FailsFirst(es, results, error, x)
    decreases |es|
  {
    LoadStops(db, q, es, nodes, edges, error);
    if es[0] in results && results[es[0]].Err? {
      x := 0;
    } else {
      var nodes', edges' := LoadGoesOn(db, q, es, nodes, edges);
      x := FirstEdgeFails(db, q, es[1..], nodes', edges', error, results);
      x := FailsOneLater(es, results, error, x);
    }
  }

  lemma FailureIsOfEdges(db: Db, b: Builder, q: Tree, rows: seq<Row>, nodes: seq<Entity>, error: QueryError)
    requires InvalidFieldIn(b.kind, b.fields).None? && Fetch(db, b) == Ok(rows) && Run(db, b, q).nodes == Err(error)
    requires nodes == Decoded(b, q, rows)
    ensures RunEdges(db, q, EdgesOf(b.kind), nodes, q.edges).nodes == Err(error)
  {
  }

  lemma FirstIsLeastRank(k: Kind, results: map<Edge, Result<seq<Entity>, QueryError>>, error: QueryError, x: nat)
    returns (e: Edge)
    requires FailsFirst(EdgesOf(k), results, error, x) && forall f | f in results :: Source(f) == k
    ensures e in results && results[e] == Err(error) && forall f | f in results && Rank(f) < Rank(e) :: results[f].Ok?
  {
    e := EdgesOf(k)[x];
    EdgesAreRanked(e);
    forall f | f in results && Rank(f) < Rank(e) ensures results[f].Ok? { EdgesAreRanked(f); }
  }

  lemma ResultsAreOfEdges(db: Db, q: Tree, nodes: seq<Entity>, f: Edge)
    requires Belongs(q) && f in Results(db, q, nodes)
    ensures Source(f) == q.own.kind
  {
  }

  // A run whose own query succeeds fails only by a child, and with the error of the first requested edge, in the
  // order of loading, whose query fails.
  lemma FirstFailureDecides(db: Db, b: Builder, q: Tree, rows: seq<Row>, error: QueryError) returns (e: Edge)
    requires Belongs(q) && b.kind == q.own.kind && InvalidFieldIn(b.kind, b.fields).None?
    requires Fetch(db, b) == Ok(rows) && Run(db, b, q).nodes == Err(error)
    ensures var results := Results(db, q, Decoded(b, q, rows));
      e in results && results[e] == Err(error) && forall f | f in results && Rank(f) < Rank(e) :: results[f].Ok?
  {
    FailureIsOfEdges(db, b, q, rows, Decoded(b, q, rows), error);
    var results := Results(db, q, Decoded(b, q, rows));
    var x := FirstEdgeFails(db, q, EdgesOf(b.kind), Decoded(b, q, rows), q.edges, error, results);
    forall f | f in results ensures Source(f) == b.kind { ResultsAreOfEdges(db, q, Decoded(b, q, rows), f); }
    e := FirstIsLeastRank(b.kind, results, error, x);
  }
}
