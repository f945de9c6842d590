/**
 Eager loading equals naive nested lookup: every loaded entity is the one its row would get by running the
 children's queries, with their own limits and offsets, for itself alone, at any depth, when each of these
 queries returns what the query shared by all rows returns for the row's key.
 */
module NestedJoin {
  import opened Wrappers
  import opened Lists
  import opened Store
  import opened EagerLoad

  // ---------- The naive meaning ----------

  // The child's selected fields, with the foreign key the join needs.
  function KeyField(e: Edge, child: Builder): Builder {
    if ToMany(e) && child.fields != [] then child.(fields := AddOnce(child.fields, ForeignKey(e))) else child
  }

  // The key by which a row looks its neighbours up.
  function RowKey(e: Edge, row: Row): Id {
    if ToMany(e) then KeyOf(row, IdColumn) else KeyOf(row, ForeignKey(e))
  }

  // The child's query with one more condition: its join column is among these keys.
  function ForKeys(e: Edge, child: Builder, keys: seq<Id>): Builder {
    child.(preds := child.preds + [In(JoinColumn(e), keys)])
  }

  // All rows that match it, whatever the child's limit and offset.
  function AllFor(db: Db, e: Edge, child: Builder, keys: seq<Id>): seq<Row> {
    Matching(db, child.kind, ForKeys(e, child, keys).preds, child.order)
  }

  // The rows that it returns, limit and offset applied; none if the database refuses it.
  function RowsFor(db: Db, e: Edge, child: Builder, keys: seq<Id>): seq<Row> {
    var r := Fetch(db, ForKeys(e, child, keys));
    if r.Ok? then r.value else []
  }

  // One query per row and edge: the child's own query for the row's key alone.
  function OwnRows(db: Db, e: Edge, child: Builder, key: Id): seq<Row> {
    RowsFor(db, e, child, [key])
  }

  // The lists of the one-to-many edges, and the last neighbour of every many-to-one edge that found any.
  ghost function ManyOf(found: map<Edge, seq<Entity>>): map<Edge, seq<Entity>> {
    map e | e in found && ToMany(e) :: found[e]
  }

  ghost function OneOf(found: map<Edge, seq<Entity>>): map<Edge, Entity> {
    map e | e in found && !ToMany(e) && found[e] != [] :: LastOf(found[e])
  }

  ghost function Nested(db: Db, b: Builder, q: Tree, row: Row): Entity
    decreases q, 4
  {
    NestedOn(db, b, q, row, q.edges.Keys)
  }

  // The entity of a row, with only the edges in `done` looked up.
  ghost function NestedOn(db: Db, b: Builder, q: Tree, row: Row, done: set<Edge>): Entity
    decreases q, 3
  {
    Entity(
      b.kind,
      Project(row, SpecColumns(b, q.edges.Keys)),
      ManyOf(Found(db, q, row, done)),
      OneOf(Found(db, q, row, done)),
      q.edges.Keys)
  }

  // What the row finds along each edge in `done`.
  ghost function Found(db: Db, q: Tree, row: Row, done: set<Edge>): map<Edge, seq<Entity>>
    decreases q, 2
  {
    map e | e in q.edges && e in done :: LookedUp(db, q, e, row)
  }

  // The neighbours that one row finds along one edge.
  ghost function LookedUp(db: Db, q: Tree, e: Edge, row: Row): seq<Entity>
    requires e in q.edges
    decreases q, 1
  {
    NestedRows(db, q, e, OwnRows(db, e, q.edges[e].own, RowKey(e, row)))
  }

  ghost function NestedRows(db: Db, q: Tree, e: Edge, rows: seq<Row>): (ns: seq<Entity>)
    requires e in q.edges
    ensures |ns| == |rows|
    decreases q, 0
  {
    Map(row => Nested(db, KeyField(e, q.edges[e].own), q.edges[e], row), rows)
  }

  ghost function LastOf<T>(s: seq<T>): T
    requires s != []
  {
    s[|s| - 1]
  }

  ghost function NestedAll(db: Db, b: Builder, q: Tree, rows: seq<Row>, done: set<Edge>): (ns: seq<Entity>)
    ensures |ns| == |rows| && forall i | 0 <= i < |rows| :: ns[i] == NestedOn(db, b, q, rows[i], done)
  {
    seq(|rows|, i requires 0 <= i < |rows| => NestedOn(db, b, q, rows[i], done))
  }

  // ---------- When the two agree ----------

  // Edges belong to their builders.
  ghost predicate Belongs(q: Tree) {
    forall e | e in q.edges ::
      Source(e) == q.own.kind && q.edges[e].own.kind == Target(e) && Belongs(q.edges[e])
  }

  // The keys that the nodes of these rows send along e, each once where the loader does so.
  function BatchKeysOf(e: Edge, rows: seq<Row>): seq<Id> {
    var keys := Map(row => RowKey(e, row), rows);
    if ToMany(e) then keys else Dedup(keys)
  }

  // The rows of the one query that the loader of e runs for all these rows.
  function SharedRows(db: Db, e: Edge, child: Builder, rows: seq<Row>): seq<Row> {
    RowsFor(db, e, child, BatchKeysOf(e, rows))
  }

  function WithKey(c: Column, key: Id, rows: seq<Row>): seq<Row> {
    Filter(row => KeyOf(row, c) == key, rows)
  }

  // A query that is not refused.
  ghost predicate Accepted(b: Builder) {
    InvalidFieldIn(b.kind, b.fields).None? && GetOr(b.offset, 0) >= 0 && GetOr(b.limit, 0) >= 0
  }

  // The child's query is accepted, and every row's own query returns what the shared one returns for its key.
  ghost predicate FairEdge(db: Db, e: Edge, child: Builder, rows: seq<Row>) {
    && Accepted(child)
    && forall i | 0 <= i < |rows| ::
         OwnRows(db, e, child, RowKey(e, rows[i]))
         == WithKey(JoinColumn(e), RowKey(e, rows[i]), SharedRows(db, e, child, rows))
  }

  // So it is at every edge, at any depth, for the rows that the loads above return.
  ghost predicate Fair(db: Db, q: Tree, rows: seq<Row>)
    decreases q
  {
    rows != [] ==>
      forall e | e in q.edges ::
        var child := q.edges[e];
        FairEdge(db, e, child.own, rows) && Fair(db, child, SharedRows(db, e, child.own, rows))
  }

  // Rows of one table without repetition.
  ghost predicate RowsOf(db: Db, k: Kind, rows: seq<Row>) {
    && (forall row | row in rows :: row in TableOf(db, k))
    && DistinctBy((row: Row) => KeyOf(row, IdColumn), rows)
  }

  lemma JoinKeyIsKey(e: Edge)
    ensures IdColumn in KeyColumns(Source(e)) && IdColumn in KeyColumns(Target(e))
    ensures ForeignKey(e) in KeyColumns(if ToMany(e) then Target(e) else Source(e))
    ensures e in EdgesOf(Source(e))
  {
  }

  // Whatever fields are selected, the compiled query asks for the id and for every foreign key a
  // requested many-to-one edge joins by.
  lemma SpecKeepsKeys(b: Builder, requested: set<Edge>, e: Edge)
    requires Source(e) == b.kind
    ensures IdColumn in SpecColumns(b, requested)
    ensures e in requested && !ToMany(e) ==> ForeignKey(e) in SpecColumns(b, requested)
  {
    JoinKeyIsKey(e);
    if b.fields == [] {
      assert ValidColumn(b.kind, IdColumn);
      assert !ToMany(e) ==> ValidColumn(b.kind, ForeignKey(e));
    } else {
      assert IdColumn in [IdColumn] + WithoutId(b.fields);
    }
  }

  lemma ProjectKeeps(row: Row, cs: seq<Column>, c: Column)
    requires c in cs
    ensures KeyOf(Project(row, cs), c) == KeyOf(row, c)
  {
  }

  // A node still has the key that its row joins by.
  lemma SourceKeyKept(db: Db, b: Builder, q: Tree, row: Row, done: set<Edge>, e: Edge)
    requires WellFormedRow(b.kind, row) && e in q.edges && Source(e) == b.kind
    ensures var n := NestedOn(db, b, q, row, done);
      SourceKey(e, n) == RowKey(e, row) && EntityId(n) == KeyOf(row, IdColumn)
  {
    var cs := SpecColumns(b, q.edges.Keys);
    SpecKeepsKeys(b, q.edges.Keys, e);
    ProjectKeeps(row, cs, if ToMany(e) then IdColumn else ForeignKey(e));
    ProjectKeeps(row, cs, IdColumn);
  }

  // The foreign key the loader adds to a neighbour's selected fields is asked for.
  lemma PrimedKeepsKey(e: Edge, child: Builder, requested: set<Edge>)
    requires child.kind == Target(e)
    ensures JoinColumn(e) in SpecColumns(KeyField(e, child), requested)
    ensures JoinColumn(e) in KeyColumns(child.kind)
  {
    JoinKeyIsKey(e);
    var b := KeyField(e, child);
    if b.fields == [] {
      assert ValidColumn(b.kind, JoinColumn(e));
    } else if ToMany(e) {
      assert ForeignKey(e) != IdColumn && ForeignKey(e) in WithoutId(b.fields);
    } else {
      assert IdColumn in [IdColumn] + WithoutId(b.fields);
    }
  }

  // A neighbour has the key that it is joined by.
  lemma TargetKeyKept(db: Db, e: Edge, child: Tree, row: Row)
    requires child.own.kind == Target(e) && WellFormedRow(child.own.kind, row)
    ensures TargetKey(e, Nested(db, KeyField(e, child.own), child, row)) == KeyOf(row, JoinColumn(e))
  {
    PrimedKeepsKey(e, child.own, child.edges.Keys);
    ProjectKeeps(row, SpecColumns(KeyField(e, child.own), child.edges.Keys), JoinColumn(e));
  }

  // ---------- One edge ----------

  // Filtering loaded neighbours by key is loading the rows with that key.
  lemma NeighboursAreRows(db: Db, q: Tree, e: Edge, rows: seq<Row>, key: Id)
    requires e in q.edges && q.edges[e].own.kind == Target(e)
    requires forall row | row in rows :: WellFormedRow(Target(e), row)
    ensures Neighbours(e, key, NestedRows(db, q, e, rows)) == NestedRows(db, q, e, WithKey(JoinColumn(e), key, rows))
  {
    var child := q.edges[e];
    var load := row => Nested(db, KeyField(e, child.own), child, row);
    var p, same := (c: Entity) => TargetKey(e, c) == key, (row: Row) => KeyOf(row, JoinColumn(e)) == key;
    forall row | row in rows ensures p(load(row)) == same(row) {
      TargetKeyKept(db, e, child, row);
    }
    FilterMap(load, p, same, rows);
  }

  // The query for these keys returns distinct rows of the child's table whose keys are among them.
  lemma RowsForFacts(db: Db, e: Edge, child: Builder, keys: seq<Id>)
    requires WellFormed(db) && child.kind == Target(e)
    ensures RowsOf(db, child.kind, RowsFor(db, e, child, keys))
    ensures forall row | row in RowsFor(db, e, child, keys) ::
      WellFormedRow(child.kind, row) && KeyOf(row, JoinColumn(e)) in keys
  {
    if GetOr(child.offset, 0) >= 0 && GetOr(child.limit, 0) >= 0 {
      FetchedRows(db, ForKeys(e, child, keys), RowsFor(db, e, child, keys));
    }
    forall row | row in RowsFor(db, e, child, keys)
      ensures WellFormedRow(child.kind, row) && KeyOf(row, JoinColumn(e)) in keys
    {
      RowIsAskedFor(db, e, child, keys, row);
    }
  }

  lemma RowIsAskedFor(db: Db, e: Edge, child: Builder, keys: seq<Id>, row: Row)
    requires row in RowsFor(db, e, child, keys)
    ensures row in AllFor(db, e, child, keys) && row in TableOf(db, child.kind) && KeyOf(row, JoinColumn(e)) in keys
  {
    MatchingRows(db, child.kind, ForKeys(e, child, keys).preds, child.order);
    MatchesOneMore(child.preds, In(JoinColumn(e), keys), row);
  }

  // Situation of a loader: the nodes of `rows`, some edges already loaded, and edge e to load.
  ghost predicate Loading(db: Db, b: Builder, q: Tree, rows: seq<Row>, e: Edge) {
    && WellFormed(db) && RowsOf(db, b.kind, rows)
    && e in q.edges && Source(e) == b.kind && q.edges[e].own.kind == Target(e)
  }

  // The naive neighbours of the rows that the loader fetches.
  ghost function SharedNested(db: Db, q: Tree, e: Edge, rows: seq<Row>): seq<Entity>
    requires e in q.edges
  {
    NestedRows(db, q, e, SharedRows(db, e, q.edges[e].own, rows))
  }

  lemma NoStrayAmong(e: Edge, nodes: seq<Entity>, children: seq<Entity>)
    requires forall x | 0 <= x < |children| :: TargetKey(e, children[x]) in BatchKeys(e, nodes)
    ensures Stray(e, nodes, children).None?
  {
    forall c | c in children ensures exists i :: 0 <= i < |nodes| && SourceKey(e, nodes[i]) == TargetKey(e, c) {
      KeysAreSourceKeys(e, nodes, TargetKey(e, c));
    }
  }

  // The store honours the IN predicate, so no neighbour has a key that no node asked for.
  lemma NoStray(db: Db, b: Builder, q: Tree, rows: seq<Row>, done: set<Edge>, e: Edge)
    requires Loading(db, b, q, rows, e)
    ensures Stray(e, NestedAll(db, b, q, rows, done), SharedNested(db, q, e, rows)).None?
  {
    var nodes, child := NestedAll(db, b, q, rows, done), q.edges[e];
    var fetched := SharedRows(db, e, child.own, rows);
    var children := SharedNested(db, q, e, rows);
    NodesSendRowKeys(db, b, q, rows, done, e);
    RowsForFacts(db, e, child.own, BatchKeysOf(e, rows));
    forall x | 0 <= x < |children| ensures TargetKey(e, children[x]) in BatchKeys(e, nodes) {
      assert fetched[x] in fetched;
      TargetKeyKept(db, e, child, fetched[x]);
    }
    NoStrayAmong(e, nodes, children);
  }

  // What the hash join gives node i is what its row looks up.
  lemma NeighboursAreLookup(db: Db, b: Builder, q: Tree, rows: seq<Row>, done: set<Edge>, e: Edge, i: nat)
    requires Loading(db, b, q, rows, e) && FairEdge(db, e, q.edges[e].own, rows) && i < |rows|
    ensures Neighbours(e, SourceKey(e, NestedAll(db, b, q, rows, done)[i]), SharedNested(db, q, e, rows))
      == LookedUp(db, q, e, rows[i])
  {
    var child := q.edges[e].own;
    assert rows[i] in rows;
    SourceKeyKept(db, b, q, rows[i], done, e);
    RowsForFacts(db, e, child, BatchKeysOf(e, rows));
    NeighboursAreRows(db, q, e, SharedRows(db, e, child, rows), RowKey(e, rows[i]));
  }

  lemma EveryNodeIsLast(db: Db, b: Builder, q: Tree, rows: seq<Row>, done: set<Edge>, e: Edge, i: nat)
    requires Loading(db, b, q, rows, e) && i < |rows|
    ensures IsLast(NestedAll(db, b, q, rows, done), i)
  {
    var nodes := NestedAll(db, b, q, rows, done);
    forall j | i <= j < |rows| ensures EntityId(nodes[j]) == KeyOf(rows[j], IdColumn) {
      assert rows[j] in rows;
      SourceKeyKept(db, b, q, rows[j], done, e);
    }
  }

  lemma FoundGrows(db: Db, q: Tree, row: Row, done: set<Edge>, e: Edge)
    requires e in q.edges
    ensures Found(db, q, row, done + {e}) == Found(db, q, row, done)[e := LookedUp(db, q, e, row)]
  {
  }

  lemma OneMoreFound(found: map<Edge, seq<Entity>>, e: Edge, ns: seq<Entity>)
    requires e in found ==> found[e] == ns
    ensures ManyOf(found[e := ns]) == if ToMany(e) then ManyOf(found)[e := ns] else ManyOf(found)
    ensures OneOf(found[e := ns]) == if ToMany(e) || ns == [] then OneOf(found) else OneOf(found)[e := LastOf(ns)]
  {
  }

  lemma AttachToIsLookup(db: Db, b: Builder, q: Tree, rows: seq<Row>, done: set<Edge>, e: Edge, i: nat)
    requires Loading(db, b, q, rows, e) && FairEdge(db, e, q.edges[e].own, rows) && i < |rows|
    ensures AttachTo(e, NestedAll(db, b, q, rows, done), i, SharedNested(db, q, e, rows))
      == NestedOn(db, b, q, rows[i], done + {e})
  {
    NeighboursAreLookup(db, b, q, rows, done, e, i);
    EveryNodeIsLast(db, b, q, rows, done, e, i);
    FoundGrows(db, q, rows[i], done, e);
    OneMoreFound(Found(db, q, rows[i], done), e, LookedUp(db, q, e, rows[i]));
  }

  // One hash join adds exactly one edge's lookups to all the nodes, and changes nothing else.
  lemma AttachIsLookup(db: Db, b: Builder, q: Tree, rows: seq<Row>, done: set<Edge>, e: Edge)
    requires Loading(db, b, q, rows, e) && FairEdge(db, e, q.edges[e].own, rows)
    ensures Attach(e, NestedAll(db, b, q, rows, done), SharedNested(db, q, e, rows))
      == Ok(NestedAll(db, b, q, rows, done + {e}))
  {
    var nodes, children := NestedAll(db, b, q, rows, done), SharedNested(db, q, e, rows);
    NoStray(db, b, q, rows, done, e);
    forall i | 0 <= i < |rows| ensures AttachTo(e, nodes, i, children) == NestedOn(db, b, q, rows[i], done + {e}) {
      AttachToIsLookup(db, b, q, rows, done, e, i);
    }
    assert Attach(e, nodes, children).value == NestedAll(db, b, q, rows, done + {e});
  }

  // ---------- The whole tree ----------

  // Eager loading of a whole query tree gives every fetched row its naive nested meaning.
  lemma {:induction false} RunIsNested(db: Db, b: Builder, q: Tree, rows: seq<Row>)
    requires WellFormed(db) && Belongs(q) && Fair(db, q, rows) && b.kind == q.own.kind
    requires InvalidFieldIn(b.kind, b.fields).None? && Fetch(db, b) == Ok(rows)
    ensures Run(db, b, q).nodes == Ok(NestedAll(db, b, q, rows, q.edges.Keys))
    decreases q, 1, 0
  {
    var nodes := DecodeAll(b.kind, rows, SpecColumns(b, q.edges.Keys), q.edges.Keys);
    if rows == [] {
      assert nodes == [];
    } else {
      FetchedRows(db, b, rows);
      DecodedIsNested(db, b, q, rows);
      forall e | e in q.edges ensures e in EdgesOf(b.kind) {
        JoinKeyIsKey(e);
      }
      RunEdgesIsNested(db, b, q, rows, EdgesOf(b.kind), {}, q.edges);
    }
  }

  lemma DecodedIsNested(db: Db, b: Builder, q: Tree, rows: seq<Row>)
    ensures DecodeAll(b.kind, rows, SpecColumns(b, q.edges.Keys), q.edges.Keys) == NestedAll(db, b, q, rows, {})
  {
    forall i | 0 <= i < |rows| ensures Found(db, q, rows[i], {}) == map[] {}
    assert ManyOf(map[]) == map[] && OneOf(map[]) == map[];
  }

  lemma FetchedRows(db: Db, b: Builder, rows: seq<Row>)
    requires WellFormed(db) && Fetch(db, b) == Ok(rows)
    ensures RowsOf(db, b.kind, rows)
  {
    var all := Matching(db, b.kind, b.preds, b.order);
    MatchingRows(db, b.kind, b.preds, b.order);
    WindowDistinct((row: Row) => KeyOf(row, IdColumn), all, GetOr(b.offset, 0), SpecLimit(b));
  }

  // The nodes send the keys of their rows.
  lemma NodesSendRowKeys(db: Db, b: Builder, q: Tree, rows: seq<Row>, done: set<Edge>, e: Edge)
    requires Loading(db, b, q, rows, e)
    ensures BatchKeys(e, NestedAll(db, b, q, rows, done)) == BatchKeysOf(e, rows)
  {
    var nodes := NestedAll(db, b, q, rows, done);
    forall i | 0 <= i < |rows| ensures SourceKey(e, nodes[i]) == RowKey(e, rows[i]) {
      assert rows[i] in rows;
      SourceKeyKept(db, b, q, rows[i], done, e);
    }
    assert KeysOf(e, nodes) == Map(row => RowKey(e, row), rows);
  }

  // Loading edge after edge, each adds its own lookups: no edge disturbs another.
  lemma {:induction false} RunEdgesIsNested(db: Db, b: Builder, q: Tree, rows: seq<Row>, es: seq<Edge>, done: set<Edge>,
                                            edges: map<Edge, Tree>)
    requires WellFormed(db) && Belongs(q) && Fair(db, q, rows) && b.kind == q.own.kind
    requires rows != [] && RowsOf(db, b.kind, rows)
    requires forall e | e in q.edges :: e in done || e in es
    ensures RunEdges(db, q, es, NestedAll(db, b, q, rows, done), edges).nodes
      == Ok(NestedAll(db, b, q, rows, q.edges.Keys))
    decreases q, 0, |es|
  {
    if es == [] {
      NestedOnAllEdges(db, b, q, rows, done);
    } else if es[0] in q.edges {
      var e, child := es[0], q.edges[es[0]];
      var primed := Primed(e, child.own, NestedAll(db, b, q, rows, done));
      PrimedFetchesShared(db, b, q, rows, done, e);
      RunIsNested(db, primed, child, SharedRows(db, e, child.own, rows));
      LoadIsLookup(db, b, q, rows, es, done, edges);
      RunEdgesIsNested(db, b, q, rows, es[1..], done + {e}, edges[e := Tree(primed, Run(db, primed, child).edges)]);
    } else {
      RunEdgesIsNested(db, b, q, rows, es[1..], done, edges);
    }
  }

  lemma PrimedFetchesShared(db: Db, b: Builder, q: Tree, rows: seq<Row>, done: set<Edge>, e: Edge)
    requires Loading(db, b, q, rows, e)
    ensures var child := q.edges[e].own;
      var primed := Primed(e, child, NestedAll(db, b, q, rows, done));
      && primed.kind == child.kind
      && (InvalidFieldIn(primed.kind, primed.fields).None? && Fetch(db, primed).Ok? <==> Accepted(child))
      && (Fetch(db, primed).Ok? ==> Fetch(db, primed) == Ok(SharedRows(db, e, child, rows)))
  {
    NodesSendRowKeys(db, b, q, rows, done, e);
    PrimedIsValid(e, q.edges[e].own, NestedAll(db, b, q, rows, done));
  }

  // One load, if its child loads naively.
  lemma LoadIsLookup(db: Db, b: Builder, q: Tree, rows: seq<Row>, es: seq<Edge>, done: set<Edge>, edges: map<Edge, Tree>)
    requires es != [] && Loading(db, b, q, rows, es[0]) && FairEdge(db, es[0], q.edges[es[0]].own, rows)
    requires var child := q.edges[es[0]];
      var primed := Primed(es[0], child.own, NestedAll(db, b, q, rows, done));
      Run(db, primed, child).nodes
        == Ok(NestedAll(db, primed, child, SharedRows(db, es[0], child.own, rows), child.edges.Keys))
    ensures var child := q.edges[es[0]];
      var primed := Primed(es[0], child.own, NestedAll(db, b, q, rows, done));
      RunEdges(db, q, es, NestedAll(db, b, q, rows, done), edges)
        == RunEdges(db, q, es[1..], NestedAll(db, b, q, rows, done + {es[0]}),
                    edges[es[0] := Tree(primed, Run(db, primed, child).edges)])
  {
    var e, child := es[0], q.edges[es[0]];
    PrimedIsValid(e, child.own, NestedAll(db, b, q, rows, done));
    NestedIgnoresPreds(db, Primed(e, child.own, NestedAll(db, b, q, rows, done)), KeyField(e, child.own), child,
                       SharedRows(db, e, child.own, rows));
    AttachIsLookup(db, b, q, rows, done, e);
  }

  lemma PrimedIsValid(e: Edge, child: Builder, nodes: seq<Entity>)
    requires child.kind == Target(e)
    ensures var primed := Primed(e, child, nodes);
      && primed == KeyField(e, child).(preds := child.preds + [In(JoinColumn(e), BatchKeys(e, nodes))])
      && (InvalidFieldIn(primed.kind, primed.fields).None? <==> InvalidFieldIn(child.kind, child.fields).None?)
  {
    JoinKeyIsKey(e);
    assert ValidColumn(child.kind, JoinColumn(e));
  }

  lemma NestedIgnoresPreds(db: Db, b: Builder, b': Builder, q: Tree, rows: seq<Row>)
    requires b.kind == b'.kind && b.fields == b'.fields
    ensures NestedAll(db, b, q, rows, q.edges.Keys) == Map(row => Nested(db, b', q, row), rows)
  {
    forall i | 0 <= i < |rows| ensures NestedOn(db, b, q, rows[i], q.edges.Keys) == Nested(db, b', q, rows[i]) {
      assert SpecColumns(b, q.edges.Keys) == SpecColumns(b', q.edges.Keys);
    }
  }

  lemma NestedOnAllEdges(db: Db, b: Builder, q: Tree, rows: seq<Row>, done: set<Edge>)
    requires forall e | e in q.edges :: e in done
    ensures NestedAll(db, b, q, rows, done) == NestedAll(db, b, q, rows, q.edges.Keys)
  {
    forall i | 0 <= i < |rows| ensures NestedOn(db, b, q, rows[i], done) == NestedOn(db, b, q, rows[i], q.edges.Keys) {
      assert Found(db, q, rows[i], done) == Found(db, q, rows[i], q.edges.Keys);
    }
  }
}
