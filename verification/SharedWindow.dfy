/**
 What a loader gives the nodes when its child has a limit or offset: the child is run once for all nodes, so
 its window is one for all of them.  Eager loading equals the naive nested meaning exactly when each row's own
 window is its share of that one, at every edge and at any depth.
 */
module SharedWindow {
  import opened Wrappers
  import opened Lists
  import opened Store
  import opened EagerLoad
  import opened NestedJoin
  import opened EdgeLaws

  // ---------- No unexpected keys ----------

  lemma FetchedKeyIsSent(db: Db, q: Tree, e: Edge, nodes: seq<Entity>, x: nat)
    requires e in q.edges && q.edges[e].own.kind == Target(e) && Fetched(db, q, e, nodes).Ok?
    requires x < |Fetched(db, q, e, nodes).value|
    ensures TargetKey(e, Fetched(db, q, e, nodes).value[x]) in BatchKeys(e, nodes)
  {
    var child := q.edges[e].own;
    FetchedKeepKeys(db, q, e, nodes);
    RowIsAskedFor(db, e, child, BatchKeys(e, nodes), Fetch(db, Primed(e, child, nodes)).value[x]);
  }

  // Whatever a child limits, selects or loads itself, the neighbours it returns have keys of the nodes.
  lemma FetchedHasNoStray(db: Db, q: Tree, e: Edge, nodes: seq<Entity>)
    requires e in q.edges && q.edges[e].own.kind == Target(e) && Fetched(db, q, e, nodes).Ok?
    ensures Stray(e, nodes, Fetched(db, q, e, nodes).value).None?
  {
    var children := Fetched(db, q, e, nodes).value;
    forall x | 0 <= x < |children| ensures TargetKey(e, children[x]) in BatchKeys(e, nodes) {
      FetchedKeyIsSent(db, q, e, nodes, x);
    }
    NoStrayAmong(e, nodes, children);
  }

  // No run of a tree whose edges belong to their builders ends with the unexpected-foreign-key error.
  lemma {:induction false} UnexpectedKeyIsUnreachable(db: Db, b: Builder, q: Tree)
    requires Belongs(q)
    ensures var r := Run(db, b, q).nodes; r.Err? ==> !r.error.UnexpectedKey?
    decreases q, 1, 0
  {
    if InvalidFieldIn(b.kind, b.fields).None? && Fetch(db, b).Ok? {
      var nodes := DecodeAll(b.kind, Fetch(db, b).value, SpecColumns(b, q.edges.Keys), q.edges.Keys);
      UnexpectedKeyInNoEdge(db, q, EdgesOf(b.kind), nodes, q.edges);
    }
  }

  lemma {:induction false} UnexpectedKeyInNoEdge(db: Db, q: Tree, es: seq<Edge>, nodes: seq<Entity>, edges: map<Edge, Tree>)
    requires Belongs(q)
    ensures var r := RunEdges(db, q, es, nodes, edges).nodes; r.Err? ==> !r.error.UnexpectedKey?
    decreases q, 0, |es|
  {
    if es != [] {
      var e, rest := es[0], es[1..];
      if e !in q.edges {
        UnexpectedKeyInNoEdge(db, q, rest, nodes, edges);
      } else {
        var primed := Primed(e, q.edges[e].own, nodes);
        var r := Run(db, primed, q.edges[e]);
        UnexpectedKeyIsUnreachable(db, primed, q.edges[e]);
        if r.nodes.Ok? {
          FetchedHasNoStray(db, q, e, nodes);
          UnexpectedKeyInNoEdge(db, q, rest, Attach(e, nodes, r.nodes.value).value, edges[e := Tree(primed, r.edges)]);
        }
      }
    }
  }

  // ---------- What each node gets ----------

  lemma {:induction false} AlignedNeighbours(e: Edge, id: Id, children: seq<Entity>, rows: seq<Row>)
    requires |children| == |rows|
    requires forall i | 0 <= i < |rows| ::
      EntityId(children[i]) == KeyOf(rows[i], IdColumn) && TargetKey(e, children[i]) == KeyOf(rows[i], JoinColumn(e))
    ensures Map(n => EntityId(n), Neighbours(e, id, children))
      == Map(row => KeyOf(row, IdColumn), Filter(row => KeyOf(row, JoinColumn(e)) == id, rows))
  {
    if rows != [] {
      assert forall i | 0 <= i < |rows[1..]| :: children[1..][i] == children[i + 1] && rows[1..][i] == rows[i + 1];
      AlignedNeighbours(e, id, children[1..], rows[1..]);
      MapCons(n => EntityId(n), children[0], Neighbours(e, id, children[1..]));
      MapCons(row => KeyOf(row, IdColumn), rows[0], Filter(row => KeyOf(row, JoinColumn(e)) == id, rows[1..]));
    }
  }

  // A node gets, in order, the neighbours with its key from the one window that all nodes share.
  lemma NeighboursAreWindowRows(db: Db, q: Tree, e: Edge, nodes: seq<Entity>, id: Id)
    requires e in q.edges && q.edges[e].own.kind == Target(e) && Fetched(db, q, e, nodes).Ok?
    ensures Fetch(db, Primed(e, q.edges[e].own, nodes)).Ok?
    ensures Map(n => EntityId(n), Neighbours(e, id, Fetched(db, q, e, nodes).value))
      == Map(row => KeyOf(row, IdColumn),
             Filter(row => KeyOf(row, JoinColumn(e)) == id, Fetch(db, Primed(e, q.edges[e].own, nodes)).value))
  {
    FetchedKeepKeys(db, q, e, nodes);
    AlignedNeighbours(e, id, Fetched(db, q, e, nodes).value, Fetch(db, Primed(e, q.edges[e].own, nodes)).value);
  }

  // ---------- Nested exactly when fair ----------

  // The result along e is that of the naive meaning for every node.
  ghost predicate NestedAlong(db: Db, b: Builder, q: Tree, rows: seq<Row>, e: Edge)
    requires e in q.edges
  {
    var nodes := NestedAll(db, b, q, rows, {});
    && Fetched(db, q, e, nodes).Ok?
    && forall i | 0 <= i < |rows| ::
         SameEdge(e, NestedOn(db, b, q, rows[i], q.edges.Keys), AttachTo(e, nodes, i, Fetched(db, q, e, nodes).value))
  }

  lemma RunIsNestedAlong(db: Db, b: Builder, q: Tree, rows: seq<Row>, e: Edge)
    requires WellFormed(db) && Belongs(q) && b.kind == q.own.kind && e in q.edges
    requires Fetch(db, b) == Ok(rows) && rows != []
    requires Run(db, b, q).nodes == Ok(NestedAll(db, b, q, rows, q.edges.Keys))
    ensures NestedAlong(db, b, q, rows, e) && Loading(db, b, q, rows, e)
  {
    RunComposes(db, b, q, rows);
    DecodedIsNested(db, b, q, rows);
    FetchedRows(db, b, rows);
    JoinKeyIsKey(e);
    JoinedIsNestedAlong(db, b, q, rows, e, EdgesOf(b.kind), Run(db, b, q).nodes.value);
  }

  lemma JoinedIsNestedAlong(db: Db, b: Builder, q: Tree, rows: seq<Row>, e: Edge, es: seq<Edge>, out: seq<Entity>)
    requires e in q.edges && e in es && rows != []
    requires out == NestedAll(db, b, q, rows, q.edges.Keys)
    requires Joined(db, q, es, NestedAll(db, b, q, rows, {}), out)
    ensures NestedAlong(db, b, q, rows, e)
  {
    var nodes := NestedAll(db, b, q, rows, {});
    assert JoinedAt(db, q, es, nodes, out, e, 0);
    forall i | 0 <= i < |rows| ensures SameEdge(e, out[i], AttachTo(e, nodes, i, Fetched(db, q, e, nodes).value)) {
      assert JoinedAt(db, q, es, nodes, out, e, i);
    }
  }

  // What entity n holds along e when it found these neighbours.
  ghost predicate HoldsAlong(e: Edge, n: Entity, found: seq<Entity>) {
    if ToMany(e) then e in n.many && n.many[e] == found
    else if found == [] then e !in n.one
    else e in n.one && n.one[e] == found[|found| - 1]
  }

  // What the naive meaning finds is all that was fetched with the key, where one at most is found or all are kept.
  lemma FoundIsJoined(e: Edge, all: Entity, nodes: seq<Entity>, i: nat, children: seq<Entity>, found: seq<Entity>)
    requires i < |nodes| && IsLast(nodes, i) && SameEdge(e, all, AttachTo(e, nodes, i, children))
    requires HoldsAlong(e, all, found) && e !in nodes[i].one
    requires !ToMany(e) ==> |found| <= 1 && |Neighbours(e, SourceKey(e, nodes[i]), children)| <= 1
    ensures Neighbours(e, SourceKey(e, nodes[i]), children) == found
  {
  }

  lemma FoundAt(db: Db, q: Tree, row: Row, e: Edge)
    requires e in q.edges
    ensures e in Found(db, q, row, q.edges.Keys) && Found(db, q, row, q.edges.Keys)[e] == LookedUp(db, q, e, row)
    ensures Found(db, q, row, {}) == map[]
  {
  }

  lemma NestedHoldsFound(db: Db, b: Builder, q: Tree, row: Row, e: Edge)
    requires e in q.edges
    ensures HoldsAlong(e, NestedOn(db, b, q, row, q.edges.Keys), LookedUp(db, q, e, row))
  {
    FoundAt(db, q, row, e);
    assert NestedOn(db, b, q, row, q.edges.Keys).many == ManyOf(Found(db, q, row, q.edges.Keys));
    assert NestedOn(db, b, q, row, q.edges.Keys).one == OneOf(Found(db, q, row, q.edges.Keys));
  }

  // A key that is the id finds one row at most.
  lemma OneRowById(db: Db, k: Kind, rows: seq<Row>, key: Id)
    requires RowsOf(db, k, rows)
    ensures |WithKey(IdColumn, key, rows)| <= 1
  {
    var id := (row: Row) => KeyOf(row, IdColumn);
    var found := WithKey(IdColumn, key, rows);
    FilterDistinct(id, row => KeyOf(row, IdColumn) == key, rows);
    if found != [] {
      assert found[0] in found && found[|found| - 1] in found;
      SameKeySamePlace(id, found, 0, |found| - 1);
    }
  }

  lemma OwnRowsHaveKey(db: Db, e: Edge, child: Builder, key: Id)
    requires WellFormed(db) && child.kind == Target(e)
    ensures RowsOf(db, child.kind, OwnRows(db, e, child, key))
    ensures WithKey(JoinColumn(e), key, OwnRows(db, e, child, key)) == OwnRows(db, e, child, key)
  {
    RowsForFacts(db, e, child, [key]);
    FilterAll(row => KeyOf(row, JoinColumn(e)) == key, OwnRows(db, e, child, key));
  }

  // A load that succeeds fetched the rows that all nodes share.
  lemma FetchedIsShared(db: Db, b: Builder, q: Tree, rows: seq<Row>, e: Edge)
    requires Loading(db, b, q, rows, e) && Fetched(db, q, e, NestedAll(db, b, q, rows, {})).Ok?
    ensures var child := q.edges[e].own;
      Accepted(child) && Fetch(db, Primed(e, child, NestedAll(db, b, q, rows, {}))) == Ok(SharedRows(db, e, child, rows))
    ensures |Fetched(db, q, e, NestedAll(db, b, q, rows, {})).value| == |SharedRows(db, e, q.edges[e].own, rows)|
  {
    PrimedFetchesShared(db, b, q, rows, {}, e);
    FetchedKeepKeys(db, q, e, NestedAll(db, b, q, rows, {}));
  }

  // A key finds as many of the fetched neighbours as of their rows, with the same ids.
  lemma NeighboursAreShared(db: Db, b: Builder, q: Tree, rows: seq<Row>, e: Edge, key: Id)
    requires Loading(db, b, q, rows, e) && Fetched(db, q, e, NestedAll(db, b, q, rows, {})).Ok?
    ensures Map(n => EntityId(n), Neighbours(e, key, Fetched(db, q, e, NestedAll(db, b, q, rows, {})).value))
      == Map(row => KeyOf(row, IdColumn), WithKey(JoinColumn(e), key, SharedRows(db, e, q.edges[e].own, rows)))
  {
    FetchedIsShared(db, b, q, rows, e);
    NeighboursAreWindowRows(db, q, e, NestedAll(db, b, q, rows, {}), key);
  }

  lemma SameLength<A, B, C>(f: A -> C, s: seq<A>, g: B -> C, t: seq<B>)
    requires Map(f, s) == Map(g, t)
    ensures |s| == |t| && forall i | 0 <= i < |s| :: f(s[i]) == g(t[i])
  {
    forall i | 0 <= i < |s| ensures f(s[i]) == g(t[i]) {
      assert Map(f, s)[i] == Map(g, t)[i];
    }
  }

  // Along a many-to-one edge a key finds one neighbour at most, by itself or among the fetched.
  lemma OneAtMost(db: Db, b: Builder, q: Tree, rows: seq<Row>, e: Edge, key: Id)
    requires Loading(db, b, q, rows, e) && Fetched(db, q, e, NestedAll(db, b, q, rows, {})).Ok? && !ToMany(e)
    ensures |NestedRows(db, q, e, OwnRows(db, e, q.edges[e].own, key))| <= 1
    ensures |Neighbours(e, key, Fetched(db, q, e, NestedAll(db, b, q, rows, {})).value)| <= 1
  {
    var child := q.edges[e].own;
    var shared := SharedRows(db, e, child, rows);
    NeighboursAreShared(db, b, q, rows, e, key);
    SameLength(n => EntityId(n), Neighbours(e, key, Fetched(db, q, e, NestedAll(db, b, q, rows, {})).value),
               row => KeyOf(row, IdColumn), WithKey(IdColumn, key, shared));
    RowsForFacts(db, e, child, BatchKeysOf(e, rows));
    OneRowById(db, child.kind, shared, key);
    OwnRowsHaveKey(db, e, child, key);
    OneRowById(db, child.kind, OwnRows(db, e, child, key), key);
  }

  // The node of row i before any edge is loaded.
  lemma NodeAt(db: Db, b: Builder, q: Tree, rows: seq<Row>, e: Edge, i: nat)
    requires Loading(db, b, q, rows, e) && i < |rows|
    ensures var nodes := NestedAll(db, b, q, rows, {});
      SourceKey(e, nodes[i]) == RowKey(e, rows[i]) && IsLast(nodes, i) && e !in nodes[i].one
  {
    assert rows[i] in rows;
    SourceKeyKept(db, b, q, rows[i], {}, e);
    EveryNodeIsLast(db, b, q, rows, {}, e, i);
    FoundAt(db, q, rows[i], e);
  }

  // If the result along e is the naive one, each row looks up exactly the fetched neighbours with its key.
  lemma JoinIsLookedUp(db: Db, b: Builder, q: Tree, rows: seq<Row>, e: Edge, i: nat)
    requires Loading(db, b, q, rows, e) && NestedAlong(db, b, q, rows, e) && i < |rows|
    ensures Neighbours(e, RowKey(e, rows[i]), Fetched(db, q, e, NestedAll(db, b, q, rows, {})).value)
      == LookedUp(db, q, e, rows[i])
  {
    var nodes, all := NestedAll(db, b, q, rows, {}), NestedOn(db, b, q, rows[i], q.edges.Keys);
    var children, found := Fetched(db, q, e, nodes).value, LookedUp(db, q, e, rows[i]);
    assert SameEdge(e, all, AttachTo(e, nodes, i, children));
    NodeAt(db, b, q, rows, e, i);
    NestedHoldsFound(db, b, q, rows[i], e);
    if !ToMany(e) { OneAtMost(db, b, q, rows, e, RowKey(e, rows[i])); }
    FoundIsJoined(e, all, nodes, i, children, found);
  }

  lemma SameIdSameRow(db: Db, k: Kind, rows: seq<Row>, a: Row, b: Row)
    requires RowsOf(db, k, rows) && a in rows && b in rows && KeyOf(a, IdColumn) == KeyOf(b, IdColumn)
    ensures a == b
  {
    var i :| 0 <= i < |rows| && rows[i] == a;
    var j :| 0 <= j < |rows| && rows[j] == b;
    SameKeySamePlace((row: Row) => KeyOf(row, IdColumn), rows, i, j);
  }

  // Rows of one table with the same ids are the same rows.
  lemma SameIdsSameRows(db: Db, k: Kind, a: seq<Row>, b: seq<Row>)
    requires WellFormed(db) && RowsOf(db, k, a) && (forall row | row in b :: row in TableOf(db, k))
    requires Map(row => KeyOf(row, IdColumn), a) == Map(row => KeyOf(row, IdColumn), b)
    ensures a == b
  {
    var id := (row: Row) => KeyOf(row, IdColumn);
    SameLength(row => KeyOf(row, IdColumn), a, row => KeyOf(row, IdColumn), b);
    assert RowsOf(db, k, TableOf(db, k));
    forall i | 0 <= i < |a| ensures a[i] == b[i] {
      assert a[i] in a && b[i] in b;
      SameIdSameRow(db, k, TableOf(db, k), a[i], b[i]);
    }
  }

  lemma NestedKeepsId(db: Db, e: Edge, child: Tree, row: Row)
    requires child.own.kind == Target(e)
    ensures EntityId(Nested(db, KeyField(e, child.own), child, row)) == KeyOf(row, IdColumn)
  {
    var b := KeyField(e, child.own);
    var cs := SpecColumns(b, child.edges.Keys);
    assert IdColumn in cs by {
      assert b.fields == [] ==> ValidColumn(b.kind, IdColumn);
      assert b.fields != [] ==> IdColumn in [IdColumn] + WithoutId(b.fields);
    }
    ProjectKeeps(row, cs, IdColumn);
  }

  lemma NestedRowsKeepIds(db: Db, q: Tree, e: Edge, rows: seq<Row>)
    requires e in q.edges && q.edges[e].own.kind == Target(e)
    ensures Map(n => EntityId(n), NestedRows(db, q, e, rows)) == Map(row => KeyOf(row, IdColumn), rows)
  {
    forall i | 0 <= i < |rows| ensures EntityId(NestedRows(db, q, e, rows)[i]) == KeyOf(rows[i], IdColumn) {
      NestedKeepsId(db, e, q.edges[e], rows[i]);
    }
  }

  // So its own window is its share of the shared one.
  lemma OwnIsShare(db: Db, b: Builder, q: Tree, rows: seq<Row>, e: Edge, i: nat)
    requires Loading(db, b, q, rows, e) && NestedAlong(db, b, q, rows, e) && i < |rows|
    ensures OwnRows(db, e, q.edges[e].own, RowKey(e, rows[i]))
      == WithKey(JoinColumn(e), RowKey(e, rows[i]), SharedRows(db, e, q.edges[e].own, rows))
  {
    var child, key := q.edges[e].own, RowKey(e, rows[i]);
    JoinIsLookedUp(db, b, q, rows, e, i);
    NeighboursAreShared(db, b, q, rows, e, key);
    NestedRowsKeepIds(db, q, e, OwnRows(db, e, child, key));
    RowsForFacts(db, e, child, [key]);
    RowsForFacts(db, e, child, BatchKeysOf(e, rows));
    SameIdsSameRows(db, child.kind, OwnRows(db, e, child, key), WithKey(JoinColumn(e), key, SharedRows(db, e, child, rows)));
  }

  lemma SomeRowSendsKey(e: Edge, rows: seq<Row>, key: Id) returns (i: nat)
    requires key in BatchKeysOf(e, rows)
    ensures i < |rows| && RowKey(e, rows[i]) == key
  {
    var keys := Map(row => RowKey(e, row), rows);
    assert key in keys;
    i :| 0 <= i < |keys| && keys[i] == key;
  }

  lemma NestedRowAt(db: Db, q: Tree, e: Edge, found: seq<Row>, n: Entity) returns (row: Row)
    requires e in q.edges && n in NestedRows(db, q, e, found)
    ensures row in found && n == Nested(db, KeyField(e, q.edges[e].own), q.edges[e], row)
  {
    var y :| 0 <= y < |found| && NestedRows(db, q, e, found)[y] == n;
    row := found[y];
  }

  // And every fetched neighbour is the naive meaning of its row.
  lemma FetchedIsNestedAt(db: Db, b: Builder, q: Tree, rows: seq<Row>, e: Edge, x: nat)
    requires Loading(db, b, q, rows, e) && NestedAlong(db, b, q, rows, e)
    requires x < |SharedRows(db, e, q.edges[e].own, rows)| == |Fetched(db, q, e, NestedAll(db, b, q, rows, {})).value|
    ensures Fetched(db, q, e, NestedAll(db, b, q, rows, {})).value[x] == SharedNested(db, q, e, rows)[x]
  {
    var child, nodes := q.edges[e], NestedAll(db, b, q, rows, {});
    var shared, children := SharedRows(db, e, child.own, rows), Fetched(db, q, e, nodes).value;
    var key := KeyOf(shared[x], JoinColumn(e));
    FetchedIsShared(db, b, q, rows, e);
    FetchedKeepKeys(db, q, e, nodes);
    RowsForFacts(db, e, child.own, BatchKeysOf(e, rows));
    assert shared[x] in shared && children[x] in children;
    var i := SomeRowSendsKey(e, rows, key);
    JoinIsLookedUp(db, b, q, rows, e, i);
    OwnIsShare(db, b, q, rows, e, i);
    FilterKeeps(c => TargetKey(e, c) == key, children, children[x]);
    var row := NestedRowAt(db, q, e, WithKey(JoinColumn(e), key, shared), children[x]);
    NestedKeepsId(db, e, child, row);
    SameIdSameRow(db, child.own.kind, shared, row, shared[x]);
  }

  lemma FetchedIsNested(db: Db, b: Builder, q: Tree, rows: seq<Row>, e: Edge)
    requires Loading(db, b, q, rows, e) && NestedAlong(db, b, q, rows, e)
    ensures Fetched(db, q, e, NestedAll(db, b, q, rows, {})) == Ok(SharedNested(db, q, e, rows))
  {
    var children, naive := Fetched(db, q, e, NestedAll(db, b, q, rows, {})).value, SharedNested(db, q, e, rows);
    FetchedIsShared(db, b, q, rows, e);
    assert |children| == |naive|;
    forall x | 0 <= x < |naive| ensures children[x] == naive[x] {
      FetchedIsNestedAt(db, b, q, rows, e, x);
    }
    assert children == naive;
  }

  // One edge of a naive result is fair, and its child loads its rows naively.
  lemma ChildIsNested(db: Db, b: Builder, q: Tree, rows: seq<Row>, e: Edge)
    requires Loading(db, b, q, rows, e) && NestedAlong(db, b, q, rows, e)
    ensures FairEdge(db, e, q.edges[e].own, rows)
    ensures var child := q.edges[e];
      var primed := Primed(e, child.own, NestedAll(db, b, q, rows, {}));
      var shared := SharedRows(db, e, child.own, rows);
      && primed.kind == child.own.kind && Fetch(db, primed) == Ok(shared)
      && Run(db, primed, child).nodes == Ok(NestedAll(db, primed, child, shared, child.edges.Keys))
  {
    var child := q.edges[e];
    var primed := Primed(e, child.own, NestedAll(db, b, q, rows, {}));
    FetchedIsShared(db, b, q, rows, e);
    forall i | 0 <= i < |rows|
      ensures OwnRows(db, e, child.own, RowKey(e, rows[i]))
        == WithKey(JoinColumn(e), RowKey(e, rows[i]), SharedRows(db, e, child.own, rows))
    {
      OwnIsShare(db, b, q, rows, e, i);
    }
    FetchedIsNested(db, b, q, rows, e);
    NestedIgnoresPreds(db, primed, KeyField(e, child.own), child, SharedRows(db, e, child.own, rows));
  }

  lemma {:induction false} NestedIsFair(db: Db, b: Builder, q: Tree, rows: seq<Row>)
    requires WellFormed(db) && Belongs(q) && b.kind == q.own.kind
    requires Fetch(db, b) == Ok(rows)
    requires Run(db, b, q).nodes == Ok(NestedAll(db, b, q, rows, q.edges.Keys))
    ensures Fair(db, q, rows)
    decreases q
  {
    if rows != [] {
      forall e | e in q.edges
        ensures FairEdge(db, e, q.edges[e].own, rows) && Fair(db, q.edges[e], SharedRows(db, e, q.edges[e].own, rows))
      {
        RunIsNestedAlong(db, b, q, rows, e);
        ChildIsNested(db, b, q, rows, e);
        NestedIsFair(db, Primed(e, q.edges[e].own, NestedAll(db, b, q, rows, {})), q.edges[e],
                     SharedRows(db, e, q.edges[e].own, rows));
      }
    }
  }

  // Eager loading gives every row what its own queries would give it, limits and offsets included, exactly when at
  // every edge, at any depth, the child's query is accepted and each row's own window is the rows with its key in
  // the window that all rows share.
  lemma RunIsNestedExactly(db: Db, b: Builder, q: Tree, rows: seq<Row>)
    requires WellFormed(db) && Belongs(q) && b.kind == q.own.kind
    requires InvalidFieldIn(b.kind, b.fields).None? && Fetch(db, b) == Ok(rows)
    ensures Run(db, b, q).nodes == Ok(NestedAll(db, b, q, rows, q.edges.Keys)) <==> Fair(db, q, rows)
  {
    if Fair(db, q, rows) { RunIsNested(db, b, q, rows); }
    if Run(db, b, q).nodes == Ok(NestedAll(db, b, q, rows, q.edges.Keys)) { NestedIsFair(db, b, q, rows); }
  }
}
