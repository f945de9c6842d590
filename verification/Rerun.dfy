/**
 Loaders change the child builders for good: they add predicates and fields in place.  A builder can still
 be run again: the second run adds the same predicates once more and returns the same entities.
 */
module Rerun {
  import opened Wrappers
  import opened Lists
  import opened Store
  import opened EagerLoad

  lemma {:induction false} RunEdgesTouchesListed(db: Db, q: Tree, es: seq<Edge>, nodes: seq<Entity>, edges: map<Edge, Tree>)
    requires q.edges.Keys <= edges.Keys
    ensures var after := RunEdges(db, q, es, nodes, edges).edges;
      after.Keys == edges.Keys && forall e | e in edges && e !in es :: after[e] == edges[e]
    decreases |es|
  {
    if es != [] {
      var e, rest := es[0], es[1..];
      if e !in q.edges {
        RunEdgesTouchesListed(db, q, rest, nodes, edges);
      } else {
        var primed := Primed(e, q.edges[e].own, nodes);
        var r := Run(db, primed, q.edges[e]);
        var edges' := edges[e := Tree(primed, r.edges)];
        if r.nodes.Ok? && Attach(e, nodes, r.nodes.value).Ok? {
          RunEdgesTouchesListed(db, q, rest, Attach(e, nodes, r.nodes.value).value, edges');
        }
      }
    }
  }

  // A builder that fetches the same rows and selects the same fields.
  ghost predicate SameQuery(db: Db, b: Builder, b': Builder) {
    b'.kind == b.kind && b'.fields == b.fields && Fetch(db, b') == Fetch(db, b)
  }

  lemma PrimedTwice(db: Db, e: Edge, child: Builder, nodes: seq<Entity>)
    ensures SameQuery(db, Primed(e, child, nodes), Primed(e, Primed(e, child, nodes), nodes))
  {
    var once := Primed(e, child, nodes);
    var twice := Primed(e, once, nodes);
    var p := In(JoinColumn(e), BatchKeys(e, nodes));
    forall row ensures Matches(once.preds, row) == Matches(twice.preds, row) {
      MatchesOneMore(child.preds, p, row);
      MatchesOneMore(once.preds, p, row);
    }
    FilterSame(row => Matches(once.preds, row), row => Matches(twice.preds, row), TableOf(db, child.kind));
  }

  // Running a builder again, on the children as the first run left them, gives the same result.
  lemma {:induction false} RunAgain(db: Db, b: Builder, q: Tree, b': Builder, q': Tree)
    requires SameQuery(db, b, b') && q'.edges == Run(db, b, q).edges
    ensures Run(db, b', q').nodes == Run(db, b, q).nodes
    decreases q, 1, 0
  {
    if InvalidFieldIn(b.kind, b.fields).None? && Fetch(db, b).Ok? {
      var nodes := DecodeAll(b.kind, Fetch(db, b).value, SpecColumns(b, q.edges.Keys), q.edges.Keys);
      if nodes != [] {
        EdgesAreDistinct(b.kind);
        RunEdgesTouchesListed(db, q, EdgesOf(b.kind), nodes, q.edges);
        assert SpecColumns(b', q'.edges.Keys) == SpecColumns(b, q.edges.Keys);
        RunEdgesAgain(db, q, q', EdgesOf(b.kind), nodes, q.edges, q'.edges);
      }
    }
  }

  lemma {:induction false} RunEdgesAgain(db: Db, q: Tree, q': Tree, es: seq<Edge>, nodes: seq<Entity>,
                                         edges: map<Edge, Tree>, edges': map<Edge, Tree>)
    requires forall i, j | 0 <= i < j < |es| :: es[i] != es[j]
    requires q.edges.Keys == q'.edges.Keys <= edges.Keys
    requires var left := RunEdges(db, q, es, nodes, edges).edges;
      forall e | e in es && e in q.edges :: e in left && q'.edges[e] == left[e]
    ensures RunEdges(db, q', es, nodes, edges').nodes == RunEdges(db, q, es, nodes, edges).nodes
    decreases q, 0, |es|
  {
    if es != [] {
      var e, rest := es[0], es[1..];
      assert e !in rest && forall x | x in rest :: x in es;
      if e !in q.edges {
        RunEdgesAgain(db, q, q', rest, nodes, edges, edges');
      } else {
        var child := q.edges[e];
        var primed := Primed(e, child.own, nodes);
        var r := Run(db, primed, child);
        var left := edges[e := Tree(primed, r.edges)];
        var join := if r.nodes.Ok? then Attach(e, nodes, r.nodes.value) else Err(r.nodes.error);
        if join.Ok? {
          RunEdgesTouchesListed(db, q, rest, join.value, left);
        }
        assert q'.edges[e] == Tree(primed, r.edges);
        var primed' := Primed(e, primed, nodes);
        PrimedTwice(db, e, child.own, nodes);
        RunAgain(db, primed, child, primed', q'.edges[e]);
        if join.Ok? {
          var r' := Run(db, primed', q'.edges[e]);
          RunEdgesAgain(db, q, q', rest, join.value, left, edges'[e := Tree(primed', r'.edges)]);
        }
      }
    }
  }
}
