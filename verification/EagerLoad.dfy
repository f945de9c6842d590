/**
 What running a query tree means.  `Run` follows the code: fetch the rows of a builder, then for each
 requested edge add the foreign-key predicate to the child builder, run it once for all nodes, and hand
 its results to the nodes by a hash join.  NestedJoin has the naive meaning, in which every row looks its
 neighbours up by itself, and relates the two.
 */
module EagerLoad {
  import opened Wrappers
  import opened Lists
  import opened Store

  // A builder with its eager-loading children.
  datatype Tree = Tree(own: Builder, edges: map<Edge, Tree>)

  // A loaded entity; an edge that was not loaded, or found nothing to point to, has no entry.
  datatype Entity = Entity(
    kind: Kind,
    fields: Row,
    many: map<Edge, seq<Entity>>,
    one: map<Edge, Entity>,
    loaded: set<Edge>)

  function EntityId(n: Entity): Id {
    KeyOf(n.fields, IdColumn)
  }

  // scanValues and assignValues of one row, and the loadedTypes of the query.
  function Decode(k: Kind, row: Row, cs: seq<Column>, loaded: set<Edge>): Entity {
    Entity(k, Project(row, cs), map[], map[], loaded)
  }

  function DecodeAll(k: Kind, rows: seq<Row>, cs: seq<Column>, loaded: set<Edge>): (ns: seq<Entity>)
    ensures |ns| == |rows|
  {
    seq(|rows|, i requires 0 <= i < |rows| => Decode(k, rows[i], cs, loaded))
  }

  // ---------- The hash joins ----------

  function SourceKey(e: Edge, n: Entity): Id {
    if ToMany(e) then EntityId(n) else KeyOf(n.fields, ForeignKey(e))
  }

  function TargetKey(e: Edge, n: Entity): Id {
    if ToMany(e) then KeyOf(n.fields, ForeignKey(e)) else EntityId(n)
  }

  function KeysOf(e: Edge, nodes: seq<Entity>): (keys: seq<Id>)
    ensures |keys| == |nodes| && forall i | 0 <= i < |nodes| :: keys[i] == SourceKey(e, nodes[i])
  {
    seq(|nodes|, i requires 0 <= i < |nodes| => SourceKey(e, nodes[i]))
  }

  // The child builder as the loader changes it: the foreign key among the selected fields, if any are
  // selected, and one more predicate.
  function PrimedWith(e: Edge, child: Builder, pred: Pred): Builder {
    child.(fields := if ToMany(e) && child.fields != [] then AddOnce(child.fields, ForeignKey(e)) else child.fields,
           preds := child.preds + [pred])
  }

  function JoinColumn(e: Edge): Column {
    if ToMany(e) then ForeignKey(e) else IdColumn
  }

  // The keys the loader sends: the nodes' ids, or their foreign keys, each once.
  function BatchKeys(e: Edge, nodes: seq<Entity>): seq<Id> {
    if ToMany(e) then KeysOf(e, nodes) else Dedup(KeysOf(e, nodes))
  }

  lemma KeysAreSourceKeys(e: Edge, nodes: seq<Entity>, x: Id)
    ensures x in KeysOf(e, nodes) <==> exists i :: 0 <= i < |nodes| && SourceKey(e, nodes[i]) == x
    ensures x in BatchKeys(e, nodes) <==> x in KeysOf(e, nodes)
  {
    if i :| 0 <= i < |nodes| && SourceKey(e, nodes[i]) == x {
      assert KeysOf(e, nodes)[i] == x;
    }
  }

  function Primed(e: Edge, child: Builder, nodes: seq<Entity>): Builder {
    PrimedWith(e, child, In(JoinColumn(e), BatchKeys(e, nodes)))
  }

  // Several nodes with one id share a key of the map; the last one gets the neighbours.
  predicate IsLast(nodes: seq<Entity>, i: nat)
    requires i < |nodes|
  {
    forall j | i < j < |nodes| :: EntityId(nodes[j]) != EntityId(nodes[i])
  }

  function Neighbours(e: Edge, id: Id, children: seq<Entity>): seq<Entity> {
    Filter(c => TargetKey(e, c) == id, children)
  }

  function AttachTo(e: Edge, nodes: seq<Entity>, i: nat, children: seq<Entity>): Entity
    requires i < |nodes|
  {
    var n := nodes[i];
    var found := Neighbours(e, SourceKey(e, n), children);
    if ToMany(e) then n.(many := n.many[e := if IsLast(nodes, i) then found else []])
    else if found == [] then n
    else n.(one := n.one[e := found[|found| - 1]])
  }

  // The first neighbour whose key none of the nodes has.
  function Stray(e: Edge, nodes: seq<Entity>, children: seq<Entity>): (r: Option<Entity>)
    ensures r.None? <==> forall c | c in children ::
      exists i :: 0 <= i < |nodes| && SourceKey(e, nodes[i]) == TargetKey(e, c)
  {
    if children == [] then None
    else if exists i | 0 <= i < |nodes| :: SourceKey(e, nodes[i]) == TargetKey(e, children[0]) then
      Stray(e, nodes, children[1..])
    else Some(children[0])
  }

  function Attach(e: Edge, nodes: seq<Entity>, children: seq<Entity>): (r: Result<seq<Entity>, QueryError>)
    ensures r.Ok? ==> |r.value| == |nodes|
  {
    var stray := Stray(e, nodes, children);
    if stray.Some? then Err(UnexpectedKey(TargetKey(e, stray.value)))
    else Ok(seq(|nodes|, i requires 0 <= i < |nodes| => AttachTo(e, nodes, i, children)))
  }

  // ---------- Running a tree ----------

  // The entities, and the children as the run leaves them.
  datatype Outcome = Outcome(nodes: Result<seq<Entity>, QueryError>, edges: map<Edge, Tree>)

  // All on a query with builder b and the children of q.
  function Run(db: Db, b: Builder, q: Tree): Outcome
    decreases q, 1, 0
  {
    var invalid := InvalidFieldIn(b.kind, b.fields);
    if invalid.Some? then Outcome(Err(InvalidField(invalid.value)), q.edges)
    else
      match Fetch(db, b)
      case Err(e) => Outcome(Err(e), q.edges)
      case Ok(rows) =>
        var nodes := DecodeAll(b.kind, rows, SpecColumns(b, q.edges.Keys), q.edges.Keys);
        if nodes == [] then Outcome(Ok([]), q.edges)
        else RunEdges(db, q, EdgesOf(b.kind), nodes, q.edges)
  }

  function RunEdges(db: Db, q: Tree, es: seq<Edge>, nodes: seq<Entity>, edges: map<Edge, Tree>): Outcome
    decreases q, 0, |es|
  {
    if es == [] then Outcome(Ok(nodes), edges)
    else if es[0] !in q.edges then RunEdges(db, q, es[1..], nodes, edges)
    else
      var e := es[0];
      var child := q.edges[e];
      var primed := Primed(e, child.own, nodes);
      var r := Run(db, primed, child);
      var edges' := edges[e := Tree(primed, r.edges)];
      match r.nodes
      case Err(err) => Outcome(Err(err), edges')
      case Ok(children) =>
        match Attach(e, nodes, children)
        case Err(err) => Outcome(Err(err), edges')
        case Ok(nodes') => RunEdges(db, q, es[1..], nodes', edges')
  }

  // One loader: the tree it leaves, and the nodes with their neighbours.
  function Loaded(db: Db, q: Tree, e: Edge, nodes: seq<Entity>): Tree
    requires e in q.edges
  {
    var primed := Primed(e, q.edges[e].own, nodes);
    q.(edges := q.edges[e := Tree(primed, Run(db, primed, q.edges[e]).edges)])
  }

  function LoadResult(db: Db, q: Tree, e: Edge, nodes: seq<Entity>): Result<seq<Entity>, QueryError>
    requires e in q.edges
  {
    var r := Run(db, Primed(e, q.edges[e].own, nodes), q.edges[e]);
    if r.nodes.Err? then Err(r.nodes.error) else Attach(e, nodes, r.nodes.value)
  }

  // Running the remaining edges is one loader and then the rest.
  lemma RunEdgesStep(db: Db, q: Tree, val: Tree, es: seq<Edge>, nodes: seq<Entity>)
    requires es != []
    requires es[0] in q.edges ==> es[0] in val.edges && val.edges[es[0]] == q.edges[es[0]]
    ensures RunEdges(db, q, es, nodes, val.edges) ==
      if es[0] !in q.edges then RunEdges(db, q, es[1..], nodes, val.edges)
      else
        match LoadResult(db, val, es[0], nodes)
        case Err(e) => Outcome(Err(e), Loaded(db, val, es[0], nodes).edges)
        case Ok(ns) => RunEdges(db, q, es[1..], ns, Loaded(db, val, es[0], nodes).edges)
  {
  }

  // Only the builder and the children matter, not the builder recorded in the tree.
  lemma RunIgnoresOwn(db: Db, b: Builder, q: Tree, q': Tree)
    requires q.edges == q'.edges
    ensures Run(db, b, q) == Run(db, b, q')
  {
    forall es, nodes, edges ensures RunEdges(db, q, es, nodes, edges) == RunEdges(db, q', es, nodes, edges) {
      RunEdgesIgnoresOwn(db, q, q', es, nodes, edges);
    }
  }

  lemma {:induction false} RunEdgesIgnoresOwn(db: Db, q: Tree, q': Tree, es: seq<Edge>, nodes: seq<Entity>,
                                              edges: map<Edge, Tree>)
    requires q.edges == q'.edges
    ensures RunEdges(db, q, es, nodes, edges) == RunEdges(db, q', es, nodes, edges)
    decreases |es|
  {
    if es != [] {
      var rest := es[1..];
      forall nodes', edges' ensures RunEdges(db, q, rest, nodes', edges') == RunEdges(db, q', rest, nodes', edges') {
        RunEdgesIgnoresOwn(db, q, q', rest, nodes', edges');
      }
    }
  }
}
