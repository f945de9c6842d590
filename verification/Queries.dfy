/**
 The query builders on the heap.  The generator writes the same builder once per entity; here it is one
 class whose `kind` says for which entity it stands and whose `edges` holds the eager-loading children.
 Builder methods change the receiver in place; the query context is an object of its own.
 */
module Queries {
  import opened Wrappers
  import opened Lists
  import opened Store
  import opened EagerLoad
  import opened Nodes
  import opened Lookups
  import opened Answers
  import opened Rerun

  class QueryContext {
    var fields: seq<Column>
    var limit: Option<int>
    var offset: Option<int>
    var unique: Option<bool>

    constructor ()
      ensures fields == [] && limit == None && offset == None && unique == None
    {
      fields, limit, offset, unique := [], None, None, None;
    }

    method Clone() returns (c: QueryContext)
      ensures fresh(c)
      ensures c.fields == fields && c.limit == limit && c.offset == offset && c.unique == unique
    {
      c := new QueryContext();
      c.fields, c.limit, c.offset, c.unique := fields, limit, offset, unique;
    }

    method AppendFieldOnce(c: Column)
      modifies `fields
      ensures fields == AddOnce(old(fields), c)
    {
      if c !in fields {
        fields := fields + [c];
      }
    }
  }

  // ---------- Builder calls as data ----------

  // One call on a builder; With makes a new child and configures it with calls of its own.
  datatype Op =
    | Where(preds: seq<Pred>)
    | Limit(limit: int)
    | Offset(offset: int)
    | Unique(unique: bool)
    | Order(terms: seq<OrderTerm>)
    | Select(fields: seq<Column>)
    | GroupBy(fields: seq<Column>)
    | With(edge: Edge, options: seq<Op>)

  // The calls a builder of this kind has.
  ghost predicate Offers(k: Kind, op: Op)
    decreases op
  {
    op.With? ==> Source(op.edge) == k && forall i | 0 <= i < |op.options| :: Offers(Target(op.edge), op.options[i])
  }

  function EmptyBuilder(k: Kind): Builder {
    Builder(k, [], None, None, None, [], [])
  }

  function Applied(t: Tree, op: Op): Tree
    decreases op, 0
  {
    match op
    case Where(ps) => t.(own := t.own.(preds := t.own.preds + ps))
    case Limit(n) => t.(own := t.own.(limit := Some(n)))
    case Offset(n) => t.(own := t.own.(offset := Some(n)))
    case Unique(u) => t.(own := t.own.(unique := Some(u)))
    case Order(o) => t.(own := t.own.(order := t.own.order + o))
    case Select(fs) => t.(own := t.own.(fields := t.own.fields + fs))
    case GroupBy(fs) => t.(own := t.own.(fields := fs))
    case With(e, options) => t.(edges := t.edges[e := AppliedAll(Tree(EmptyBuilder(Target(e)), map[]), options)])
  }

  function AppliedAll(t: Tree, ops: seq<Op>): Tree
    decreases ops, |ops|
  {
    if ops == [] then t else Applied(AppliedAll(t, ops[..|ops| - 1]), ops[|ops| - 1])
  }

  // Calls act in order: those of b on what those of a made.
  lemma {:induction false} CallsCompose(t: Tree, a: seq<Op>, b: seq<Op>)
    ensures AppliedAll(t, a + b) == AppliedAll(AppliedAll(t, a), b)
  {
    if b == [] {
      assert a + b == a;
    } else {
      CallsCompose(t, a, b[..|b| - 1]);
      assert (a + b)[..|a + b| - 1] == a + b[..|b| - 1];
    }
  }

  // A call with the same effect on the same setting.
  predicate Overrides(later: Op, op: Op) {
    match op
    case Limit(_) => later.Limit?
    case Offset(_) => later.Offset?
    case Unique(_) => later.Unique?
    case With(e, _) => later.With? && later.edge == e
    case _ => true
  }

  // What the call has set: a value of its own, or a fresh child with the calls of its own.
  ghost predicate IsSet(t: Tree, op: Op) {
    match op
    case Limit(n) => t.own.limit == Some(n)
    case Offset(n) => t.own.offset == Some(n)
    case Unique(u) => t.own.unique == Some(u)
    case With(e, options) =>
      && e in t.edges
      && t.edges[e] == AppliedAll(Tree(Builder(Target(e), [], None, None, None, [], []), map[]), options)
    case _ => true
  }

  // Of several calls for one setting the last one decides.
  lemma {:induction false} LastCallWins(t: Tree, ops: seq<Op>, i: nat)
    requires i < |ops| && forall j | i < j < |ops| :: !Overrides(ops[j], ops[i])
    ensures IsSet(AppliedAll(t, ops), ops[i])
  {
    var before := ops[..|ops| - 1];
    if i < |before| {
      LastCallWins(t, before, i);
      assert !Overrides(ops[|ops| - 1], ops[i]);
    }
  }

  // The conditions, in the order of the calls that gave them.
  function CondsOf(ops: seq<Op>): seq<Pred> {
    if ops == [] then [] else (if ops[0].Where? then ops[0].preds else []) + CondsOf(ops[1..])
  }

  function TermsOf(ops: seq<Op>): seq<OrderTerm> {
    if ops == [] then [] else (if ops[0].Order? then ops[0].terms else []) + TermsOf(ops[1..])
  }

  // Conditions and order terms add up over the calls, in call order, and no other call touches them.
  lemma {:induction false} ConditionsAddUp(t: Tree, ops: seq<Op>)
    ensures var r := AppliedAll(t, ops).own;
      r.kind == t.own.kind && r.preds == t.own.preds + CondsOf(ops) && r.order == t.own.order + TermsOf(ops)
    decreases |ops|
  {
    if ops != [] {
      CallsCompose(t, [ops[0]], ops[1..]);
      assert [ops[0]] + ops[1..] == ops && [ops[0]][..0] == [];
      assert AppliedAll(t, [ops[0]]) == Applied(t, ops[0]);
      ConditionsAddUp(Applied(t, ops[0]), ops[1..]);
    }
  }

  // ---------- The builder ----------

  class Query {
    const kind: Kind
    const ctx: QueryContext
    var order: seq<OrderTerm>
    var preds: seq<Pred>
    var edges: map<Edge, Query>
    ghost var Val: Tree           // the query tree this builder stands for
    ghost var Repr: set<object>

    // The builder with its context and each of its children are separate trees of objects.
    ghost predicate Valid()
      reads this, Repr
      ensures Valid() ==> this in Repr && ctx in Repr
      decreases Repr
    {
      && this in Repr && ctx in Repr
      && Val.own == Own() && Val.edges.Keys == edges.Keys
      && (forall e | e in edges :: ValidChild(e))
    }

    ghost predicate ValidChild(e: Edge)
      requires this in Repr && e in edges && e in Val.edges
      reads this, Repr
      decreases Repr, 0
    {
      var child := edges[e];
      && Source(e) == kind && child.kind == Target(e)
      && edges.Values <= Repr && child.Repr <= Repr && this !in child.Repr && ctx !in child.Repr
      && (forall f | f in edges && f != e :: edges[f].Repr !! child.Repr)
      && child.Valid() && child.Val == Val.edges[e]
    }

    function Own(): Builder
      reads this, ctx
    {
      Builder(kind, ctx.fields, ctx.limit, ctx.offset, ctx.unique, order, preds)
    }

    constructor (kind: Kind)
      ensures Valid() && fresh(Repr) && this.kind == kind
      ensures Val == Tree(Builder(kind, [], None, None, None, [], []), map[])
    {
      this.kind := kind;
      var c := new QueryContext();
      ctx, order, preds, edges := c, [], [], map[];
      Repr := {this, c};
      Val := Tree(EmptyBuilder(kind), map[]);
    }

    // The copy that Clone makes of everything but the children.
    constructor Copy(q: Query, ctx: QueryContext)
      ensures Valid() && Repr == {this, ctx} && kind == q.kind
      ensures Val == Tree(Builder(q.kind, ctx.fields, ctx.limit, ctx.offset, ctx.unique, q.order, q.preds), map[])
    {
      this.kind, this.ctx := q.kind, ctx;
      order, preds, edges := q.order, q.preds, map[];
      Repr := {this, ctx};
      Val := Tree(Builder(q.kind, ctx.fields, ctx.limit, ctx.offset, ctx.unique, q.order, q.preds), map[]);
    }

    // The objects of each child are among those of the builder.
    lemma ChildrenAreWithin()
      requires Valid()
      ensures edges.Values <= Repr && forall f | f in edges :: edges[f].Repr <= Repr
    {
      forall f | f in edges ensures edges[f] in Repr && edges[f].Repr <= Repr { assert ValidChild(f); }
    }

    method SetChild(e: Edge, child: Query)
      requires Valid() && child.Valid() && child.Repr !! Repr
      requires Source(e) == kind && child.kind == Target(e)
      modifies `edges, `Repr, `Val
      ensures Valid() && Repr == old(Repr) + child.Repr
      ensures Val == old(Val).(edges := old(Val).edges[e := child.Val])
    {
      ChildrenAreWithin();
      edges := edges[e := child];
      Repr := Repr + child.Repr;
      Val := Val.(edges := Val.edges[e := child.Val]);
      forall f | f in edges && f != e ensures ValidChild(f) {
        assert old(ValidChild(f));
      }
    }

    lemma EdgesBelong()
      requires Valid()
      ensures forall e | e in Val.edges :: Source(e) == kind
    {
      forall e | e in edges ensures Source(e) == kind { assert ValidChild(e); }
    }

    method Clone() returns (c: Query)
      requires Valid()
      ensures c.Valid() && fresh(c.Repr)
      ensures c.Val == Val
      decreases Repr, 2
    {
      var ctx' := ctx.Clone();
      c := new Query.Copy(this, ctx');
      CloneChildren(c);
    }

    // The eager-loading children, in schema order.
    method CloneChildren(c: Query)
      requires Valid() && c.Valid() && c.Repr !! Repr && c.kind == kind && c.Val == Tree(Val.own, map[])
      modifies c`edges, c`Repr, c`Val
      ensures c.Valid() && fresh(c.Repr - old(c.Repr)) && c.Val == Val
      decreases Repr, 1
    {
      var es := EdgesOf(kind);
      ghost var val := Val;
      EdgesBelong();
      for i := 0 to |es|
        invariant Valid() && Val == val && c.Valid() && c.Repr !! Repr && fresh(c.Repr - old(c.Repr))
        invariant c.Val == Tree(val.own, Among(val.edges, es[..i]))
      {
        AmongOneMore(val.edges, es, i);
        if es[i] in edges {
          CloneChild(c, es[i]);
        }
      }
      AmongAll(val.edges, kind);
    }

    // One eager-loading child.
    method CloneChild(c: Query, e: Edge)
      requires Valid() && c.Valid() && c.Repr !! Repr && c.kind == kind && e in edges
      modifies c`edges, c`Repr, c`Val
      ensures c.Valid() && fresh(c.Repr - old(c.Repr))
      ensures c.Val == old(c.Val).(edges := old(c.Val).edges[e := Val.edges[e]])
      decreases Repr, 0
    {
      assert ValidChild(e);
      var child := edges[e].Clone();
      c.SetChild(e, child);
    }

    // ---------- Running the query ----------

    // A loader's use of a child: add the foreign key if fields are selected, add the predicate, run it.
    method AllWith(db: Db, e: Edge, pred: Pred) returns (r: Result<seq<Entity>, QueryError>)
      requires Valid()
      modifies Repr
      ensures Valid() && Repr == old(Repr)
      ensures Val.own == PrimedWith(e, old(Val).own, pred)
      ensures Outcome(r, Val.edges) == Run(db, Val.own, old(Val))
      decreases Repr, 9
    {
      ghost var before := Val;
      if ToMany(e) && |ctx.fields| > 0 {
        AppendFieldOnce(ForeignKey(e));
      }
      Where([pred]);
      RunIgnoresOwn(db, Val.own, before, Val);
      r := All(db);
    }

    // A change inside one child leaves every other child as it was, and the builder valid.
    twostate lemma ChildRan(e: Edge)
      requires old(Valid()) && e in edges
      requires unchanged(`edges, `Repr, `order, `preds, ctx)
      requires edges[e].Valid() && edges[e].Repr == old(edges[e].Repr)
      requires forall o | o in old(Repr) && o !in old(edges[e].Repr) && o != this :: unchanged(o)
      requires Val == old(Val).(edges := old(Val).edges[e := edges[e].Val])
      ensures Valid()
    {
      assert old(ValidChild(e));
      forall f | f in edges && f != e ensures ValidChild(f) {
        assert old(ValidChild(f));
        assert old(edges[f].Repr) !! old(edges[e].Repr);
      }
      assert ValidChild(e);
    }

    // Fetch the neighbours of all nodes along edge e.
    method QueryNeighbours(db: Db, e: Edge, ids: seq<Id>, ghost nodes: seq<Entity>)
      returns (r: Result<seq<Entity>, QueryError>)
      requires Valid() && e in edges && ids == BatchKeys(e, nodes)
      modifies `Val, edges[e].Repr
      ensures Valid()
      ensures Val == Loaded(db, old(Val), e, nodes)
      ensures r == Run(db, Primed(e, old(Val).edges[e].own, nodes), old(Val).edges[e]).nodes
      decreases Repr, 0
    {
      assert ValidChild(e);
      var child := edges[e];
      r := child.AllWith(db, e, In(JoinColumn(e), ids));
      Val := Val.(edges := Val.edges[e := child.Val]);
      ChildRan(e);
    }

    method AppendFieldOnce(c: Column)
      requires Valid()
      modifies ctx`fields, `Val
      ensures Valid()
      ensures Val == old(Val).(own := old(Val).own.(fields := AddOnce(old(Val).own.fields, c)))
    {
      ctx.AppendFieldOnce(c);
      Val := Val.(own := Own());
    }

    // Fetching leaves the nodes alone.
    method QueryReset(db: Db, e: Edge, ids: seq<Id>, nodes: seq<Node>, ghost before: seq<Entity>)
      returns (r: Result<seq<Entity>, QueryError>)
      requires Valid() && e in edges && ids == BatchKeys(e, before)
      requires Reset(e, nodes, before) && forall n | n in nodes :: n !in Repr
      modifies `Val, edges[e].Repr
      ensures Valid() && Reset(e, nodes, before)
      ensures Val == Loaded(db, old(Val), e, before)
      ensures r == Run(db, Primed(e, old(Val).edges[e].own, before), old(Val).edges[e]).nodes
      decreases Repr, 1
    {
      r := QueryNeighbours(db, e, ids, before);
    }

    // One-to-many edge e: reset the lists and fetch the neighbours of all nodes at once.
    method FetchMany(db: Db, e: Edge, nodes: seq<Node>) returns (nodeids: map<Id, Node>, r: Result<seq<Entity>, QueryError>)
      requires Valid() && e in edges && ToMany(e)
      requires DistinctNodes(nodes) && forall n | n in nodes :: n !in Repr
      modifies `Val, edges[e].Repr, nodes
      ensures Valid()
      ensures IndexedBy(nodes, nodeids, OwnerOf(KeysOf(e, old(Freeze(nodes))))) && Reset(e, nodes, old(Freeze(nodes)))
      ensures Val == Loaded(db, old(Val), e, old(Freeze(nodes)))
      ensures r == Run(db, Primed(e, old(Val).edges[e].own, old(Freeze(nodes))), old(Val).edges[e]).nodes
      decreases Repr, 2
    {
      ghost var before := Freeze(nodes);
      var fks;
      fks, nodeids := PrepareMany(e, nodes);
      r := QueryReset(db, e, fks, nodes, before);
    }

    // Then append each neighbour to its node.
    method LoadMany(db: Db, e: Edge, nodes: seq<Node>) returns (err: Option<QueryError>)
      requires Valid() && e in edges && ToMany(e)
      requires DistinctNodes(nodes) && forall n | n in nodes :: n !in Repr
      modifies `Val, edges[e].Repr, nodes
      ensures Valid()
      ensures Val == Loaded(db, old(Val), e, old(Freeze(nodes)))
      ensures LoadResult(db, old(Val), e, old(Freeze(nodes))) == if err.Some? then Err(err.value) else Ok(Freeze(nodes))
      decreases Repr, 3
    {
      ghost var before := Freeze(nodes);
      var nodeids, r := FetchMany(db, e, nodes);
      if r.Err? {
        return Some(r.error);
      }
      err := JoinMany(e, nodes, nodeids, r.value, before);
    }

    // Many-to-one edge e: group the nodes by foreign key and fetch the neighbours once each.
    method FetchOne(db: Db, e: Edge, nodes: seq<Node>, ghost before: seq<Entity>)
      returns (nodeids: map<Id, seq<Node>>, r: Result<seq<Entity>, QueryError>)
      requires Valid() && e in edges && !ToMany(e) && before == Freeze(nodes)
      modifies `Val, edges[e].Repr
      ensures Valid()
      ensures GroupedBy(nodes, nodeids, GroupsOf(KeysOf(e, before)))
      ensures Val == Loaded(db, old(Val), e, before)
      ensures r == Run(db, Primed(e, old(Val).edges[e].own, before), old(Val).edges[e]).nodes
      decreases Repr, 1
    {
      var ids;
      ids, nodeids := GroupByKey(e, nodes);
      assert NodeKeys(e, nodes) == KeysOf(e, before);
      r := QueryNeighbours(db, e, ids, before);
    }

    // Then point each group at its neighbour.
    method LoadOne(db: Db, e: Edge, nodes: seq<Node>) returns (err: Option<QueryError>)
      requires Valid() && e in edges && !ToMany(e) && nodes != []
      requires DistinctNodes(nodes) && forall n | n in nodes :: n !in Repr
      modifies `Val, edges[e].Repr, nodes
      ensures Valid()
      ensures Val == Loaded(db, old(Val), e, old(Freeze(nodes)))
      ensures LoadResult(db, old(Val), e, old(Freeze(nodes))) == if err.Some? then Err(err.value) else Ok(Freeze(nodes))
      decreases Repr, 3
    {
      ghost var before, q := Freeze(nodes), Val;
      var nodeids, r := FetchOne(db, e, nodes, before);
      assert Freeze(nodes) == before;
      err := Assign(e, nodes, nodeids, r, before);
      assert LoadResult(db, q, e, before) == if r.Err? then Err(r.error) else Attach(e, before, r.value);
    }

    // The error of the fetch, or the in-place join of what it found.
    method Assign(e: Edge, nodes: seq<Node>, nodeids: map<Id, seq<Node>>, r: Result<seq<Entity>, QueryError>,
                  ghost before: seq<Entity>)
      returns (err: Option<QueryError>)
      requires Valid() && !ToMany(e) && DistinctNodes(nodes) && forall n | n in nodes :: n !in Repr
      requires Freeze(nodes) == before && GroupedBy(nodes, nodeids, GroupsOf(KeysOf(e, before)))
      modifies nodes
      ensures Valid() && Val == old(Val)
      ensures (if r.Err? then Err(r.error) else Attach(e, before, r.value))
        == if err.Some? then Err(err.value) else Ok(Freeze(nodes))
    {
      if r.Err? {
        return Some(r.error);
      }
      err := JoinOne(e, nodes, nodeids, r.value, before);
    }

    // All: the selected fields are checked first.
    method All(db: Db) returns (r: Result<seq<Entity>, QueryError>)
      requires Valid()
      modifies Repr
      ensures Valid() && Repr == old(Repr)
      ensures Val.own == old(Val).own
      ensures Outcome(r, Val.edges) == Run(db, old(Val).own, old(Val))
      ensures r.Ok? ==> IsAnswer(db, Val.own, old(Val).edges.Keys, r.value)
      decreases Repr, 8
    {
      var invalid := InvalidFieldIn(kind, ctx.fields);
      if invalid.Some? {
        return Err(InvalidField(invalid.value));
      }
      ghost var q := Val;
      r := SqlAll(db);
      if r.Ok? {
        RunAnswers(db, q.own, q, r.value);
      }
    }

    // sqlAll: the nodes of this query, then the requested edges in schema order.
    method SqlAll(db: Db) returns (r: Result<seq<Entity>, QueryError>)
      requires Valid() && InvalidFieldIn(kind, ctx.fields).None?
      modifies Repr
      ensures Valid() && Repr == old(Repr)
      ensures Val.own == old(Val).own
      ensures Outcome(r, Val.edges) == Run(db, old(Val).own, old(Val))
      decreases Repr, 7
    {
      var rows := Fetch(db, Own());
      if rows.Err? {
        return Err(rows.error);
      }
      var nodes := MakeNodes(kind, rows.value, SpecColumns(Own(), edges.Keys), edges.Keys);
      if nodes == [] {
        return Ok([]);
      }
      var err := LoadAll(db, nodes);
      r := if err.Some? then Err(err.value) else Ok(Freeze(nodes));
    }

    method LoadAll(db: Db, nodes: seq<Node>) returns (err: Option<QueryError>)
      requires Valid() && nodes != [] && DistinctNodes(nodes) && forall n | n in nodes :: n !in Repr
      modifies Repr, nodes
      ensures Valid() && Repr == old(Repr)
      ensures Val.own == old(Val).own
      ensures RunEdges(db, old(Val), EdgesOf(kind), old(Freeze(nodes)), old(Val).edges)
        == Outcome(if err.Some? then Err(err.value) else Ok(Freeze(nodes)), Val.edges)
      decreases Repr, 6
    {
      var es := EdgesOf(kind);
      ghost var q := Val;
      EdgesAreDistinct(kind);
      assert es[0..] == es;
      err := None;
      for i := 0 to |es|
        invariant Valid() && Repr == old(Repr) && Val.own == q.own && Pending(q, Val, es[i..])
        invariant RunEdges(db, q, es, old(Freeze(nodes)), q.edges) == RunEdges(db, q, es[i..], Freeze(nodes), Val.edges)
      {
        assert es[i..][1..] == es[i + 1..];
        err := LoadNext(db, q, es[i..], nodes);
        if err.Some? {
          return;
        }
      }
      err := None;
    }

    // The next edge, if it was requested.
    method LoadNext(db: Db, ghost q: Tree, es: seq<Edge>, nodes: seq<Node>) returns (err: Option<QueryError>)
      requires Valid() && nodes != [] && DistinctNodes(nodes) && forall n | n in nodes :: n !in Repr
      requires es != [] && Pending(q, Val, es) && es[0] !in es[1..]
      modifies Repr, nodes
      ensures Valid() && Repr == old(Repr)
      ensures Val.own == old(Val).own && Pending(q, Val, es[1..])
      ensures RunEdges(db, q, es, old(Freeze(nodes)), old(Val).edges)
        == if err.Some? then Outcome(Err(err.value), Val.edges) else RunEdges(db, q, es[1..], Freeze(nodes), Val.edges)
      decreases Repr, 5
    {
      RunEdgesStep(db, q, Val, es, Freeze(nodes));
      if es[0] in edges {
        err := Load(db, es[0], nodes);
      } else {
        err := None;
      }
    }

    method Load(db: Db, e: Edge, nodes: seq<Node>) returns (err: Option<QueryError>)
      requires Valid() && e in edges && nodes != []
      requires DistinctNodes(nodes) && forall n | n in nodes :: n !in Repr
      modifies `Val, edges[e].Repr, nodes
      ensures Valid()
      ensures Val == Loaded(db, old(Val), e, old(Freeze(nodes)))
      ensures LoadResult(db, old(Val), e, old(Freeze(nodes))) == if err.Some? then Err(err.value) else Ok(Freeze(nodes))
      decreases Repr, 4
    {
      if ToMany(e) {
        err := LoadMany(db, e, nodes);
      } else {
        err := LoadOne(db, e, nodes);
      }
    }

    // Running a builder twice gives the same result, although the first run changed its children.
    method AllTwice(db: Db) returns (first: Result<seq<Entity>, QueryError>, second: Result<seq<Entity>, QueryError>)
      requires Valid()
      modifies Repr
      ensures Valid() && first == second
    {
      ghost var q := Val;
      first := All(db);
      RunAgain(db, q.own, q, Val.own, Val);
      second := All(db);
    }

    method First(db: Db) returns (r: Result<Entity, QueryError>)
      requires Valid()
      modifies Repr
      ensures Valid() && Repr == old(Repr)
      ensures Val.own == old(Val).own.(limit := Some(1))
      ensures r == FirstOf(Run(db, Val.own, old(Val)).nodes) && Val.edges == Run(db, Val.own, old(Val)).edges
      ensures r.Ok? ==> IsAnswer(db, Val.own, old(Val).edges.Keys, [r.value])
    {
      ghost var q := Val;
      Limit(1);
      RunIgnoresOwn(db, Val.own, q, Val);
      var nodes := All(db);
      r := FirstOf(nodes);
      if nodes.Ok? { FirstAnswers(db, q.own, q, Val.own, nodes.value); }
    }

    method Only(db: Db) returns (r: Result<Entity, QueryError>)
      requires Valid()
      modifies Repr
      ensures Valid() && Repr == old(Repr)
      ensures Val.own == old(Val).own.(limit := Some(2))
      ensures r == OnlyOf(Run(db, Val.own, old(Val)).nodes) && Val.edges == Run(db, Val.own, old(Val)).edges
      ensures r.Ok? ==>
        |Admitted(db, Val.own)| == OffsetOf(Val.own) + 1 && IsAnswer(db, Val.own, old(Val).edges.Keys, [r.value])
    {
      ghost var q := Val;
      Limit(2);
      RunIgnoresOwn(db, Val.own, q, Val);
      var nodes := All(db);
      r := OnlyOf(nodes);
      if nodes.Ok? { OnlyAnswers(db, q.own, q, Val.own, nodes.value); }
    }

    // Selecting the id column stays behind in the builder.
    method IDs(db: Db) returns (r: Result<seq<Id>, QueryError>)
      requires Valid()
      modifies ctx`fields, `Val
      ensures Valid()
      ensures Val == old(Val).(own := old(Val).own.(fields := old(Val).own.fields + [IdColumn]))
      ensures r == ScanIds(db, Val.own)
      ensures WellFormed(db) && r.Ok? ==> AnswersIds(db, Val.own, r.value)
    {
      SetFields(ctx.fields + [IdColumn]);
      r := ScanIds(db, Own());
      if WellFormed(db) && r.Ok? { IdsAnswer(db, Own()); }
    }

    method FirstID(db: Db) returns (r: Result<Id, QueryError>)
      requires Valid()
      modifies ctx`fields, ctx`limit, `Val
      ensures Valid()
      ensures Val == old(Val).(own := AfterFirstId(old(Val).own))
      ensures r == FirstOf(ScanIds(db, Val.own))
    {
      Limit(1);
      var ids := IDs(db);
      r := FirstOf(ids);
    }

    method OnlyID(db: Db) returns (r: Result<Id, QueryError>)
      requires Valid()
      modifies ctx`fields, ctx`limit, `Val
      ensures Valid()
      ensures Val == old(Val).(own := AfterFirstId(old(Val).own).(limit := Some(2)))
      ensures r == OnlyOf(ScanIds(db, Val.own))
    {
      Limit(2);
      var ids := IDs(db);
      r := OnlyOf(ids);
    }

    method Exist(db: Db) returns (r: Result<bool, QueryError>)
      requires Valid()
      modifies ctx`fields, ctx`limit, `Val
      ensures Valid()
      ensures Val == old(Val).(own := AfterFirstId(old(Val).own))
      ensures r == ExistOf(FirstOf(ScanIds(db, Val.own)))
    {
      var id := FirstID(db);
      r := ExistOf(id);
    }

    // The number of rows under the predicates, whatever the limit; an offset leaves no count.  With selected
    // columns the number is the database's, if they are columns at all.
    method Count(db: Db) returns (r: Result<nat, QueryError>)
      requires Valid()
      ensures Val.own.fields == [] ==>
        r == (if GetOr(Val.own.offset, 0) < 0 || GetOr(Val.own.limit, 0) < 0 then Err(BadRange)
              else if GetOr(Val.own.offset, 0) > 0 then Err(NoRows)
              else Ok(|Matching(db, kind, Val.own.preds, Val.own.order)|))
      ensures Val.own.fields == [] && r.Ok? ==> r == Ok(|Admitted(db, Val.own)|)
      ensures GetOr(Val.own.offset, 0) > 0 ==> r.Err?
      ensures InvalidFieldIn(kind, Val.own.fields).Some? ==>
        r.Err? && r.error.InvalidField? && r.error.column in Val.own.fields && !ValidColumn(kind, r.error.column)
      ensures r == CountOf(db, Val.own)
    {
      r := CountOf(db, Own());
      CountIgnoresLimit(db, Own());
      if Val.own.fields == [] && r.Ok? { CountAnswers(db, Own()); }
    }

    // ---------- Builder calls ----------

    method Where(ps: seq<Pred>)
      requires Valid()
      modifies `preds, `Val
      ensures Valid()
      ensures Val == old(Val).(own := old(Val).own.(preds := old(Val).own.preds + ps))
    {
      preds := preds + ps;
      Val := Val.(own := Own());
    }

    method Order(o: seq<OrderTerm>)
      requires Valid()
      modifies `order, `Val
      ensures Valid()
      ensures Val == old(Val).(own := old(Val).own.(order := old(Val).own.order + o))
    {
      order := order + o;
      Val := Val.(own := Own());
    }

    method Limit(limit: int)
      requires Valid()
      modifies ctx`limit, `Val
      ensures Valid()
      ensures Val == old(Val).(own := old(Val).own.(limit := Some(limit)))
    {
      ctx.limit := Some(limit);
      Val := Val.(own := Own());
    }

    method Offset(offset: int)
      requires Valid()
      modifies ctx`offset, `Val
      ensures Valid()
      ensures Val == old(Val).(own := old(Val).own.(offset := Some(offset)))
    {
      ctx.offset := Some(offset);
      Val := Val.(own := Own());
    }

    method Unique(unique: bool)
      requires Valid()
      modifies ctx`unique, `Val
      ensures Valid()
      ensures Val == old(Val).(own := old(Val).own.(unique := Some(unique)))
    {
      ctx.unique := Some(unique);
      Val := Val.(own := Own());
    }

    method SetFields(fields: seq<Column>)
      requires Valid()
      modifies ctx`fields, `Val
      ensures Valid()
      ensures Val == old(Val).(own := old(Val).own.(fields := fields))
    {
      ctx.fields := fields;
      Val := Val.(own := Own());
    }

    method With(e: Edge, options: seq<Op>)
      requires Valid() && Offers(kind, Op.With(e, options))
      modifies `edges, `Repr, `Val
      ensures Valid() && fresh(Repr - old(Repr))
      ensures Val == Applied(old(Val), Op.With(e, options))
      decreases options, |options|, 1
    {
      var query := new Query(Target(e));
      query.ApplyAll(options);
      SetChild(e, query);
    }

    method Apply(op: Op)
      requires Valid() && Offers(kind, op)
      modifies this, ctx
      ensures Valid() && fresh(Repr - old(Repr))
      ensures Val == Applied(old(Val), op)
      decreases op, 0, 0
    {
      match op {
        case Where(ps) => Where(ps);
        case Limit(n) => Limit(n);
        case Offset(n) => Offset(n);
        case Unique(u) => Unique(u);
        case Order(o) => Order(o);
        case Select(fs) => SetFields(ctx.fields + fs);
        case GroupBy(fs) => SetFields(fs);
        case With(e, options) => With(e, options);
      }
    }

    method ApplyAll(ops: seq<Op>)
      requires Valid() && forall i | 0 <= i < |ops| :: Offers(kind, ops[i])
      modifies this, ctx
      ensures Valid() && fresh(Repr - old(Repr))
      ensures Val == AppliedAll(old(Val), ops)
      decreases ops, |ops|, 0
    {
      for i := 0 to |ops|
        invariant Valid() && fresh(Repr - old(Repr))
        invariant Val == AppliedAll(old(Val), ops[..i])
      {
        Apply(ops[i]);
        assert ops[..i + 1][..i] == ops[..i];
      }
      assert ops[..|ops|] == ops;
    }

    // Whatever is built on a clone afterwards, the original stays as it was, and the clone is what the
    // same calls on the original would have made.
    method CloneAndBuild(ops: seq<Op>) returns (c: Query)
      requires Valid() && forall i | 0 <= i < |ops| :: Offers(kind, ops[i])
      ensures Valid() && Val == old(Val)
      ensures c.Valid() && fresh(c.Repr) && c.Val == AppliedAll(Val, ops)
    {
      c := Clone();
      c.ApplyAll(ops);
    }

    // And the other way round: building on the original leaves an earlier clone as it was.
    method BuildAfterClone(ops: seq<Op>) returns (c: Query)
      requires Valid() && forall i | 0 <= i < |ops| :: Offers(kind, ops[i])
      modifies this, ctx
      ensures Valid() && Val == AppliedAll(old(Val), ops)
      ensures c.Valid() && c.Val == old(Val) && c.Repr !! Repr
    {
      c := Clone();
      ApplyAll(ops);
    }
  }

  // The edges still to be loaded have the children they had at the start.
  ghost predicate Pending(q: Tree, val: Tree, es: seq<Edge>) {
    val.edges.Keys == q.edges.Keys && forall e | e in es && e in q.edges :: val.edges[e] == q.edges[e]
  }

  // The entries of m whose edge is listed.
  ghost function Among(m: map<Edge, Tree>, es: seq<Edge>): map<Edge, Tree> {
    map e | e in m && e in es :: m[e]
  }

  lemma AmongOneMore(m: map<Edge, Tree>, es: seq<Edge>, i: nat)
    requires i < |es|
    ensures Among(m, es[..i + 1]) == if es[i] in m then Among(m, es[..i])[es[i] := m[es[i]]] else Among(m, es[..i])
  {
    assert es[..i + 1] == es[..i] + [es[i]];
  }

  lemma AmongAll(m: map<Edge, Tree>, k: Kind)
    requires forall e | e in m :: Source(e) == k
    ensures Among(m, EdgesOf(k)[..|EdgesOf(k)|]) == m
  {
    var es := EdgesOf(k);
    assert es[..|es|] == es;
  }
}
