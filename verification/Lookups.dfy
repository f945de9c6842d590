/**
 First, Only, IDs, Exist and Count: what they return, and what they decide about the whole result of the
 builder, that is, all matching rows after the offset, whatever limit was set.
 */
module Lookups {
  import opened Wrappers
  import opened Lists
  import opened Store
  import opened EagerLoad
  import opened EdgeLaws
  import opened NestedJoin
  import opened SharedWindow
  import opened ChildLimits

  function FirstOf<T>(nodes: Result<seq<T>, QueryError>): Result<T, QueryError> {
    match nodes
    case Err(e) => Err(e)
    case Ok(ns) => if |ns| == 0 then Err(NotFound) else Ok(ns[0])
  }

  function OnlyOf<T>(nodes: Result<seq<T>, QueryError>): Result<T, QueryError> {
    match nodes
    case Err(e) => Err(e)
    case Ok(ns) => if |ns| == 1 then Ok(ns[0]) else if |ns| == 0 then Err(NotFound) else Err(NotSingular)
  }

  // ---------- The ids path: Select("id").Scan ----------

  // sqlQuery, unlike querySpec, sends a limit of 0 as it is.
  function SelectorLimit(b: Builder): Option<nat>
    requires b.limit.Some? ==> b.limit.value >= 0
  {
    if b.limit.Some? then Some(b.limit.value) else if b.offset.Some? then Some(MAX_INT32) else None
  }

  // The ids of the selected rows.  Scanning into a list of ids accepts exactly one selected column.
  function ScanIds(db: Db, b: Builder): Result<seq<Id>, QueryError> {
    var invalid := InvalidFieldIn(b.kind, b.fields);
    if invalid.Some? then Err(InvalidField(invalid.value))
    else if GetOr(b.offset, 0) < 0 || GetOr(b.limit, 0) < 0 then Err(BadRange)
    else if |b.fields| != 1 then Err(TooManyColumns)
    else
      Ok(Map(row => KeyOf(row, IdColumn),
             Window(Matching(db, b.kind, b.preds, b.order), GetOr(b.offset, 0), SelectorLimit(b))))
  }

  function ExistOf(id: Result<Id, QueryError>): Result<bool, QueryError> {
    match id
    case Ok(_) => Ok(true)
    case Err(NotFound) => Ok(false)
    case Err(e) => Err(e)
  }

  // The builder as FirstID leaves it.
  function AfterFirstId(b: Builder): Builder {
    b.(limit := Some(1), fields := b.fields + [IdColumn])
  }

  // ---------- Counting ----------

  // COUNT yields one row, and the builder's LIMIT and OFFSET apply to that row.  Over selected columns the
  // number is the database's own.
  function CountOf(db: Db, b: Builder): Result<nat, QueryError> {
    var invalid := InvalidFieldIn(b.kind, b.fields);
    if invalid.Some? then Err(InvalidField(invalid.value))
    else if GetOr(b.offset, 0) < 0 || GetOr(b.limit, 0) < 0 then Err(BadRange)
    else
      var n := if b.fields == [] then Ok(|Matching(db, b.kind, b.preds, [])|) else db.columnCounts(b);
      if n.Err? then n
      else
        var counted := Window([n.value], GetOr(b.offset, 0), SpecLimit(b));
        if counted == [] then Err(NoRows) else Ok(counted[0])
  }

  // ---------- What they decide ----------

  // All rows of the builder after its offset, as if no limit were set.
  function Whole(db: Db, b: Builder): seq<Row>
    requires GetOr(b.offset, 0) >= 0
  {
    Window(Matching(db, b.kind, b.preds, b.order), GetOr(b.offset, 0), None)
  }

  ghost predicate Runnable(b: Builder) {
    GetOr(b.offset, 0) >= 0 && InvalidFieldIn(b.kind, b.fields).None?
  }

  lemma FetchLimited(db: Db, b: Builder, n: nat)
    requires Runnable(b) && n > 0
    ensures var all := Whole(db, b);
      Fetch(db, b.(limit := Some(n))) == Ok(if n <= |all| then all[..n] else all)
  {
  }

  // Two rows decide: Only returns the row, not-found or not-singular exactly as the whole result has one,
  // no or several rows, whatever limit was set before.  (Eager loading may fail first, but never on an
  // empty result.)
  lemma OnlyDecidesSingularity(db: Db, b: Builder, q: Tree)
    requires Runnable(b)
    ensures var rows := Whole(db, b);
      var run := Run(db, b.(limit := Some(2)), q).nodes;
      var r := OnlyOf(run);
      && (rows == [] ==> r == Err(NotFound))
      && (run.Ok? ==> && (r.Ok? <==> |rows| == 1)
                      && (r == Err(NotFound) <==> |rows| == 0)
                      && (r == Err(NotSingular) <==> |rows| >= 2))
      && (r.Ok? ==> r.value.fields == Project(rows[0], SpecColumns(b, q.edges.Keys)))
  {
    var two := b.(limit := Some(2));
    FetchLimited(db, b, 2);
    if Run(db, two, q).nodes.Ok? {
      RunKeepsRows(db, two, q, Fetch(db, two).value);
    }
  }

  // Runs that fetch the same rows are the same.
  lemma RunDependsOnRows(db: Db, b: Builder, b': Builder, q: Tree)
    requires b'.kind == b.kind && b'.fields == b.fields && Fetch(db, b') == Fetch(db, b)
    ensures Run(db, b', q) == Run(db, b, q)
  {
    assert SpecColumns(b', q.edges.Keys) == SpecColumns(b, q.edges.Keys);
  }

  lemma OneRowIsWhole(db: Db, b: Builder)
    requires Runnable(b) && |Whole(db, b)| == 1
    ensures Fetch(db, b.(limit := None)) == Fetch(db, b.(limit := Some(2)))
  {
    FetchLimited(db, b, 2);
  }

  // The single entity that Only returns is the one that running the builder without a limit returns.
  lemma OnlyIsAll(db: Db, b: Builder, q: Tree, n: Entity)
    requires Runnable(b) && OnlyOf(Run(db, b.(limit := Some(2)), q).nodes) == Ok(n)
    ensures Run(db, b.(limit := None), q).nodes == Ok([n])
  {
    var run := Run(db, b.(limit := Some(2)), q);
    assert run.nodes.Ok? && run.nodes.value == [n];
    OnlyDecidesSingularity(db, b, q);
    OneRowIsWhole(db, b);
    RunDependsOnRows(db, b.(limit := Some(2)), b.(limit := None), q);
  }

  lemma FirstDecidesEmptiness(db: Db, b: Builder, q: Tree)
    requires Runnable(b)
    ensures var rows := Whole(db, b);
      var run := Run(db, b.(limit := Some(1)), q).nodes;
      && (rows == [] ==> FirstOf(run) == Err(NotFound))
      && (run.Ok? ==> (FirstOf(run).Ok? <==> rows != []))
      && (FirstOf(run).Ok? ==> FirstOf(run).value.fields == Project(rows[0], SpecColumns(b, q.edges.Keys)))
  {
    var one := b.(limit := Some(1));
    FetchLimited(db, b, 1);
    if Run(db, one, q).nodes.Ok? {
      RunKeepsRows(db, one, q, Fetch(db, one).value);
    }
  }

  lemma HeadOfWindow<T>(s: seq<T>, offset: nat, limit: Option<nat>)
    requires (limit.Some? ==> limit.value > 0) && Window(s, offset, limit) != []
    ensures Window(s, offset, Some(1)) == Window(s, offset, limit)[..1]
  {
  }

  lemma FirstRowIsFetched(db: Db, b: Builder, rows: seq<Row>)
    requires Runnable(b) && Fetch(db, b.(limit := None)) == Ok(rows) && rows != []
    ensures Fetch(db, b.(limit := Some(1))) == Ok([rows[0]])
  {
    HeadOfWindow(Matching(db, b.kind, b.preds, b.order), GetOr(b.offset, 0), SpecLimit(b.(limit := None)));
    assert rows[..1] == [rows[0]];
  }

  // Builders that fetch the same rows and fields give them the same meaning.
  lemma RunHasMeaning(db: Db, b: Builder, b': Builder, q: Tree, rows: seq<Row>)
    requires WellFormed(db) && Belongs(q) && b'.kind == q.own.kind && InvalidFieldIn(b'.kind, b'.fields).None?
    requires b.kind == b'.kind && b.fields == b'.fields && Fetch(db, b') == Ok(rows)
    ensures Run(db, b', q).nodes == Ok(Map(row => Nested(db, b, q, row), rows)) <==> Fair(db, q, rows)
  {
    RunIsNestedExactly(db, b', q, rows);
    NestedIgnoresPreds(db, b', b, q, rows);
  }

  lemma FirstOfOne(run: Result<seq<Entity>, QueryError>, n: Entity)
    requires run.Ok? ==> |run.value| == 1
    ensures FirstOf(run) == Ok(n) <==> run == Ok([n])
  {
    if FirstOf(run) == Ok(n) { assert run.value == [n]; }
  }

  lemma MapOne<A, B>(f: A -> B, x: A)
    ensures Map(f, [x]) == [f(x)]
  {
  }

  lemma OneEntityForOneRow(db: Db, b: Builder, q: Tree, rows: seq<Row>)
    requires Fetch(db, b) == Ok(rows) && |rows| == 1
    ensures Run(db, b, q).nodes.Ok? ==> |Run(db, b, q).nodes.value| == 1
  {
    if Run(db, b, q).nodes.Ok? { RunKeepsRows(db, b, q, rows); }
  }

  lemma OneRowHasMeaning(db: Db, b: Builder, b': Builder, q: Tree, row: Row)
    requires WellFormed(db) && Belongs(q) && b'.kind == q.own.kind && InvalidFieldIn(b'.kind, b'.fields).None?
    requires b.kind == b'.kind && b.fields == b'.fields && Fetch(db, b') == Ok([row])
    ensures FirstOf(Run(db, b', q).nodes) == Ok(Nested(db, b, q, row)) <==> Fair(db, q, [row])
  {
    OneEntityForOneRow(db, b', q, [row]);
    RunHasMeaning(db, b, b', q, [row]);
    MapOne(r => Nested(db, b, q, r), row);
    FirstOfOne(Run(db, b', q).nodes, Nested(db, b, q, row));
  }

  // First returns the first row with the neighbours that its own queries return exactly when the children share
  // their windows fairly below this one row.
  lemma FirstIsMeant(db: Db, b: Builder, q: Tree, rows: seq<Row>)
    requires WellFormed(db) && Belongs(q) && b.kind == q.own.kind && Runnable(b)
    requires Fetch(db, b.(limit := None)) == Ok(rows) && rows != []
    ensures FirstOf(Run(db, b.(limit := Some(1)), q).nodes) == Ok(Nested(db, b, q, rows[0])) <==> Fair(db, q, [rows[0]])
  {
    FirstRowIsFetched(db, b, rows);
    OneRowHasMeaning(db, b, b.(limit := Some(1)), q, rows[0]);
  }

  lemma AmpleHead(db: Db, q: Tree, rows: seq<Row>)
    requires WellFormed(db) && Belongs(q) && Ample(db, q, rows) && rows != []
    ensures Fair(db, q, rows) && Fair(db, q, [rows[0]])
  {
    AmpleForFewer(db, q, rows, [rows[0]]);
    AmpleIsFair(db, q, rows);
    AmpleIsFair(db, q, [rows[0]]);
  }

  // When the children's windows cut nothing off, that is the head of the unlimited run, neighbours included.
  lemma FirstIsHead(db: Db, b: Builder, q: Tree, rows: seq<Row>)
    requires WellFormed(db) && Belongs(q) && b.kind == q.own.kind && Runnable(b)
    requires Fetch(db, b.(limit := None)) == Ok(rows) && rows != [] && Ample(db, q, rows)
    ensures var all := Run(db, b.(limit := None), q).nodes;
      all.Ok? && |all.value| == |rows| && FirstOf(Run(db, b.(limit := Some(1)), q).nodes) == Ok(all.value[0])
  {
    AmpleHead(db, q, rows);
    FirstIsMeant(db, b, q, rows);
    RunHasMeaning(db, b, b.(limit := None), q, rows);
  }

  // Exist answers whether the whole result is non-empty; it answers at all exactly when the offset is not
  // negative and no field was selected before.
  lemma ExistDecidesEmptiness(db: Db, b: Builder)
    ensures var r := ExistOf(FirstOf(ScanIds(db, AfterFirstId(b))));
      && (r.Ok? <==> GetOr(b.offset, 0) >= 0 && b.fields == [])
      && (r.Ok? ==> r.value == (Whole(db, b) != []))
  {
    var b' := AfterFirstId(b);
    if b.fields == [] {
      assert b'.fields == [IdColumn] && ValidColumn(b.kind, IdColumn);
      if GetOr(b.offset, 0) >= 0 {
        OneRowDecides(Matching(db, b.kind, b.preds, b.order), GetOr(b.offset, 0));
      }
    } else {
      assert |b'.fields| == |b.fields| + 1 > 1;
    }
  }

  lemma OneRowDecides<T>(s: seq<T>, offset: nat)
    ensures Window(s, offset, Some(1)) == [] <==> Window(s, offset, None) == []
  {
  }

  // FirstID leaves its selection behind, so asking the same builder a second time fails.
  lemma ExistOnlyOnce(db: Db, b: Builder)
    requires Runnable(b)
    ensures ScanIds(db, AfterFirstId(AfterFirstId(b))) == Err(TooManyColumns)
  {
    assert ValidColumn(b.kind, IdColumn);
    assert forall c | c in AfterFirstId(AfterFirstId(b)).fields :: c in b.fields || c == IdColumn;
  }

  // Counting is refused whenever an offset has been set, and without selected columns only then; it ignores limits.
  lemma CountIgnoresLimit(db: Db, b: Builder)
    ensures GetOr(b.offset, 0) > 0 ==> CountOf(db, b).Err?
    ensures b.fields == [] ==>
      CountOf(db, b) ==
        if GetOr(b.offset, 0) < 0 || GetOr(b.limit, 0) < 0 then Err(BadRange)
        else if GetOr(b.offset, 0) > 0 then Err(NoRows)
        else Ok(|Matching(db, b.kind, b.preds, b.order)|)
  {
    var found := Filter(row => Matches(b.preds, row), TableOf(db, b.kind));
    var unsorted, sorted := Matching(db, b.kind, b.preds, []), Matching(db, b.kind, b.preds, b.order);
    assert multiset(unsorted) == multiset(found) == multiset(sorted);
    assert |multiset(unsorted)| == |unsorted| && |multiset(sorted)| == |sorted|;
  }
}
