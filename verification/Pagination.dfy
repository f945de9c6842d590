/** Page options and Paginate, which counts and then moves the builder's own offset and limit. */
module Pagination {
  import opened Wrappers
  import opened Lists
  import opened Store
  import opened EagerLoad
  import opened EdgeLaws
  import opened NestedJoin
  import opened SharedWindow
  import opened ChildLimits
  import opened Lookups
  import opened Answers
  import opened Queries

  const MAX_TAKE := 100
  const DEFAULT_PAGE := 1
  const DEFAULT_TAKE := 20
  const MAX_INT64 := 0x7fff_ffff_ffff_ffff

  type Int64 = x: int | -MAX_INT64 - 1 <= x <= MAX_INT64

  // Signed 64-bit wrap-around.
  function Wrap64(x: int): Int64 {
    (x + MAX_INT64 + 1) % (2 * MAX_INT64 + 2) - MAX_INT64 - 1
  }

  datatype PageError = TooManyItems | BadOrder | QueryFailed(error: QueryError)

  datatype Options = Options(page: Int64, take: Int64, order: string)

  datatype Page = Page(data: seq<Entity>, count: nat)

  function PageNumber(page: Int64): Int64 {
    if page <= 0 then DEFAULT_PAGE else page
  }

  function PageSize(take: Int64): Int64 {
    if take <= 0 then DEFAULT_TAKE else take
  }

  function ValidateAndNormalize(o: Options): (r: Result<Options, PageError>)
    ensures r == Err(TooManyItems) <==> o.take > 100
    ensures r == Err(BadOrder) <==> o.take <= 100 && o.order !in ["", "ASC", "DESC"]
    ensures r.Ok? ==> 1 <= r.value.page && 1 <= r.value.take <= MAX_TAKE && r.value.order in ["ASC", "DESC"]
    ensures r.Ok? ==> (o.page >= 1 ==> r.value.page == o.page) && (o.take >= 1 ==> r.value.take == o.take)
    ensures r.Ok? ==> (o.page <= 0 ==> r.value.page == 1) && (o.take <= 0 ==> r.value.take == 20)
    ensures r.Ok? ==> r.value.order == if o.order == "" then "DESC" else o.order
  {
    var order := if o.order == "" then "DESC" else o.order;
    if PageSize(o.take) > MAX_TAKE then Err(TooManyItems)
    else if order != "ASC" && order != "DESC" then Err(BadOrder)
    else Ok(Options(PageNumber(o.page), PageSize(o.take), order))
  }

  // The builder at a window of its result.
  function At(b: Builder, offset: int, take: int): Builder {
    b.(offset := Some(offset), limit := Some(take))
  }

  function Offset64(page: Int64, take: Int64): Int64 {
    Wrap64((PageNumber(page) - 1) * PageSize(take))
  }

  // Count first, then fetch a window.
  function WindowOf(db: Db, t: Tree, offset: int, take: int): Result<Page, PageError> {
    var count := CountOf(db, t.own);
    if count.Err? then Err(QueryFailed(count.error))
    else
      var data := Run(db, At(t.own, offset, take), t).nodes;
      if data.Err? then Err(QueryFailed(data.error)) else Ok(Page(data.value, count.value))
  }

  function PageOf(db: Db, t: Tree, page: Int64, take: Int64): Result<Page, PageError> {
    if PageSize(take) > MAX_TAKE then Err(TooManyItems)
    else WindowOf(db, t, Offset64(page, take), PageSize(take))
  }

  method Paginate(q: Query, db: Db, page: Int64, take: Int64) returns (r: Result<Page, PageError>)
    requires q.Valid()
    modifies q.Repr
    ensures q.Valid()
    ensures r == PageOf(db, old(q.Val), page, take)
    ensures q.Val ==
      if PageSize(take) > MAX_TAKE || CountOf(db, old(q.Val).own).Err? then old(q.Val)
      else
        var b := At(old(q.Val).own, Offset64(page, take), PageSize(take));
        Tree(b, Run(db, b, old(q.Val)).edges)
  {
    var p, n := page, take;
    if p <= 0 {
      p := 1;
    }
    if n <= 0 {
      n := 20;
    }
    assert p == PageNumber(page) && n == PageSize(take);
    if n > MAX_TAKE {
      return Err(TooManyItems);
    }
    var count := q.Count(db);
    if count.Err? {
      return Err(QueryFailed(count.error));
    }
    ghost var t := q.Val;
    var offset := Wrap64((p - 1) * n);
    assert offset == Offset64(page, take);
    q.Offset(offset);
    q.Limit(n);
    RunIgnoresOwn(db, q.Val.own, t, q.Val);
    var data := q.All(db);
    if data.Err? {
      return Err(QueryFailed(data.error));
    }
    r := Ok(Page(data.value, count.value));
  }

  // ---------- Normalisation ----------

  lemma NormalizationIsIdempotent(o: Options)
    requires ValidateAndNormalize(o).Ok?
    ensures ValidateAndNormalize(ValidateAndNormalize(o).value) == ValidateAndNormalize(o)
  {
  }

  // Both reject the same sizes.
  lemma SameSizesRejected(db: Db, t: Tree, o: Options)
    ensures ValidateAndNormalize(o) == Err(TooManyItems) <==> PageOf(db, t, o.page, o.take) == Err(TooManyItems)
  {
    if PageSize(o.take) <= MAX_TAKE {
      assert WindowOf(db, t, Offset64(o.page, o.take), PageSize(o.take)) != Err(TooManyItems);
    }
  }

  // The page depends on the size and the 64-bit offset only.
  lemma SameOffsetSamePage(db: Db, t: Tree, page: Int64, take: Int64, page': Int64, take': Int64)
    requires PageSize(take) == PageSize(take') && Offset64(page, take) == Offset64(page', take')
    ensures PageOf(db, t, page, take) == PageOf(db, t, page', take')
  {
  }

  // Normalised options give the page that the raw ones give.
  lemma NormalizationKeepsPage(db: Db, t: Tree, o: Options)
    requires ValidateAndNormalize(o).Ok?
    ensures var n := ValidateAndNormalize(o).value; PageOf(db, t, n.page, n.take) == PageOf(db, t, o.page, o.take)
  {
    var n := ValidateAndNormalize(o).value;
    assert PageNumber(n.page) == PageNumber(o.page) && PageSize(n.take) == PageSize(o.take);
    SameOffsetSamePage(db, t, n.page, n.take, o.page, o.take);
  }

  lemma WrapIsExact(x: int)
    ensures Wrap64(x) == x <==> -9223372036854775808 <= x <= 9223372036854775807
  {
  }

  lemma MulMonotone(x: nat, y: nat, z: nat)
    requires y <= z
    ensures 0 <= x * y <= x * z
  {
  }

  // The offset of an accepted page does not wrap, whatever its size, up to page MaxInt64/100 + 1.
  lemma OffsetDoesNotWrap(page: Int64, take: Int64)
    requires 1 <= page && page - 1 <= MAX_INT64 / MAX_TAKE && 1 <= take <= MAX_TAKE
    ensures Wrap64((page - 1) * take) == (page - 1) * take
  {
    MulMonotone(page - 1, take, MAX_TAKE);
  }

  // Beyond that it can: this page number wraps to offset 0 and returns the first page.
  lemma WrappedPageIsFirst(db: Db, t: Tree)
    ensures PageOf(db, t, 0x4000_0000_0000_0001, 4) == PageOf(db, t, 1, 4)
  {
    assert Offset64(0x4000_0000_0000_0001, 4) == 0 == Offset64(1, 4);
  }

  // A builder that already served a later page cannot count any more.
  lemma ReusedBuilderFails(db: Db, t: Tree, page: Int64, take: Int64)
    requires GetOr(t.own.offset, 0) > 0
    ensures PageOf(db, t, page, take).Err?
    ensures t.own.fields == [] && GetOr(t.own.limit, 0) >= 0 ==>
      PageOf(db, t, page, take) == if PageSize(take) > MAX_TAKE then Err(TooManyItems) else Err(QueryFailed(NoRows))
  {
    CountIgnoresLimit(db, t.own);
  }

  // ---------- Pages tile the result ----------

  // A builder that Count counts the rows of: a fresh one, also after a first page set its limit and offset.
  ghost predicate Countable(b: Builder) {
    b.fields == [] && GetOr(b.offset, 0) == 0 && GetOr(b.limit, 0) >= 0
  }

  function Min(a: int, b: int): int {
    if a <= b then a else b
  }

  // n elements from a position on, as far as the list goes.
  function Slice<T>(s: seq<T>, from: nat, n: nat): seq<T> {
    s[Min(from, |s|)..Min(from + n, |s|)]
  }

  // n * take, by addition.
  function Times(n: nat, take: nat): nat {
    if n == 0 then 0 else Times(n - 1, take) + take
  }

  lemma {:induction false} TimesIsProduct(n: nat, take: nat)
    ensures Times(n, take) == n * take
  {
    if n > 0 { TimesIsProduct(n - 1, take); }
  }

  lemma {:induction false} TimesGrows(m: nat, n: nat, take: nat)
    requires m <= n
    ensures Times(m, take) <= Times(n, take)
  {
    if m < n { TimesGrows(m, n - 1, take); }
  }

  // Where a page starts: (page-1)*take, before any wrap-around.
  function Start(page: Int64, take: Int64): nat
    requires 1 <= page && 1 <= take
  {
    Times(page - 1, take)
  }

  // Pages that the 64-bit offset can reach.
  ghost predicate Reachable(page: Int64, take: Int64) {
    1 <= page && 1 <= take <= MAX_TAKE && Start(page, take) <= MAX_INT64
  }

  lemma PageIsWindow(db: Db, t: Tree, page: Int64, take: Int64)
    requires Reachable(page, take)
    ensures PageOf(db, t, page, take) == WindowOf(db, t, Start(page, take), take)
  {
    TimesIsProduct(page - 1, take);
    WrapIsExact(Start(page, take));
    assert Offset64(page, take) == Start(page, take);
  }

  lemma WindowIsSliceOf<T>(s: seq<T>, from: nat, take: nat)
    ensures Window(s, from, Some(take)) == Slice(s, from, take)
    ensures Window(s, 0, None) == s
  {
    if from > |s| {
      assert Slice(s, from, take) == [];
    } else if from + take <= |s| {
      assert s[from..][..take] == s[from..from + take];
    } else {
      assert Slice(s, from, take) == s[from..];
    }
  }

  // All rows that the builder's query matches.
  function AllRows(db: Db, t: Tree): seq<Row> {
    Matching(db, t.own.kind, t.own.preds, t.own.order)
  }

  lemma WholeCount(db: Db, t: Tree)
    requires Countable(t.own)
    ensures CountOf(db, t.own) == Ok(|AllRows(db, t)|)
  {
    CountIgnoresLimit(db, t.own);
  }

  lemma WindowFetch(db: Db, t: Tree, from: nat, take: nat)
    requires 1 <= take
    ensures Fetch(db, At(t.own, from, take)) == Ok(Slice(AllRows(db, t), from, take))
  {
    WindowIsSliceOf(AllRows(db, t), from, take);
  }

  // A window that is found holds the entities of its rows.
  lemma WindowKeepsRows(db: Db, t: Tree, from: nat, take: nat, rows: seq<Row>)
    requires Fetch(db, At(t.own, from, take)) == Ok(rows) && Run(db, At(t.own, from, take), t).nodes.Ok?
    ensures SameBases(Run(db, At(t.own, from, take), t).nodes.value, Decoded(t.own, t, rows))
  {
    var b := At(t.own, from, take);
    RunKeepsRows(db, b, t, rows);
    assert Decoded(b, t, rows) == Decoded(t.own, t, rows) by {
      assert SpecColumns(b, t.edges.Keys) == SpecColumns(t.own, t.edges.Keys);
    }
  }

  lemma WindowParts(db: Db, t: Tree, from: int, take: int, count: nat)
    requires CountOf(db, t.own) == Ok(count)
    ensures var data := Run(db, At(t.own, from, take), t).nodes;
      WindowOf(db, t, from, take) == if data.Err? then Err(QueryFailed(data.error)) else Ok(Page(data.value, count))
  {
  }

  // The data of every page are the entities of its slice of the rows; a countable builder counts all of them.
  lemma WindowIsSliceOfRows(db: Db, t: Tree, from: nat, take: nat)
    requires 1 <= take && WindowOf(db, t, from, take).Ok?
    ensures SameBases(WindowOf(db, t, from, take).value.data, Decoded(t.own, t, Slice(AllRows(db, t), from, take)))
    ensures Countable(t.own) ==> WindowOf(db, t, from, take).value.count == |AllRows(db, t)|
  {
    WindowParts(db, t, from, take, CountOf(db, t.own).value);
    WindowFetch(db, t, from, take);
    WindowKeepsRows(db, t, from, take, Slice(AllRows(db, t), from, take));
    if Countable(t.own) { WholeCount(db, t); }
  }

  // What the whole result means: for every row, the entity with the neighbours that its own queries return.
  ghost function Meant(db: Db, t: Tree): (ns: seq<Entity>)
    ensures |ns| == |AllRows(db, t)|
  {
    NestedAll(db, t.own, t, AllRows(db, t), t.edges.Keys)
  }

  lemma SameNested(db: Db, b: Builder, b': Builder, t: Tree, row: Row)
    requires b'.kind == b.kind && b'.fields == b.fields
    ensures NestedOn(db, b', t, row, t.edges.Keys) == NestedOn(db, b, t, row, t.edges.Keys)
  {
    assert SpecColumns(b, t.edges.Keys) == SpecColumns(b', t.edges.Keys);
  }

  lemma NestedSlice(db: Db, b: Builder, b': Builder, t: Tree, rows: seq<Row>, from: nat, n: nat)
    requires b'.kind == b.kind && b'.fields == b.fields
    ensures NestedAll(db, b', t, Slice(rows, from, n), t.edges.Keys)
      == Slice(NestedAll(db, b, t, rows, t.edges.Keys), from, n)
  {
    var all := NestedAll(db, b, t, rows, t.edges.Keys);
    var part := Slice(rows, from, n);
    assert |Slice(all, from, n)| == |part|;
    forall i | 0 <= i < |part| ensures NestedAll(db, b', t, part, t.edges.Keys)[i] == Slice(all, from, n)[i] {
      var k := Min(from, |rows|) + i;
      assert Slice(all, from, n)[i] == all[k] && part[i] == rows[k];
      SameNested(db, b, b', t, rows[k]);
    }
  }

  // Running the builder without limit and offset gives what it means exactly when its children share their windows
  // fairly.
  lemma WholeIsMeant(db: Db, t: Tree, whole: Builder)
    requires WellFormed(db) && Belongs(t) && InvalidFieldIn(t.own.kind, t.own.fields).None?
    requires whole == t.own.(limit := None, offset := None)
    ensures Run(db, whole, t).nodes == Ok(Meant(db, t)) <==> Fair(db, t, AllRows(db, t))
  {
    WindowIsSliceOf(AllRows(db, t), 0, 0);
    RunIsNestedExactly(db, whole, t, AllRows(db, t));
    NestedIgnoresPreds(db, whole, t.own, t, AllRows(db, t));
    NestedIgnoresPreds(db, t.own, t.own, t, AllRows(db, t));
  }

  // A window is that slice of what the whole means, neighbours included, exactly when the children share their
  // windows fairly among the rows of the slice.
  lemma WindowIsSlice(db: Db, t: Tree, from: nat, take: nat)
    requires WellFormed(db) && Belongs(t) && InvalidFieldIn(t.own.kind, t.own.fields).None? && 1 <= take
    ensures Run(db, At(t.own, from, take), t).nodes == Ok(Slice(Meant(db, t), from, take)) <==>
      Fair(db, t, Slice(AllRows(db, t), from, take))
  {
    WindowFetch(db, t, from, take);
    RunIsNestedExactly(db, At(t.own, from, take), t, Slice(AllRows(db, t), from, take));
    NestedSlice(db, t.own, At(t.own, from, take), t, AllRows(db, t), from, take);
  }

  // What a page should be: too many items, a negative offset that the database refuses, or the slice of what the
  // whole result means at the 64-bit offset, with the whole count.
  ghost function DuePage(db: Db, t: Tree, offset: int, size: Int64): Result<Page, PageError> {
    if size > MAX_TAKE then Err(TooManyItems)
    else if offset < 0 || size < 0 then Err(QueryFailed(BadRange))
    else Ok(Page(Slice(Meant(db, t), offset, size), |Meant(db, t)|))
  }

  lemma WindowIsDue(db: Db, t: Tree, from: nat, take: Int64)
    requires WellFormed(db) && Belongs(t) && Countable(t.own) && 1 <= take <= MAX_TAKE
    ensures WindowOf(db, t, from, take) == DuePage(db, t, from, take) <==> Fair(db, t, Slice(AllRows(db, t), from, take))
  {
    WholeCount(db, t);
    WindowIsSlice(db, t, from, take);
    WindowParts(db, t, from, take, |AllRows(db, t)|);
  }

  // Every page number and take, wrapped offsets included, gives the page it should, exactly when it is refused or
  // the children share their windows fairly among the rows of the page.
  lemma PageIsSlice(db: Db, t: Tree, page: Int64, take: Int64)
    requires WellFormed(db) && Belongs(t) && Countable(t.own)
    ensures var from, size := Offset64(page, take), PageSize(take);
      PageOf(db, t, page, take) == DuePage(db, t, from, size) <==>
        size > MAX_TAKE || from < 0 || Fair(db, t, Slice(AllRows(db, t), from, size))
  {
    var from := Offset64(page, take);
    if from < 0 {
      WholeCount(db, t);
    } else if PageSize(take) <= MAX_TAKE {
      WindowIsDue(db, t, from, PageSize(take));
    }
  }

  // Pages 1 to n.
  function Pages(db: Db, t: Tree, take: Int64, n: nat): (ps: seq<Result<Page, PageError>>)
    requires n <= MAX_INT64
    ensures |ps| == n && forall m | 0 <= m < n :: ps[m] == PageOf(db, t, m + 1, take)
  {
    seq(n, m requires 0 <= m < n => PageOf(db, t, m + 1, take))
  }

  ghost predicate AllOk(ps: seq<Result<Page, PageError>>) {
    forall m | 0 <= m < |ps| :: ps[m].Ok?
  }

  // The data of these pages, one after the other.
  function DataOf(ps: seq<Result<Page, PageError>>): seq<Entity> {
    if ps == [] then []
    else
      var p := ps[|ps| - 1];
      DataOf(ps[..|ps| - 1]) + if p.Ok? then p.value.data else []
  }

  lemma NextSlice<T>(s: seq<T>, from: nat, n: nat)
    ensures Slice(s, 0, from) + Slice(s, from, n) == Slice(s, 0, from + n)
  {
  }

  lemma SameBasesConcat(a: seq<Entity>, a': seq<Entity>, b: seq<Entity>, b': seq<Entity>)
    requires SameBases(a, a') && SameBases(b, b')
    ensures SameBases(a + b, a' + b')
  {
  }

  lemma DecodedConcat(t: Tree, a: seq<Row>, b: seq<Row>)
    ensures Decoded(t.own, t, a + b) == Decoded(t.own, t, a) + Decoded(t.own, t, b)
  {
    var cs := SpecColumns(t.own, t.edges.Keys);
    var load := row => Decode(t.own.kind, row, cs, t.edges.Keys);
    assert Map(load, a + b) == Map(load, a) + Map(load, b);
    forall s: seq<Row> ensures Decoded(t.own, t, s) == Map(load, s) {}
  }

  lemma {:induction false} DataKeepsRows(t: Tree, rows: seq<Row>, take: nat, ps: seq<Result<Page, PageError>>)
    requires AllOk(ps)
    requires forall m | 0 <= m < |ps| :: SameBases(ps[m].value.data, Decoded(t.own, t, Slice(rows, Times(m, take), take)))
    ensures SameBases(DataOf(ps), Decoded(t.own, t, Slice(rows, 0, Times(|ps|, take))))
  {
    if ps != [] {
      var n := |ps| - 1;
      var from := Times(n, take);
      DataKeepsRows(t, rows, take, ps[..n]);
      NextSlice(rows, from, take);
      DecodedConcat(t, Slice(rows, 0, from), Slice(rows, from, take));
      SameBasesConcat(DataOf(ps[..n]), Decoded(t.own, t, Slice(rows, 0, from)),
                      ps[n].value.data, Decoded(t.own, t, Slice(rows, from, take)));
    }
  }

  lemma NextSliceExactly<T>(s: seq<T>, from: nat, n: nat, before: seq<T>, data: seq<T>)
    requires |before| == |Slice(s, 0, from)|
    ensures before + data == Slice(s, 0, from + n) <==> before == Slice(s, 0, from) && data == Slice(s, from, n)
  {
    NextSlice(s, from, n);
    if before + data == Slice(s, 0, from + n) {
      assert (before + data)[..|before|] == before && (before + data)[|before|..] == data;
    }
  }

  ghost predicate HoldsSlice(p: Result<Page, PageError>, s: seq<Entity>, from: nat, n: nat) {
    p.Ok? && p.value.data == Slice(s, from, n)
  }

  ghost predicate HoldSlices(ps: seq<Result<Page, PageError>>, s: seq<Entity>, take: nat) {
    forall m | 0 <= m < |ps| :: HoldsSlice(ps[m], s, Times(m, take), take)
  }

  lemma HoldSlicesAreOk(s: seq<Entity>, take: nat, ps: seq<Result<Page, PageError>>)
    requires HoldSlices(ps, s, take)
    ensures AllOk(ps)
  {
    forall m | 0 <= m < |ps| ensures ps[m].Ok? {
      assert HoldsSlice(ps[m], s, Times(m, take), take);
    }
  }

  lemma HoldSlicesStep(s: seq<Entity>, take: nat, ps: seq<Result<Page, PageError>>, n: nat)
    requires |ps| == n + 1
    ensures AllOk(ps) <==> AllOk(ps[..n]) && ps[n].Ok?
    ensures HoldSlices(ps, s, take) <==> HoldSlices(ps[..n], s, take) && HoldsSlice(ps[n], s, Times(n, take), take)
  {
    assert forall m | 0 <= m < n :: ps[..n][m] == ps[m];
  }

  lemma {:induction false} DataLength(s: seq<Entity>, take: nat, ps: seq<Result<Page, PageError>>)
    requires AllOk(ps) && forall m | 0 <= m < |ps| :: |ps[m].value.data| == |Slice(s, Times(m, take), take)|
    ensures |DataOf(ps)| == |Slice(s, 0, Times(|ps|, take))|
  {
    if ps != [] {
      DataLength(s, take, ps[..|ps| - 1]);
      NextSlice(s, Times(|ps| - 1, take), take);
    }
  }

  // The data of these pages are the list up to where they end.
  ghost predicate Tiles(ps: seq<Result<Page, PageError>>, s: seq<Entity>, take: nat) {
    AllOk(ps) && DataOf(ps) == Slice(s, 0, Times(|ps|, take))
  }

  lemma NextTiles(s: seq<Entity>, take: nat, ps: seq<Result<Page, PageError>>, n: nat)
    requires |ps| == n + 1 && AllOk(ps) && |DataOf(ps[..n])| == |Slice(s, 0, Times(n, take))|
    ensures Tiles(ps, s, take) <==> Tiles(ps[..n], s, take) && HoldsSlice(ps[n], s, Times(n, take), take)
  {
    NextSliceExactly(s, Times(n, take), take, DataOf(ps[..n]), ps[n].value.data);
  }

  // Pages of the right lengths hold a list, one after the other, exactly when each of them holds its slice.
  lemma {:induction false} DataTiles(s: seq<Entity>, take: nat, ps: seq<Result<Page, PageError>>)
    requires AllOk(ps) && forall m | 0 <= m < |ps| :: |ps[m].value.data| == |Slice(s, Times(m, take), take)|
    ensures Tiles(ps, s, take) <==> HoldSlices(ps, s, take)
  {
    if ps != [] {
      var n := |ps| - 1;
      DataTiles(s, take, ps[..n]);
      DataLength(s, take, ps[..n]);
      NextTiles(s, take, ps, n);
      HoldSlicesStep(s, take, ps, n);
    }
  }

  // Page m + 1 starts where the m pages before it end.
  lemma NextPage(take: Int64, n: nat, page: Int64)
    requires 1 <= page <= n <= MAX_INT64 && 1 <= take <= MAX_TAKE && Times(n, take) <= MAX_INT64
    ensures Reachable(page, take) && Start(page, take) == Times(page - 1, take)
  {
    TimesGrows(page - 1, n, take);
  }

  ghost predicate AreWindows(db: Db, t: Tree, take: nat, ps: seq<Result<Page, PageError>>) {
    forall m | 0 <= m < |ps| :: ps[m] == WindowOf(db, t, Times(m, take), take)
  }

  lemma PageIsNextWindow(db: Db, t: Tree, take: Int64, n: nat, page: Int64)
    requires 1 <= page <= n <= MAX_INT64 && 1 <= take <= MAX_TAKE && Times(n, take) <= MAX_INT64
    ensures PageOf(db, t, page, take) == WindowOf(db, t, Times(page - 1, take), take)
  {
    NextPage(take, n, page);
    PageIsWindow(db, t, page, take);
  }

  lemma PagesByNumber(db: Db, t: Tree, take: Int64, n: nat)
    requires 1 <= take <= MAX_TAKE && n <= MAX_INT64 && Times(n, take) <= MAX_INT64
    ensures forall page: Int64 | 1 <= page <= n ::
      PageOf(db, t, page, take) == WindowOf(db, t, Times(page - 1, take), take)
  {
    forall page: Int64 | 1 <= page <= n
      ensures PageOf(db, t, page, take) == WindowOf(db, t, Times(page - 1, take), take)
    {
      PageIsNextWindow(db, t, take, n, page);
    }
  }

  lemma PagesAreWindows(db: Db, t: Tree, take: Int64, n: nat)
    requires 1 <= take <= MAX_TAKE && n <= MAX_INT64 && Times(n, take) <= MAX_INT64
    ensures AreWindows(db, t, take, Pages(db, t, take, n))
  {
    PagesByNumber(db, t, take, n);
  }

  lemma WindowsKeepRows(db: Db, t: Tree, take: nat, ps: seq<Result<Page, PageError>>)
    requires 1 <= take && AreWindows(db, t, take, ps) && AllOk(ps)
    ensures SameBases(DataOf(ps), Decoded(t.own, t, Slice(AllRows(db, t), 0, Times(|ps|, take))))
  {
    forall m | 0 <= m < |ps|
      ensures SameBases(ps[m].value.data, Decoded(t.own, t, Slice(AllRows(db, t), Times(m, take), take)))
    {
      WindowIsSliceOfRows(db, t, Times(m, take), take);
    }
    DataKeepsRows(t, AllRows(db, t), take, ps);
  }

  // Whatever the builder selects and its children limit, the rows of the pages tile: pages that all succeed hold,
  // one after the other, the entities of the first n*take rows.
  lemma PagesTileRows(db: Db, t: Tree, take: Int64, n: nat)
    requires 1 <= take <= MAX_TAKE && n <= MAX_INT64 && Times(n, take) <= MAX_INT64
    requires AllOk(Pages(db, t, take, n))
    ensures SameBases(DataOf(Pages(db, t, take, n)), Decoded(t.own, t, Slice(AllRows(db, t), 0, Times(n, take))))
  {
    PagesAreWindows(db, t, take, n);
    WindowsKeepRows(db, t, take, Pages(db, t, take, n));
  }

  // The children share their windows fairly among the rows of each of the first n pages.
  ghost predicate PagesFair(db: Db, t: Tree, take: nat, n: nat) {
    forall m: nat | m < n :: Fair(db, t, Slice(AllRows(db, t), Times(m, take), take))
  }

  lemma DueHoldsSlice(p: Result<Page, PageError>, due: Page, s: seq<Entity>, from: nat, take: nat)
    requires due == Page(Slice(s, from, take), |s|) && (p.Ok? ==> p.value.count == |s|)
    ensures HoldsSlice(p, s, from, take) <==> p == Ok(due)
  {
  }

  lemma WindowHoldsSlice(db: Db, t: Tree, from: nat, take: Int64, p: Result<Page, PageError>)
    requires WellFormed(db) && Belongs(t) && Countable(t.own) && 1 <= take <= MAX_TAKE
    requires p == WindowOf(db, t, from, take)
    ensures HoldsSlice(p, Meant(db, t), from, take) <==> Fair(db, t, Slice(AllRows(db, t), from, take))
  {
    WindowIsDue(db, t, from, take);
    if p.Ok? { WindowIsSliceOfRows(db, t, from, take); }
    DueHoldsSlice(p, Page(Slice(Meant(db, t), from, take), |Meant(db, t)|), Meant(db, t), from, take);
  }

  lemma WindowsHoldSlices(db: Db, t: Tree, take: Int64, ps: seq<Result<Page, PageError>>)
    requires WellFormed(db) && Belongs(t) && Countable(t.own) && 1 <= take <= MAX_TAKE
    requires AreWindows(db, t, take, ps)
    ensures PagesFair(db, t, take, |ps|) <==> HoldSlices(ps, Meant(db, t), take)
  {
    forall m: nat | m < |ps|
      ensures HoldsSlice(ps[m], Meant(db, t), Times(m, take), take)
        <==> Fair(db, t, Slice(AllRows(db, t), Times(m, take), take))
    {
      WindowHoldsSlice(db, t, Times(m, take), take, ps[m]);
    }
  }

  lemma WindowsHaveLengths(db: Db, t: Tree, take: nat, ps: seq<Result<Page, PageError>>)
    requires 1 <= take && AreWindows(db, t, take, ps)
    ensures forall m | 0 <= m < |ps| :: ps[m].Ok? ==> |ps[m].value.data| == |Slice(Meant(db, t), Times(m, take), take)|
  {
    forall m | 0 <= m < |ps| && ps[m].Ok? ensures |ps[m].value.data| == |Slice(Meant(db, t), Times(m, take), take)| {
      WindowIsSliceOfRows(db, t, Times(m, take), take);
    }
  }

  lemma FairPagesTile(s: seq<Entity>, take: nat, ps: seq<Result<Page, PageError>>)
    requires forall m | 0 <= m < |ps| :: ps[m].Ok? ==> |ps[m].value.data| == |Slice(s, Times(m, take), take)|
    ensures Tiles(ps, s, take) <==> HoldSlices(ps, s, take)
  {
    if HoldSlices(ps, s, take) { HoldSlicesAreOk(s, take, ps); }
    if AllOk(ps) { DataTiles(s, take, ps); }
  }

  lemma WindowsTile(db: Db, t: Tree, take: Int64, ps: seq<Result<Page, PageError>>)
    requires WellFormed(db) && Belongs(t) && Countable(t.own) && 1 <= take <= MAX_TAKE
    requires AreWindows(db, t, take, ps)
    ensures PagesFair(db, t, take, |ps|) <==> Tiles(ps, Meant(db, t), take)
  {
    WindowsHoldSlices(db, t, take, ps);
    WindowsHaveLengths(db, t, take, ps);
    FairPagesTile(Meant(db, t), take, ps);
  }

  // The first n pages are the first n*take entities of what the whole means, and with enough pages all of it,
  // exactly when the children share their windows fairly on each page.
  lemma PagesTile(db: Db, t: Tree, take: Int64, n: nat)
    requires WellFormed(db) && Belongs(t) && Countable(t.own) && 1 <= take <= MAX_TAKE
    requires n <= MAX_INT64 && Times(n, take) <= MAX_INT64
    ensures var ps, meant := Pages(db, t, take, n), Meant(db, t);
      && (PagesFair(db, t, take, n) <==> AllOk(ps) && DataOf(ps) == meant[..Min(Times(n, take), |meant|)])
      && (PagesFair(db, t, take, n) && |meant| <= Times(n, take) ==> DataOf(ps) == meant)
  {
    var meant := Meant(db, t);
    PagesAreWindows(db, t, take, n);
    WindowsTile(db, t, take, Pages(db, t, take, n));
    assert Slice(meant, 0, Times(n, take)) == meant[..Min(Times(n, take), |meant|)];
  }

  // Children whose windows hold all that the whole result asks them for are fair on every page.
  lemma AmplePagesAreFair(db: Db, t: Tree, take: nat, n: nat)
    requires WellFormed(db) && Belongs(t) && Ample(db, t, AllRows(db, t))
    ensures Fair(db, t, AllRows(db, t)) && PagesFair(db, t, take, n)
  {
    AmpleIsFair(db, t, AllRows(db, t));
    forall m: nat | m < n ensures Fair(db, t, Slice(AllRows(db, t), Times(m, take), take)) {
      var part := Slice(AllRows(db, t), Times(m, take), take);
      AmpleForFewer(db, t, AllRows(db, t), part);
      AmpleIsFair(db, t, part);
    }
  }

  // A page of a countable builder is empty, with the whole count, exactly when it is not too large and its 64-bit
  // offset is past the end, whatever the children do.
  lemma LaterPagesAreEmpty(db: Db, t: Tree, take: Int64, page: Int64)
    requires Countable(t.own)
    ensures PageOf(db, t, page, take) == Ok(Page([], |AllRows(db, t)|)) <==>
      PageSize(take) <= MAX_TAKE && |AllRows(db, t)| <= Offset64(page, take)
  {
    var from, size := Offset64(page, take), PageSize(take);
    WholeCount(db, t);
    if size <= MAX_TAKE && from >= 0 {
      WindowFetch(db, t, from, size);
      WindowParts(db, t, from, size, |AllRows(db, t)|);
      if WindowOf(db, t, from, size).Ok? { WindowIsSliceOfRows(db, t, from, size); }
    }
  }

  // ---------- What a page answers ----------

  lemma SliceIsCut<T>(s: seq<T>, from: nat, n: nat)
    ensures Slice(s, from, n) == Window(s, from, Some(n))
  {
    WindowIsSliceOf(s, from, n);
  }

  // Entities with the bases of a slice of the rows are read from the places in that part of the answer.
  lemma SliceIsRead(db: Db, t: Tree, ns: seq<Entity>, from: nat, n: nat, at: seq<nat>, cut: seq<nat>)
    requires Within(RowsIn(db, t.own.kind), -1, at) && cut == Cut(at, from, Some(n))
    requires AllRows(db, t) == RowsAt(RowsIn(db, t.own.kind), at)
    requires SameBases(ns, Decoded(t.own, t, Slice(AllRows(db, t), from, n)))
    ensures AllReadFrom(t.own, t.edges.Keys, ns, RowsIn(db, t.own.kind), cut)
  {
    SliceIsCut(AllRows(db, t), from, n);
    CutRows(RowsIn(db, t.own.kind), at, from, Some(n), cut);
    RowsAreRead(t.own, t, ns, RowsIn(db, t.own.kind), cut);
  }

  // These entities are the part of the whole answer from a position on.
  ghost predicate IsPart(db: Db, t: Tree, ns: seq<Entity>, from: nat, n: nat) {
    exists at :: Ranked(RowsIn(db, t.own.kind), t.own.preds, t.own.order, at)
                 && AllReadFrom(t.own, t.edges.Keys, ns, RowsIn(db, t.own.kind), Cut(at, from, Some(n)))
  }

  lemma SliceIsPart(db: Db, t: Tree, ns: seq<Entity>, from: nat, n: nat)
    requires SameBases(ns, Decoded(t.own, t, Slice(AllRows(db, t), from, n)))
    ensures IsPart(db, t, ns, from, n)
  {
    var at := MatchingIsRanked(db, t.own.kind, t.own.preds, t.own.order);
    SliceIsRead(db, t, ns, from, n, at, Cut(at, from, Some(n)));
  }

  lemma WindowAnswers(db: Db, t: Tree, from: nat, take: nat, p: Result<Page, PageError>)
    requires 1 <= take && p == WindowOf(db, t, from, take) && p.Ok?
    ensures IsPart(db, t, p.value.data, from, take)
    ensures t.own.fields == [] && OffsetOf(t.own) == 0 ==> p.value.count == |Admitted(db, t.own)|
  {
    WindowIsSliceOfRows(db, t, from, take);
    SliceIsPart(db, t, p.value.data, from, take);
    if t.own.fields == [] && OffsetOf(t.own) == 0 { PageCounts(db, t, from, take); }
  }

  lemma DefaultsArePage(db: Db, t: Tree, page: Int64, take: Int64, number: Int64, size: Int64)
    requires number == (if page <= 0 then 1 else page) && size == (if take <= 0 then 20 else take)
    ensures PageOf(db, t, page, take) == PageOf(db, t, number, size)
  {
    assert PageNumber(page) == PageNumber(number) && PageSize(take) == PageSize(size);
    SameOffsetSamePage(db, t, page, take, number, size);
  }

  lemma NumberedPage(db: Db, t: Tree, number: Int64, size: Int64, from: nat)
    requires 1 <= number && 1 <= size <= 100 && from == (number - 1) * size && from <= 9223372036854775807
    ensures PageOf(db, t, number, size) == WindowOf(db, t, from, size)
  {
    TimesIsProduct(number - 1, size);
    PageIsWindow(db, t, number, size);
  }

  // A page holds the rows from position (number-1)*size of the whole answer on, size of them or as many as there are;
  // a number or size that is not positive stands for 1 or 20.
  lemma PageAnswers(db: Db, t: Tree, page: Int64, take: Int64, number: Int64, size: Int64, from: nat)
    requires number == (if page <= 0 then 1 else page) && size == (if take <= 0 then 20 else take)
    requires from == (number - 1) * size && from <= 9223372036854775807 && PageOf(db, t, page, take).Ok?
    ensures IsPart(db, t, PageOf(db, t, page, take).value.data, from, size)
    ensures t.own.fields == [] && OffsetOf(t.own) == 0 ==>
      PageOf(db, t, page, take).value.count == |Admitted(db, t.own)|
  {
    assert size <= 100 by { SizeIsAccepted(db, t, page, take); }
    DefaultsArePage(db, t, page, take, number, size);
    NumberedPage(db, t, number, size, from);
    WindowAnswers(db, t, from, size, PageOf(db, t, page, take));
  }

  lemma SizeIsAccepted(db: Db, t: Tree, page: Int64, take: Int64)
    requires PageOf(db, t, page, take).Ok?
    ensures (if take <= 0 then 20 else take) <= 100
  {
  }

  lemma PageCounts(db: Db, t: Tree, from: nat, take: nat)
    requires WindowOf(db, t, from, take).Ok? && t.own.fields == [] && OffsetOf(t.own) == 0
    ensures WindowOf(db, t, from, take).value.count == |Admitted(db, t.own)|
  {
    CountAnswers(db, t.own);
    WindowParts(db, t, from, take, |Admitted(db, t.own)|);
  }

  // Pages that all succeed hold, one after the other, the first n*take rows of the whole answer.
  lemma PagesAnswer(db: Db, t: Tree, take: Int64, n: nat, total: nat)
    requires 1 <= take <= 100 && n <= total == n * take <= 9223372036854775807
    requires AllOk(Pages(db, t, take, n))
    ensures IsPart(db, t, DataOf(Pages(db, t, take, n)), 0, total)
  {
    TimesIsProduct(n, take);
    PagesTileRows(db, t, take, n);
    SliceIsPart(db, t, DataOf(Pages(db, t, take, n)), 0, total);
  }

  // Along the concatenated pages the first order term never turns back.
  lemma PagesAreInOrder(db: Db, t: Tree, take: Int64, n: nat, total: nat) returns (places: seq<nat>)
    requires 1 <= take <= 100 && n <= total == n * take <= 9223372036854775807
    requires AllOk(Pages(db, t, take, n)) && t.own.order != []
    ensures AllReadFrom(t.own, t.edges.Keys, DataOf(Pages(db, t, take, n)), RowsIn(db, t.own.kind), places)
    ensures InOrder(t.own.order[0], RowsIn(db, t.own.kind), places)
  {
    PagesAnswer(db, t, take, n, total);
    places := PartIsInOrder(db, t, DataOf(Pages(db, t, take, n)), 0, total);
  }

  lemma PartIsInOrder(db: Db, t: Tree, ns: seq<Entity>, from: nat, n: nat) returns (places: seq<nat>)
    requires IsPart(db, t, ns, from, n) && t.own.order != []
    ensures AllReadFrom(t.own, t.edges.Keys, ns, RowsIn(db, t.own.kind), places)
    ensures InOrder(t.own.order[0], RowsIn(db, t.own.kind), places)
  {
    var at :| Ranked(RowsIn(db, t.own.kind), t.own.preds, t.own.order, at)
              && AllReadFrom(t.own, t.edges.Keys, ns, RowsIn(db, t.own.kind), Cut(at, from, Some(n)));
    places := Cut(at, from, Some(n));
    RankedIsInOrder(RowsIn(db, t.own.kind), t.own.preds, t.own.order, at);
    CutIsInOrder(t.own.order[0], RowsIn(db, t.own.kind), at, from, Some(n), places);
  }

  // The ids of entities that keep their rows' ids.
  lemma BasesKeepIds(t: Tree, ns: seq<Entity>, rows: seq<Row>)
    requires SameBases(ns, Decoded(t.own, t, rows))
    ensures Map(n => EntityId(n), ns) == Map(row => KeyOf(row, IdColumn), rows)
  {
    var cs := SpecColumns(t.own, t.edges.Keys);
    assert IdColumn in cs by {
      assert t.own.fields == [] ==> ValidColumn(t.own.kind, IdColumn);
      assert t.own.fields != [] ==> IdColumn in [IdColumn] + WithoutId(t.own.fields);
    }
    forall i | 0 <= i < |ns| ensures EntityId(ns[i]) == KeyOf(rows[i], IdColumn) {
      assert SameBase(ns[i], Decoded(t.own, t, rows)[i]);
      ProjectKeeps(rows[i], cs, IdColumn);
    }
  }

  ghost predicate HasId(ns: seq<Entity>, id: Id) {
    id in Map(n => EntityId(n), ns)
  }

  lemma IdsAreDistinct(db: Db, t: Tree, ids: seq<Id>, i: nat, j: nat)
    requires WellFormed(db) && ids == Map(row => KeyOf(row, IdColumn), AllRows(db, t))
    requires i < |ids| && j < |ids| && ids[i] == ids[j]
    ensures i == j
  {
    MatchingRows(db, t.own.kind, t.own.preds, t.own.order);
    SameKeySamePlace((row: Row) => KeyOf(row, IdColumn), AllRows(db, t), i, j);
  }

  lemma SliceOfMap<A, B>(f: A -> B, s: seq<A>, from: nat, n: nat)
    ensures Map(f, Slice(s, from, n)) == Slice(Map(f, s), from, n)
  {
  }

  lemma RowInWindow(db: Db, t: Tree, from: nat, take: nat, k: nat)
    requires WellFormed(db) && 1 <= take && WindowOf(db, t, from, take).Ok? && k < |AllRows(db, t)|
    ensures HasId(WindowOf(db, t, from, take).value.data, KeyOf(AllRows(db, t)[k], IdColumn)) <==> from <= k < from + take
  {
    var ids := Map(row => KeyOf(row, IdColumn), AllRows(db, t));
    WindowIsSliceOfRows(db, t, from, take);
    BasesKeepIds(t, WindowOf(db, t, from, take).value.data, Slice(AllRows(db, t), from, take));
    SliceOfMap(row => KeyOf(row, IdColumn), AllRows(db, t), from, take);
    forall i, j | 0 <= i < |ids| && 0 <= j < |ids| && ids[i] == ids[j] ensures i == j {
      IdsAreDistinct(db, t, ids, i, j);
    }
    InSlice(ids, from, take, k);
  }

  // The entity of row k is on exactly the pages whose 64-bit offset is at most take - 1 before it, whatever the
  // builder selects and its children limit.
  lemma EntityOnPages(db: Db, t: Tree, take: Int64, k: nat, page: Int64)
    requires WellFormed(db) && k < |AllRows(db, t)| && PageOf(db, t, page, take).Ok?
    ensures HasId(PageOf(db, t, page, take).value.data, KeyOf(AllRows(db, t)[k], IdColumn)) <==>
      Offset64(page, take) <= k < Offset64(page, take) + PageSize(take)
  {
    RowInWindow(db, t, Offset64(page, take), PageSize(take), k);
  }

  // Of the pages that the offset can reach, that is page k/take + 1 and no other.
  lemma EntityOnOnePage(db: Db, t: Tree, take: Int64, k: nat, page: Int64)
    requires WellFormed(db) && k < |AllRows(db, t)| && Reachable(page, take) && PageOf(db, t, page, take).Ok?
    ensures HasId(PageOf(db, t, page, take).value.data, KeyOf(AllRows(db, t)[k], IdColumn)) <==> page == k / take + 1
  {
    PageIsWindow(db, t, page, take);
    RowInWindow(db, t, Start(page, take), take, k);
    PositionOnPage(k, take, page);
  }

  lemma InSlice<T>(s: seq<T>, from: nat, n: nat, k: nat)
    requires k < |s| && forall i, j | 0 <= i < |s| && 0 <= j < |s| && s[i] == s[j] :: i == j
    ensures s[k] in Slice(s, from, n) <==> from <= k < from + n
  {
    if from <= k < from + n {
      assert Slice(s, from, n)[k - from] == s[k];
    }
  }

  lemma PositionOnPage(k: nat, take: Int64, page: Int64)
    requires 1 <= page && 1 <= take
    ensures Start(page, take) <= k < Start(page, take) + take <==> page == k / take + 1
  {
    var q := k / take;
    TimesIsProduct(page - 1, take);
    assert q * take <= k < q * take + take;
    if page - 1 < q {
      MulMonotone(take, page, q);
      assert page * take == (page - 1) * take + take;
    } else if page - 1 > q {
      MulMonotone(take, q + 1, page - 1);
      assert (q + 1) * take == q * take + take;
    }
  }
}
