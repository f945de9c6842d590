/**
 The entity graph and the store it is read from: tables of rows, predicates, ORDER BY, OFFSET and LIMIT,
 and the query a builder compiles to.
 */
module Store {
  import opened Wrappers
  import opened Lists

  type Id = nat                 // a UUID; 0 is the zero UUID
  const ZERO_ID: Id := 0
  const MAX_INT32 := 2147483647

  datatype Kind = Customer | CustomerChannel | Channel | CustomerBrief | Brief | Deal

  // The columns that take part in joins by name; every other one by its database name.
  datatype Column =
    | IdColumn | CustomerId | ChannelId | BriefId | AdvertiserCustomerId | ChannelManagerId
    | Plain(name: string)

  datatype Value = Key(id: Id) | Data(x: int)

  type Row = map<Column, Value>

  // The tables, and what the database answers to a COUNT over selected columns.
  datatype Db = Db(tables: map<Kind, seq<Row>>, columnCounts: Builder -> Result<nat, QueryError>)

  // ---------- The edges of the schema ----------

  datatype Edge =
    | CustomerToChannels | CustomerToBriefs | CustomerToAdvertiserDeals | CustomerToManagedDeals
    | LinkToCustomer | LinkToChannel
    | ChannelToLinks | ChannelToDeals
    | BriefLinkToCustomer | BriefLinkToBrief
    | BriefToLinks
    | DealToChannel | DealToAdvertiser | DealToChannelManager

  // In the order in which sqlAll loads them.
  function EdgesOf(k: Kind): seq<Edge> {
    match k
    case Customer => [CustomerToChannels, CustomerToBriefs, CustomerToAdvertiserDeals, CustomerToManagedDeals]
    case CustomerChannel => [LinkToCustomer, LinkToChannel]
    case Channel => [ChannelToLinks, ChannelToDeals]
    case CustomerBrief => [BriefLinkToCustomer, BriefLinkToBrief]
    case Brief => [BriefToLinks]
    case Deal => [DealToChannel, DealToAdvertiser, DealToChannelManager]
  }

  lemma EdgesAreDistinct(k: Kind)
    ensures forall i, j | 0 <= i < j < |EdgesOf(k)| :: EdgesOf(k)[i] != EdgesOf(k)[j]
  {
  }

  function Source(e: Edge): Kind {
    match e
    case CustomerToChannels | CustomerToBriefs | CustomerToAdvertiserDeals | CustomerToManagedDeals => Customer
    case LinkToCustomer | LinkToChannel => CustomerChannel
    case ChannelToLinks | ChannelToDeals => Channel
    case BriefLinkToCustomer | BriefLinkToBrief => CustomerBrief
    case BriefToLinks => Brief
    case DealToChannel | DealToAdvertiser | DealToChannelManager => Deal
  }

  function Target(e: Edge): Kind {
    match e
    case CustomerToChannels | ChannelToLinks => CustomerChannel
    case CustomerToBriefs | BriefToLinks => CustomerBrief
    case CustomerToAdvertiserDeals | CustomerToManagedDeals | ChannelToDeals => Deal
    case LinkToCustomer | BriefLinkToCustomer | DealToAdvertiser | DealToChannelManager => Customer
    case LinkToChannel | DealToChannel => Channel
    case BriefLinkToBrief => Brief
  }

  // One-to-many edges keep the foreign key on the target, many-to-one edges on the source.
  predicate ToMany(e: Edge) {
    match e
    case CustomerToChannels | CustomerToBriefs | CustomerToAdvertiserDeals | CustomerToManagedDeals => true
    case ChannelToLinks | ChannelToDeals | BriefToLinks => true
    case _ => false
  }

  function ForeignKey(e: Edge): Column {
    match e
    case CustomerToChannels | CustomerToBriefs | LinkToCustomer | BriefLinkToCustomer => CustomerId
    case LinkToChannel | ChannelToLinks | ChannelToDeals | DealToChannel => ChannelId
    case BriefLinkToBrief | BriefToLinks => BriefId
    case CustomerToAdvertiserDeals | DealToAdvertiser => AdvertiserCustomerId
    case CustomerToManagedDeals | DealToChannelManager => ChannelManagerId
  }

  // ---------- Columns ----------

  function KeyColumns(k: Kind): seq<Column> {
    match k
    case CustomerChannel => [IdColumn, CustomerId, ChannelId]
    case CustomerBrief => [IdColumn, CustomerId, BriefId]
    case Deal => [IdColumn, ChannelId, AdvertiserCustomerId, ChannelManagerId]
    case _ => [IdColumn]
  }

  function PlainNames(k: Kind): seq<string> {
    match k
    case Customer =>
      ["created_at", "updated_at", "tg_id", "tg_username", "tg_firstname", "tg_lastname", "tg_language",
       "tg_picture", "tg_is_premium", "tg_is_allow_pm", "referrer_tg_id", "wallet_hd_id", "address_bounceable",
       "address_nonbounceable", "ton_balance", "ton_balance_locked", "status"]
    case CustomerChannel => ["created_at", "updated_at", "role", "permissions"]
    case Channel =>
      ["created_at", "updated_at", "tg_id", "tg_username", "tg_name", "tg_description", "tg_picture", "commentary",
       "is_listed", "tags", "stats_updated_at", "stats", "prices", "subscribers", "premium_subscribers",
       "median_post_views", "avg_post_views", "status", "main_language", "restricted_from", "restricted_till",
       "restriction_reason", "notifications_on", "first_post_date", "total_posts"]
    case CustomerBrief => ["created_at", "updated_at"]
    case Brief => ["created_at", "updated_at"]
    case Deal =>
      ["created_at", "updated_at", "type", "status", "status_updated_at", "expires_at", "target_type", "target",
       "publication_time", "top_deadline", "common_deadline", "ton_price", "balance_refunded", "channel_post_ids"]
  }

  predicate ValidColumn(k: Kind, c: Column) {
    if c.Plain? then c.name in PlainNames(k) else c in KeyColumns(k)
  }

  function PlainColumns(names: seq<string>): (cs: seq<Column>)
    ensures forall c: Column :: c in cs <==> c.Plain? && c.name in names
  {
    if names == [] then [] else [Plain(names[0])] + PlainColumns(names[1..])
  }

  function AllColumns(k: Kind): (cs: seq<Column>)
    ensures forall c :: c in cs <==> ValidColumn(k, c)
  {
    KeyColumns(k) + PlainColumns(PlainNames(k))
  }

  // Reading a key column that was not selected gives the zero id.
  function KeyOf(fields: Row, c: Column): Id {
    if c in fields && fields[c].Key? then fields[c].id else ZERO_ID
  }

  // ---------- Builders ----------

  datatype Pred = Test(test: Row -> bool) | In(column: Column, ids: seq<Id>)

  predicate Holds(p: Pred, row: Row) {
    match p
    case Test(test) => test(row)
    case In(c, ids) => c in row && row[c].Key? && row[c].id in ids
  }

  datatype OrderTerm = Asc(column: Column) | Desc(column: Column)

  // What a query builder holds besides its eager-loading children.
  datatype Builder = Builder(
    kind: Kind,
    fields: seq<Column>,
    limit: Option<int>,
    offset: Option<int>,
    unique: Option<bool>,
    order: seq<OrderTerm>,
    preds: seq<Pred>)

  function AddOnce(cs: seq<Column>, c: Column): (r: seq<Column>)
    ensures c in r && cs <= r && (forall x :: x in r <==> x in cs || x == c)
  {
    if c in cs then cs else cs + [c]
  }

  function WithoutId(fields: seq<Column>): (r: seq<Column>)
    ensures forall c :: c in r <==> c in fields && c != IdColumn
  {
    if fields == [] then []
    else if fields[0] != IdColumn then [fields[0]] + WithoutId(fields[1..])
    else WithoutId(fields[1..])
  }

  // The foreign keys of the requested many-to-one edges, each added once.
  function AddKeys(cs: seq<Column>, edges: seq<Edge>, requested: set<Edge>): (r: seq<Column>)
    ensures forall c :: c in r <==>
      c in cs || exists e :: e in edges && e in requested && !ToMany(e) && c == ForeignKey(e)
    decreases edges
  {
    if edges == [] then cs
    else
      var e := edges[0];
      assert edges == [e] + edges[1..];
      AddKeys(if e in requested && !ToMany(e) then AddOnce(cs, ForeignKey(e)) else cs, edges[1..], requested)
  }

  // querySpec: the selected columns, the id first, or all columns when none were selected.
  function SpecColumns(b: Builder, requested: set<Edge>): seq<Column> {
    if b.fields == [] then AllColumns(b.kind)
    else AddKeys([IdColumn] + WithoutId(b.fields), EdgesOf(b.kind), requested)
  }

  function Project(row: Row, cs: seq<Column>): Row {
    map c | c in cs && c in row :: row[c]
  }

  datatype QueryError =
    | InvalidField(column: Column)
    | BadRange
    | NoRows
    | TooManyColumns
    | UnexpectedKey(id: Id)
    | NotFound
    | NotSingular

  // prepareQuery: the first selected field that is not a column of the table.
  function InvalidFieldIn(k: Kind, fields: seq<Column>): (r: Option<Column>)
    ensures r.None? <==> forall c | c in fields :: ValidColumn(k, c)
    ensures r.Some? ==> r.value in fields && !ValidColumn(k, r.value)
  {
    if fields == [] then None
    else if !ValidColumn(k, fields[0]) then Some(fields[0])
    else InvalidFieldIn(k, fields[1..])
  }

  // The field that is refused is the first that is not a column.
  lemma {:induction false} InvalidFieldIsFirst(k: Kind, fields: seq<Column>) returns (i: nat)
    requires InvalidFieldIn(k, fields).Some?
    ensures i < |fields| && InvalidFieldIn(k, fields) == Some(fields[i]) && !ValidColumn(k, fields[i])
    ensures forall j | 0 <= j < i :: ValidColumn(k, fields[j])
  {
    if !ValidColumn(k, fields[0]) {
      i := 0;
    } else {
      i := InvalidFieldIsFirst(k, fields[1..]);
      i := i + 1;
    }
  }

  // ---------- Executing a builder ----------

  predicate Matches(preds: seq<Pred>, row: Row) {
    forall i | 0 <= i < |preds| :: Holds(preds[i], row)
  }

  lemma MatchesOneMore(preds: seq<Pred>, p: Pred, row: Row)
    ensures Matches(preds + [p], row) == (Matches(preds, row) && Holds(p, row))
  {
    var all := preds + [p];
    assert all[|preds|] == p;
    assert forall i | 0 <= i < |preds| :: all[i] == preds[i];
  }

  function SortKey(row: Row, c: Column): int {
    if c !in row then 0 else if row[c].Key? then row[c].id else row[c].x
  }

  predicate Before(terms: seq<OrderTerm>, a: Row, b: Row) {
    if terms == [] then true
    else
      var x, y := SortKey(a, terms[0].column), SortKey(b, terms[0].column);
      if x == y then Before(terms[1..], a, b)
      else if terms[0].Asc? then x < y else y < x
  }

  lemma {:induction false} BeforeTotal(terms: seq<OrderTerm>, a: Row, b: Row)
    ensures Before(terms, a, b) || Before(terms, b, a)
  {
    if terms != [] { BeforeTotal(terms[1..], a, b); }
  }

  lemma {:induction false} BeforeTransitive(terms: seq<OrderTerm>, a: Row, b: Row, c: Row)
    requires Before(terms, a, b) && Before(terms, b, c)
    ensures Before(terms, a, c)
  {
    if terms != [] {
      var col := terms[0].column;
      if SortKey(a, col) == SortKey(b, col) == SortKey(c, col) { BeforeTransitive(terms[1..], a, b, c); }
    }
  }

  lemma BeforeIsTotalPreorder(terms: seq<OrderTerm>)
    ensures TotalPreorder((a, b) => Before(terms, a, b))
  {
    var le := (a, b) => Before(terms, a, b);
    forall a, b ensures le(a, b) || le(b, a) { BeforeTotal(terms, a, b); }
    forall a, b, c | le(a, b) && le(b, c) ensures le(a, c) { BeforeTransitive(terms, a, b, c); }
  }

  function TableOf(db: Db, k: Kind): seq<Row> {
    if k in db.tables then db.tables[k] else []
  }

  // The matching rows of the whole table, in order; ties keep the table's order.
  function Matching(db: Db, k: Kind, preds: seq<Pred>, order: seq<OrderTerm>): seq<Row> {
    Sort((a, b) => Before(order, a, b), Filter(row => Matches(preds, row), TableOf(db, k)))
  }

  function GetOr(x: Option<int>, default: int): int {
    if x.Some? then x.value else default
  }

  // sqlgraph takes a limit of 0 as none, and an offset without limit as LIMIT MaxInt32.
  function SpecLimit(b: Builder): Option<nat>
    requires GetOr(b.limit, 0) >= 0
  {
    if GetOr(b.limit, 0) != 0 then Some(GetOr(b.limit, 0))
    else if GetOr(b.offset, 0) != 0 then Some(MAX_INT32)
    else None
  }

  // QueryNodes: the full rows that the compiled query selects.
  function Fetch(db: Db, b: Builder): Result<seq<Row>, QueryError> {
    if GetOr(b.offset, 0) < 0 || GetOr(b.limit, 0) < 0 then Err(BadRange)
    else Ok(Window(Matching(db, b.kind, b.preds, b.order), GetOr(b.offset, 0), SpecLimit(b)))
  }

  // ---------- Well-formed stores ----------

  ghost predicate WellFormedRow(k: Kind, row: Row) {
    && (forall c | ValidColumn(k, c) :: c in row)
    && (forall c | c in KeyColumns(k) :: c in row && row[c].Key?)
  }

  // Every row has the columns of its table, and ids are unique.
  ghost predicate WellFormed(db: Db) {
    forall k | k in db.tables ::
      && (forall row | row in db.tables[k] :: WellFormedRow(k, row))
      && DistinctBy((row: Row) => KeyOf(row, IdColumn), db.tables[k])
  }

  lemma MatchingRows(db: Db, k: Kind, preds: seq<Pred>, order: seq<OrderTerm>)
    ensures forall row | row in Matching(db, k, preds, order) :: row in TableOf(db, k) && Matches(preds, row)
    ensures WellFormed(db) ==> DistinctBy((row: Row) => KeyOf(row, IdColumn), Matching(db, k, preds, order))
  {
    var le := (a, b) => Before(order, a, b);
    var p := row => Matches(preds, row);
    var found := Filter(p, TableOf(db, k));
    forall row | row in Sort(le, found) ensures row in found {
      assert row in multiset(found);
    }
    if WellFormed(db) {
      var key := (row: Row) => KeyOf(row, IdColumn);
      FilterDistinct(key, p, TableOf(db, k));
      SortDistinct(key, le, found);
    }
  }

  // Filtering the result of a query is the query with one more predicate: ORDER BY is stable.
  lemma FilterMatching(db: Db, k: Kind, preds: seq<Pred>, order: seq<OrderTerm>, p: Row -> bool, more: seq<Pred>)
    requires forall row | row in TableOf(db, k) :: Matches(more, row) == (Matches(preds, row) && p(row))
    ensures Filter(p, Matching(db, k, preds, order)) == Matching(db, k, more, order)
  {
    var le := (a, b) => Before(order, a, b);
    BeforeIsTotalPreorder(order);
    var t := TableOf(db, k);
    FilterSort(le, p, Filter(row => Matches(preds, row), t));
    FilterTwice(p, row => Matches(preds, row), row => Matches(more, row), t);
  }
}
