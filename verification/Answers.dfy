/**
 What a query answers, written out on the rows of its table: which rows it selects, in which order, which part of
 them it returns, and what of each row.
 */
module Answers {
  import opened Wrappers
  import opened Lists
  import opened Store
  import opened EagerLoad
  import opened EdgeLaws
  import opened Lookups

  // ---------- Rows, by their places in the table ----------

  // Every test is true of the row, and every IN predicate lists the key that the row has.
  ghost predicate Admits(preds: seq<Pred>, row: Row) {
    forall i | 0 <= i < |preds| ::
      match preds[i]
      case Test(test) => test(row)
      case In(c, ids) => c in row && exists id :: row[c] == Key(id) && id in ids
  }

  ghost function ValueOf(row: Row, c: Column): int {
    if c !in row then 0
    else
      match row[c]
      case Key(id) => id
      case Data(x) => x
  }

  ghost predicate TiedBy(terms: seq<OrderTerm>, k: nat, a: Row, b: Row)
    requires k <= |terms|
  {
    forall x | 0 <= x < k :: ValueOf(a, terms[x].column) == ValueOf(b, terms[x].column)
  }

  // The rows differ in term k first, and there a is smaller for an ascending term, larger for a descending one.
  ghost predicate LeadsBy(terms: seq<OrderTerm>, k: nat, a: Row, b: Row)
    requires k < |terms|
  {
    && TiedBy(terms, k, a, b)
    && match terms[k]
       case Asc(c) => ValueOf(a, c) < ValueOf(b, c)
       case Desc(c) => ValueOf(a, c) > ValueOf(b, c)
  }

  // The row at place i comes before the row at place j: by the first term in which they differ, or else by place.
  ghost predicate ComesBefore(terms: seq<OrderTerm>, t: seq<Row>, i: nat, j: nat)
    requires i < |t| && j < |t|
  {
    || (exists k | 0 <= k < |terms| :: LeadsBy(terms, k, t[i], t[j]))
    || (TiedBy(terms, |terms|, t[i], t[j]) && i < j)
  }

  // The places of exactly the admitted rows, once each, in order.
  ghost predicate Ranked(t: seq<Row>, preds: seq<Pred>, terms: seq<OrderTerm>, at: seq<nat>) {
    && (forall i | 0 <= i < |at| :: at[i] < |t| && Admits(preds, t[at[i]]))
    && (forall p: nat | p < |t| && Admits(preds, t[p]) :: p in at)
    && (forall i, j | 0 <= i < j < |at| :: ComesBefore(terms, t, at[i], at[j]))
  }

  ghost function RowsAt(t: seq<Row>, at: seq<nat>): (rows: seq<Row>)
    requires forall i | 0 <= i < |at| :: at[i] < |t|
    ensures |rows| == |at| && forall i | 0 <= i < |at| :: rows[i] == t[at[i]]
  {
    seq(|at|, i requires 0 <= i < |at| => t[at[i]])
  }

  // ---------- Selecting ----------

  lemma AdmitsIsMatches(preds: seq<Pred>, row: Row)
    ensures Admits(preds, row) == Matches(preds, row)
  {
    forall i | 0 <= i < |preds| && preds[i].In?
      ensures (preds[i].column in row && exists id :: row[preds[i].column] == Key(id) && id in preds[i].ids)
        == Holds(preds[i], row)
    {
      var c := preds[i].column;
      if c in row && row[c].Key? { assert row[c] == Key(row[c].id); }
    }
  }

  // The places of the rows that p admits among the first n.
  ghost function Places(p: Row -> bool, t: seq<Row>, n: nat): (at: seq<nat>)
    requires n <= |t|
    ensures forall i | 0 <= i < |at| :: at[i] < n && p(t[at[i]])
    ensures forall x: nat | x < n && p(t[x]) :: x in at
    ensures forall i, j | 0 <= i < j < |at| :: at[i] < at[j]
  {
    if n == 0 then [] else Places(p, t, n - 1) + if p(t[n - 1]) then [n - 1] else []
  }

  lemma {:induction false} PlacesFilter(p: Row -> bool, t: seq<Row>, n: nat)
    requires n <= |t|
    ensures RowsAt(t, Places(p, t, n)) == Filter(p, t[..n])
  {
    if n > 0 {
      PlacesFilter(p, t, n - 1);
      assert t[..n] == t[..n - 1] + [t[n - 1]];
      FilterConcat(p, t[..n - 1], [t[n - 1]]);
    }
  }

  // ---------- Ordering ----------

  // Rows at increasing places, sorted: neighbours are in order, and ties keep their places.
  ghost predicate Stable(le: (Row, Row) -> bool, t: seq<Row>, at: seq<nat>)
    requires forall i | 0 <= i < |at| :: at[i] < |t|
  {
    forall i, j | 0 <= i < j < |at| :: le(t[at[i]], t[at[j]]) && (le(t[at[j]], t[at[i]]) ==> at[i] < at[j])
  }

  ghost predicate Within(t: seq<Row>, low: int, at: seq<nat>) {
    forall i | 0 <= i < |at| :: low < at[i] < |t|
  }

  lemma {:induction false} InsertPlace(le: (Row, Row) -> bool, t: seq<Row>, x: nat, at: seq<nat>) returns (r: seq<nat>)
    requires TotalPreorder(le) && x < |t| && Within(t, x, at) && Stable(le, t, at)
    ensures forall p :: p in r <==> p == x || p in at
    ensures Within(t, -1, r) && Stable(le, t, r) && RowsAt(t, r) == Insert(le, t[x], RowsAt(t, at))
  {
    if at == [] {
      r := [x];
    } else if le(t[x], t[at[0]]) {
      r := [x] + at;
      FrontIsStable(le, t, x, at);
      InsertedInFront(le, t, x, at);
    } else {
      TailIsStable(le, t, x, at);
      var rest := InsertPlace(le, t, x, at[1..]);
      r := [at[0]] + rest;
      InsertKeepsStable(le, t, x, at, rest);
      InsertedBehind(le, t, x, at, rest);
    }
  }

  lemma TailIsStable(le: (Row, Row) -> bool, t: seq<Row>, x: nat, at: seq<nat>)
    requires at != [] && Within(t, x, at) && Stable(le, t, at)
    ensures Within(t, x, at[1..]) && Stable(le, t, at[1..])
    ensures forall p :: p in at <==> p == at[0] || p in at[1..]
  {
  }

  lemma RowsAtCons(t: seq<Row>, p: nat, at: seq<nat>)
    requires p < |t| && Within(t, -1, at)
    ensures RowsAt(t, [p] + at) == [t[p]] + RowsAt(t, at)
  {
  }

  lemma InsertedInFront(le: (Row, Row) -> bool, t: seq<Row>, x: nat, at: seq<nat>)
    requires at != [] && x < |t| && Within(t, -1, at) && le(t[x], t[at[0]])
    ensures RowsAt(t, [x] + at) == Insert(le, t[x], RowsAt(t, at))
  {
    RowsAtCons(t, x, at);
  }

  lemma InsertCons(le: (Row, Row) -> bool, x: Row, first: Row, rest: seq<Row>)
    requires !le(x, first)
    ensures Insert(le, x, [first] + rest) == [first] + Insert(le, x, rest)
  {
    assert ([first] + rest)[1..] == rest;
  }

  lemma InsertedBehind(le: (Row, Row) -> bool, t: seq<Row>, x: nat, at: seq<nat>, rest: seq<nat>)
    requires at != [] && x < |t| && Within(t, -1, at) && Within(t, -1, rest) && !le(t[x], t[at[0]])
    requires RowsAt(t, rest) == Insert(le, t[x], RowsAt(t, at[1..]))
    ensures RowsAt(t, [at[0]] + rest) == Insert(le, t[x], RowsAt(t, at))
  {
    assert at == [at[0]] + at[1..];
    RowsAtCons(t, at[0], at[1..]);
    RowsAtCons(t, at[0], rest);
    InsertCons(le, t[x], t[at[0]], RowsAt(t, at[1..]));
  }

  lemma FrontIsStable(le: (Row, Row) -> bool, t: seq<Row>, x: nat, at: seq<nat>)
    requires TotalPreorder(le) && x < |t| && at != [] && Within(t, x, at) && Stable(le, t, at) && le(t[x], t[at[0]])
    ensures Stable(le, t, [x] + at)
  {
    forall j | 0 <= j < |at| ensures le(t[x], t[at[j]]) && x < at[j] {
      assert j > 0 ==> le(t[at[0]], t[at[j]]);
    }
  }

  lemma InsertKeepsStable(le: (Row, Row) -> bool, t: seq<Row>, x: nat, at: seq<nat>, rest: seq<nat>)
    requires TotalPreorder(le) && x < |t| && at != [] && Within(t, x, at) && Stable(le, t, at)
    requires !le(t[x], t[at[0]]) && (forall p | p in rest :: p == x || p in at[1..])
    requires Within(t, -1, rest) && Stable(le, t, rest)
    ensures Stable(le, t, [at[0]] + rest)
  {
    forall j | 0 <= j < |rest| ensures le(t[at[0]], t[rest[j]]) && (le(t[rest[j]], t[at[0]]) ==> at[0] < rest[j]) {
      assert rest[j] in rest;
      if rest[j] != x {
        var k :| 0 < k < |at| && at[k] == rest[j];
      }
    }
  }

  lemma {:induction false} SortPlaces(le: (Row, Row) -> bool, t: seq<Row>, ps: seq<nat>) returns (at: seq<nat>)
    requires TotalPreorder(le) && Within(t, -1, ps) && forall i, j | 0 <= i < j < |ps| :: ps[i] < ps[j]
    ensures forall p :: p in at <==> p in ps
    ensures Within(t, -1, at) && Stable(le, t, at) && RowsAt(t, at) == Sort(le, RowsAt(t, ps))
  {
    if ps == [] {
      at := [];
    } else {
      var tail := ps[1..];
      assert forall p :: p in ps <==> p == ps[0] || p in tail;
      var rest := SortPlaces(le, t, tail);
      forall i | 0 <= i < |rest| ensures ps[0] < rest[i] {
        assert rest[i] in rest;
        var k :| 0 < k < |ps| && ps[k] == rest[i];
      }
      at := InsertPlace(le, t, ps[0], rest);
      assert RowsAt(t, ps)[1..] == RowsAt(t, tail);
    }
  }

  // What Before decides, term by term.
  lemma {:induction false} BeforeIsLexicographic(terms: seq<OrderTerm>, a: Row, b: Row)
    ensures Before(terms, a, b) <==>
      TiedBy(terms, |terms|, a, b) || exists k | 0 <= k < |terms| :: LeadsBy(terms, k, a, b)
  {
    if terms != [] {
      var rest := terms[1..];
      BeforeIsLexicographic(rest, a, b);
      if ValueOf(a, terms[0].column) == ValueOf(b, terms[0].column) {
        forall k | 0 <= k < |rest| ensures LeadsBy(rest, k, a, b) <==> LeadsBy(terms, k + 1, a, b) {
          LeadsOneLater(terms, k, a, b);
        }
        TiedOneLater(terms, |rest|, a, b);
        assert (exists k | 0 <= k < |rest| :: LeadsBy(rest, k, a, b))
          ==> exists k | 0 <= k < |terms| :: LeadsBy(terms, k, a, b);
        assert (exists k | 0 <= k < |terms| :: LeadsBy(terms, k, a, b))
          ==> exists k | 0 <= k < |rest| :: LeadsBy(rest, k, a, b) by {
          if k :| 0 <= k < |terms| && LeadsBy(terms, k, a, b) {
            assert k > 0;
            assert LeadsBy(rest, k - 1, a, b);
          }
        }
      } else {
        assert Before(terms, a, b) <==> LeadsBy(terms, 0, a, b);
        forall k | 0 < k <= |terms| ensures !TiedBy(terms, k, a, b) {
          assert ValueOf(a, terms[0].column) != ValueOf(b, terms[0].column);
        }
      }
    }
  }

  lemma TiedOneLater(terms: seq<OrderTerm>, k: nat, a: Row, b: Row)
    requires k < |terms| && ValueOf(a, terms[0].column) == ValueOf(b, terms[0].column)
    ensures TiedBy(terms[1..], k, a, b) <==> TiedBy(terms, k + 1, a, b)
  {
    if TiedBy(terms[1..], k, a, b) {
      forall x | 0 <= x < k + 1 ensures ValueOf(a, terms[x].column) == ValueOf(b, terms[x].column) {
        if x > 0 { assert terms[1..][x - 1] == terms[x]; }
      }
    }
    if TiedBy(terms, k + 1, a, b) {
      forall x | 0 <= x < k ensures ValueOf(a, terms[1..][x].column) == ValueOf(b, terms[1..][x].column) {
        assert terms[1..][x] == terms[x + 1];
      }
    }
  }

  lemma LeadsOneLater(terms: seq<OrderTerm>, k: nat, a: Row, b: Row)
    requires k + 1 < |terms| && ValueOf(a, terms[0].column) == ValueOf(b, terms[0].column)
    ensures LeadsBy(terms[1..], k, a, b) <==> LeadsBy(terms, k + 1, a, b)
  {
    TiedOneLater(terms, k, a, b);
  }

  lemma TiedBothWays(terms: seq<OrderTerm>, a: Row, b: Row)
    ensures Before(terms, a, b) && Before(terms, b, a) <==> TiedBy(terms, |terms|, a, b)
  {
    BeforeIsLexicographic(terms, a, b);
    BeforeIsLexicographic(terms, b, a);
    forall j, k | 0 <= j < |terms| && 0 <= k < |terms| ensures !(LeadsBy(terms, j, a, b) && LeadsBy(terms, k, b, a)) {
      LeadsOneWay(terms, j, k, a, b);
    }
    TiedIsSymmetric(terms, |terms|, a, b);
  }

  lemma TiedIsSymmetric(terms: seq<OrderTerm>, k: nat, a: Row, b: Row)
    requires k <= |terms|
    ensures TiedBy(terms, k, a, b) == TiedBy(terms, k, b, a)
  {
  }

  lemma LeadsOneWay(terms: seq<OrderTerm>, j: nat, k: nat, a: Row, b: Row)
    requires j < |terms| && k < |terms|
    ensures !(LeadsBy(terms, j, a, b) && LeadsBy(terms, k, b, a))
  {
  }

  // ---------- The rows of a query ----------

  ghost function RowsIn(db: Db, k: Kind): seq<Row> {
    if k in db.tables then db.tables[k] else []
  }

  lemma MatchingPlaces(t: seq<Row>, preds: seq<Pred>, le: (Row, Row) -> bool) returns (at: seq<nat>)
    requires TotalPreorder(le)
    ensures Within(t, -1, at) && Stable(le, t, at)
    ensures forall x: nat :: x in at <==> x < |t| && Matches(preds, t[x])
    ensures RowsAt(t, at) == Sort(le, Filter(row => Matches(preds, row), t))
  {
    var p := row => Matches(preds, row);
    PlacesFilter(p, t, |t|);
    assert t[..|t|] == t;
    at := SortPlaces(le, t, Places(p, t, |t|));
  }

  lemma StableIsRanked(t: seq<Row>, preds: seq<Pred>, order: seq<OrderTerm>, le: (Row, Row) -> bool, at: seq<nat>)
    requires le == ((a, b) => Before(order, a, b)) && Within(t, -1, at) && Stable(le, t, at)
    requires forall x: nat :: x in at <==> x < |t| && Matches(preds, t[x])
    ensures Ranked(t, preds, order, at)
  {
    forall row ensures Admits(preds, row) == Matches(preds, row) { AdmitsIsMatches(preds, row); }
    forall i | 0 <= i < |at| ensures at[i] < |t| && Admits(preds, t[at[i]]) {
      assert at[i] in at;
    }
    forall i, j | 0 <= i < j < |at| ensures ComesBefore(order, t, at[i], at[j]) {
      assert le(t[at[i]], t[at[j]]) == Before(order, t[at[i]], t[at[j]]);
      assert le(t[at[j]], t[at[i]]) == Before(order, t[at[j]], t[at[i]]);
      StableIsOrdered(order, t, at[i], at[j]);
    }
  }

  // The rows that match are those at ranked places of the table.
  lemma MatchingIsRanked(db: Db, k: Kind, preds: seq<Pred>, order: seq<OrderTerm>) returns (at: seq<nat>)
    ensures Ranked(RowsIn(db, k), preds, order, at) && Matching(db, k, preds, order) == RowsAt(RowsIn(db, k), at)
  {
    var le := (a, b) => Before(order, a, b);
    BeforeIsTotalPreorder(order);
    at := MatchingPlaces(RowsIn(db, k), preds, le);
    StableIsRanked(RowsIn(db, k), preds, order, le, at);
  }

  lemma StableIsOrdered(order: seq<OrderTerm>, t: seq<Row>, i: nat, j: nat)
    requires i < |t| && j < |t| && Before(order, t[i], t[j]) && (Before(order, t[j], t[i]) ==> i < j)
    ensures ComesBefore(order, t, i, j)
  {
    BeforeIsLexicographic(order, t[i], t[j]);
    TiedBothWays(order, t[i], t[j]);
  }

  // The part of a list that an offset and a limit leave.
  ghost function Cut<T>(s: seq<T>, offset: nat, limit: Option<nat>): (r: seq<T>) {
    var from := if offset <= |s| then offset else |s|;
    var to := if limit.Some? && from + limit.value <= |s| then from + limit.value else |s|;
    s[from..to]
  }

  ghost function OffsetOf(b: Builder): nat {
    if b.offset.Some? && b.offset.value > 0 then b.offset.value else 0
  }

  // A limit of 0 is none, and an offset alone is sent with the largest 32-bit number.
  ghost function LimitOf(b: Builder): Option<nat> {
    if b.limit.Some? && b.limit.value > 0 then Some(b.limit.value)
    else if OffsetOf(b) > 0 then Some(2147483647)
    else None
  }

  lemma CutIsWindow<T>(s: seq<T>, offset: nat, limit: Option<nat>)
    ensures Cut(s, offset, limit) == Window(s, offset, limit)
  {
  }

  lemma CutRows(t: seq<Row>, at: seq<nat>, offset: nat, limit: Option<nat>, cut: seq<nat>)
    requires Within(t, -1, at) && cut == Cut(at, offset, limit)
    ensures Within(t, -1, cut) && Window(RowsAt(t, at), offset, limit) == RowsAt(t, cut)
  {
    CutIsWindow(RowsAt(t, at), offset, limit);
  }

  lemma FetchIsWindow(db: Db, b: Builder)
    requires Fetch(db, b).Ok?
    ensures Fetch(db, b) == Ok(Window(Matching(db, b.kind, b.preds, b.order), OffsetOf(b), LimitOf(b)))
  {
  }

  // ---------- What is read of a row ----------

  // The columns that are read: all, or else the selected ones, the id, and the keys of requested many-to-one edges.
  ghost predicate Wanted(b: Builder, requested: set<Edge>, c: Column) {
    if b.fields == [] then ValidColumn(b.kind, c)
    else
      || c == IdColumn || c in b.fields
      || exists e :: e in EdgesOf(b.kind) && e in requested && !ToMany(e) && c == ForeignKey(e)
  }

  // The columns of the migrated tables: the id, the table's own columns in order, and the foreign keys last.
  function MigratedOwn(k: Kind): seq<string> {
    match k
    case Brief => ["created_at", "updated_at"]
    case Channel =>
      ["created_at", "updated_at", "tg_id", "tg_username", "tg_name", "tg_description", "tg_picture",
       "commentary", "is_listed", "tags", "stats_updated_at", "stats", "prices", "subscribers",
       "premium_subscribers", "median_post_views", "avg_post_views", "status", "main_language", "restricted_from",
       "restricted_till", "restriction_reason", "notifications_on", "first_post_date", "total_posts"]
    case Customer =>
      ["created_at", "updated_at", "tg_id", "tg_username", "tg_firstname", "tg_lastname", "tg_language",
       "tg_picture", "tg_is_premium", "tg_is_allow_pm", "referrer_tg_id", "wallet_hd_id", "address_bounceable",
       "address_nonbounceable", "ton_balance", "ton_balance_locked", "status"]
    case CustomerBrief => ["created_at", "updated_at"]
    case CustomerChannel => ["created_at", "updated_at", "role", "permissions"]
    case Deal =>
      ["created_at", "updated_at", "type", "status", "status_updated_at", "expires_at", "target_type", "target",
       "publication_time", "top_deadline", "common_deadline", "ton_price", "balance_refunded", "channel_post_ids"]
  }

  function MigratedForeign(k: Kind): seq<Column> {
    match k
    case CustomerBrief => [BriefId, CustomerId]
    case CustomerChannel => [ChannelId, CustomerId]
    case Deal => [ChannelId, AdvertiserCustomerId, ChannelManagerId]
    case _ => []
  }

  lemma OwnAreMigrated(k: Kind)
    ensures PlainNames(k) == MigratedOwn(k)
  {
  }

  // A builder accepts exactly the columns that the migration gives its table.
  lemma AcceptedIsMigrated(k: Kind, c: Column)
    ensures ValidColumn(k, c)
      <==> c == IdColumn || c in MigratedForeign(k) || (c.Plain? && c.name in MigratedOwn(k))
  {
    OwnAreMigrated(k);
  }

  // The entity has the wanted columns of the row, with the row's values.
  ghost predicate ReadFrom(b: Builder, requested: set<Edge>, n: Entity, row: Row) {
    && n.kind == b.kind && n.loaded == requested
    && (forall c :: c in n.fields <==> Wanted(b, requested, c) && c in row)
    && (forall c | c in n.fields :: n.fields[c] == row[c])
  }

  lemma SpecColumnsAreWanted(b: Builder, requested: set<Edge>, c: Column)
    ensures c in SpecColumns(b, requested) <==> Wanted(b, requested, c)
  {
  }

  lemma DecodedIsRead(b: Builder, q: Tree, n: Entity, row: Row)
    requires SameBase(n, Decode(b.kind, row, SpecColumns(b, q.edges.Keys), q.edges.Keys))
    ensures ReadFrom(b, q.edges.Keys, n, row)
  {
    forall c ensures c in SpecColumns(b, q.edges.Keys) <==> Wanted(b, q.edges.Keys, c) {
      SpecColumnsAreWanted(b, q.edges.Keys, c);
    }
  }

  // The entities are read from the rows at these places.
  ghost predicate AllReadFrom(b: Builder, requested: set<Edge>, ns: seq<Entity>, t: seq<Row>, at: seq<nat>) {
    |ns| == |at| && forall i | 0 <= i < |ns| :: at[i] < |t| && ReadFrom(b, requested, ns[i], t[at[i]])
  }

  // The answer to a query: the rows of its table that it admits, in its order, cut by offset and limit.
  ghost predicate IsAnswer(db: Db, b: Builder, requested: set<Edge>, ns: seq<Entity>) {
    exists at :: Ranked(RowsIn(db, b.kind), b.preds, b.order, at)
                 && AllReadFrom(b, requested, ns, RowsIn(db, b.kind), Cut(at, OffsetOf(b), LimitOf(b)))
  }

  lemma RowsAreRead(b: Builder, q: Tree, ns: seq<Entity>, t: seq<Row>, cut: seq<nat>)
    requires (forall i | 0 <= i < |cut| :: cut[i] < |t|) && SameBases(ns, Decoded(b, q, RowsAt(t, cut)))
    ensures AllReadFrom(b, q.edges.Keys, ns, t, cut)
  {
    forall i | 0 <= i < |ns| ensures cut[i] < |t| && ReadFrom(b, q.edges.Keys, ns[i], t[cut[i]]) {
      assert SameBase(ns[i], Decoded(b, q, RowsAt(t, cut))[i]);
      DecodedIsRead(b, q, ns[i], t[cut[i]]);
    }
  }

  lemma RunFetches(db: Db, b: Builder, q: Tree)
    requires Run(db, b, q).nodes.Ok?
    ensures Fetch(db, b).Ok?
  {
  }

  lemma RunReads(db: Db, b: Builder, q: Tree, cut: seq<nat>, ns: seq<Entity>)
    requires Run(db, b, q).nodes == Ok(ns) && Within(RowsIn(db, b.kind), -1, cut)
    requires Fetch(db, b) == Ok(RowsAt(RowsIn(db, b.kind), cut))
    ensures AllReadFrom(b, q.edges.Keys, ns, RowsIn(db, b.kind), cut)
  {
    RunKeepsRows(db, b, q, RowsAt(RowsIn(db, b.kind), cut));
    RowsAreRead(b, q, ns, RowsIn(db, b.kind), cut);
  }

  lemma RunReadsAt(db: Db, b: Builder, q: Tree, ns: seq<Entity>, at: seq<nat>, cut: seq<nat>)
    requires Run(db, b, q).nodes == Ok(ns) && Within(RowsIn(db, b.kind), -1, at)
    requires cut == Cut(at, OffsetOf(b), LimitOf(b))
    requires Matching(db, b.kind, b.preds, b.order) == RowsAt(RowsIn(db, b.kind), at)
    ensures AllReadFrom(b, q.edges.Keys, ns, RowsIn(db, b.kind), cut)
  {
    RunFetches(db, b, q);
    FetchIsWindow(db, b);
    CutRows(RowsIn(db, b.kind), at, OffsetOf(b), LimitOf(b), cut);
    RunReads(db, b, q, cut, ns);
  }

  lemma AnswersAt(db: Db, b: Builder, requested: set<Edge>, ns: seq<Entity>, at: seq<nat>)
    requires Ranked(RowsIn(db, b.kind), b.preds, b.order, at)
    requires AllReadFrom(b, requested, ns, RowsIn(db, b.kind), Cut(at, OffsetOf(b), LimitOf(b)))
    ensures IsAnswer(db, b, requested, ns)
  {
  }

  // A run that succeeds answers its query.
  lemma RunAnswers(db: Db, b: Builder, q: Tree, ns: seq<Entity>)
    requires Run(db, b, q).nodes == Ok(ns)
    ensures IsAnswer(db, b, q.edges.Keys, ns)
  {
    var at := MatchingIsRanked(db, b.kind, b.preds, b.order);
    RunReadsAt(db, b, q, ns, at, Cut(at, OffsetOf(b), LimitOf(b)));
    AnswersAt(db, b, q.edges.Keys, ns, at);
  }

  // The database is not asked for an invalid column, and refuses a negative offset or limit; otherwise a query
  // whose children cannot fail succeeds.
  lemma RunRefuses(db: Db, b: Builder, q: Tree)
    ensures var r := Run(db, b, q).nodes;
      && ((exists c :: c in b.fields && !ValidColumn(b.kind, c)) ==> r.Err? && r.error.InvalidField?)
      && ((forall c | c in b.fields :: ValidColumn(b.kind, c)) ==>
            && ((b.offset.Some? && b.offset.value < 0) || (b.limit.Some? && b.limit.value < 0) ==> r == Err(BadRange))
            && (!(b.offset.Some? && b.offset.value < 0) && !(b.limit.Some? && b.limit.value < 0) ==>
                  q.edges == map[] ==> r.Ok?))
  {
    if InvalidFieldIn(b.kind, b.fields).None? && Fetch(db, b).Ok? && q.edges == map[] {
      NoEdgesLoad(db, q, EdgesOf(b.kind), Decoded(b, q, Fetch(db, b).value));
    }
  }

  lemma {:induction false} NoEdgesLoad(db: Db, q: Tree, es: seq<Edge>, nodes: seq<Entity>)
    requires q.edges == map[]
    ensures RunEdges(db, q, es, nodes, q.edges).nodes == Ok(nodes)
    decreases |es|
  {
    if es != [] { NoEdgesLoad(db, q, es[1..], nodes); }
  }

  // ---------- Order and number ----------

  // The value of an ascending term does not fall from a to b, and that of a descending one does not rise.
  ghost predicate KeepsOrder(term: OrderTerm, a: Row, b: Row) {
    match term
    case Asc(c) => ValueOf(a, c) <= ValueOf(b, c)
    case Desc(c) => ValueOf(a, c) >= ValueOf(b, c)
  }

  lemma FirstTermOrders(t: seq<Row>, preds: seq<Pred>, terms: seq<OrderTerm>, at: seq<nat>, i: nat, j: nat)
    requires Ranked(t, preds, terms, at) && terms != [] && i < j < |at|
    ensures KeepsOrder(terms[0], t[at[i]], t[at[j]])
  {
    assert ComesBefore(terms, t, at[i], at[j]);
    if k :| 0 <= k < |terms| && LeadsBy(terms, k, t[at[i]], t[at[j]]) {
      assert k > 0 ==> ValueOf(t[at[i]], terms[0].column) == ValueOf(t[at[j]], terms[0].column);
    } else {
      assert ValueOf(t[at[i]], terms[0].column) == ValueOf(t[at[j]], terms[0].column);
    }
  }

  // Along all these rows.
  ghost predicate InOrder(term: OrderTerm, t: seq<Row>, at: seq<nat>) {
    forall i, j | 0 <= i < j < |at| && at[i] < |t| && at[j] < |t| :: KeepsOrder(term, t[at[i]], t[at[j]])
  }

  lemma CutAt<T>(s: seq<T>, from: nat, limit: Option<nat>, cut: seq<T>, i: nat)
    requires cut == Cut(s, from, limit) && i < |cut|
    ensures from + i < |s| && cut[i] == s[from + i]
  {
  }

  lemma RankedIsInOrder(t: seq<Row>, preds: seq<Pred>, terms: seq<OrderTerm>, at: seq<nat>)
    requires Ranked(t, preds, terms, at) && terms != []
    ensures InOrder(terms[0], t, at)
  {
    forall i, j | 0 <= i < j < |at| && at[i] < |t| && at[j] < |t|
      ensures KeepsOrder(terms[0], t[at[i]], t[at[j]])
    {
      FirstTermOrders(t, preds, terms, at, i, j);
    }
  }

  lemma CutIsInOrder(term: OrderTerm, t: seq<Row>, at: seq<nat>, from: nat, limit: Option<nat>, cut: seq<nat>)
    requires InOrder(term, t, at) && cut == Cut(at, from, limit)
    ensures InOrder(term, t, cut)
  {
    forall i, j | 0 <= i < j < |cut| && cut[i] < |t| && cut[j] < |t| ensures KeepsOrder(term, t[cut[i]], t[cut[j]]) {
      CutAt(at, from, limit, cut, i);
      CutAt(at, from, limit, cut, j);
    }
  }

  // The entities of a run are read from rows along which the first order term never turns back.
  lemma RunIsInOrder(db: Db, b: Builder, q: Tree, ns: seq<Entity>) returns (places: seq<nat>)
    requires Run(db, b, q).nodes == Ok(ns) && b.order != []
    ensures AllReadFrom(b, q.edges.Keys, ns, RowsIn(db, b.kind), places)
    ensures InOrder(b.order[0], RowsIn(db, b.kind), places)
  {
    RunAnswers(db, b, q, ns);
    var at :| Ranked(RowsIn(db, b.kind), b.preds, b.order, at)
              && AllReadFrom(b, q.edges.Keys, ns, RowsIn(db, b.kind), Cut(at, OffsetOf(b), LimitOf(b)));
    places := Cut(at, OffsetOf(b), LimitOf(b));
    RankedIsInOrder(RowsIn(db, b.kind), b.preds, b.order, at);
    CutIsInOrder(b.order[0], RowsIn(db, b.kind), at, OffsetOf(b), LimitOf(b), places);
  }

  // No place is listed twice.
  lemma RankedOnce(t: seq<Row>, preds: seq<Pred>, terms: seq<OrderTerm>, at: seq<nat>, i: nat, j: nat)
    requires Ranked(t, preds, terms, at) && i < j < |at|
    ensures at[i] != at[j]
  {
    assert ComesBefore(terms, t, at[i], at[j]);
  }

  // The places of the admitted rows.
  ghost function Admitted(db: Db, b: Builder): set<nat> {
    set p: nat | p < |RowsIn(db, b.kind)| && Admits(b.preds, RowsIn(db, b.kind)[p])
  }

  lemma {:induction false} DistinctCount(at: seq<nat>, ps: set<nat>)
    requires (forall p :: p in ps <==> p in at) && forall i, j | 0 <= i < j < |at| :: at[i] != at[j]
    ensures |at| == |ps|
  {
    if at != [] {
      var rest := at[1..];
      assert forall p :: p in at <==> p == at[0] || p in rest;
      assert forall i | 0 <= i < |rest| :: rest[i] == at[i + 1];
      DistinctCount(rest, ps - {at[0]});
    }
  }

  lemma RankedCount(db: Db, b: Builder, at: seq<nat>)
    requires Ranked(RowsIn(db, b.kind), b.preds, b.order, at)
    ensures |at| == |Admitted(db, b)|
  {
    forall i, j | 0 <= i < j < |at| ensures at[i] != at[j] {
      RankedOnce(RowsIn(db, b.kind), b.preds, b.order, at, i, j);
    }
    forall p ensures p in Admitted(db, b) <==> p in at {
      if p in at { var i :| 0 <= i < |at| && at[i] == p; }
    }
    DistinctCount(at, Admitted(db, b));
  }

  lemma MatchingCount(db: Db, b: Builder)
    ensures |Matching(db, b.kind, b.preds, b.order)| == |Admitted(db, b)|
  {
    var at := MatchingIsRanked(db, b.kind, b.preds, b.order);
    RankedCount(db, b, at);
  }

  // Without limit and offset every admitted row is returned, and once.
  lemma EveryRowOnce(db: Db, b: Builder, q: Tree, ns: seq<Entity>) returns (at: seq<nat>)
    requires Run(db, b, q).nodes == Ok(ns) && OffsetOf(b) == 0 && LimitOf(b) == None
    ensures AllReadFrom(b, q.edges.Keys, ns, RowsIn(db, b.kind), at) && |ns| == |Admitted(db, b)|
    ensures forall p: nat | p in Admitted(db, b) ::
      exists i :: 0 <= i < |at| && at[i] == p && forall j | 0 <= j < |at| && j != i :: at[j] != p
  {
    RunAnswers(db, b, q, ns);
    at :| Ranked(RowsIn(db, b.kind), b.preds, b.order, at)
          && AllReadFrom(b, q.edges.Keys, ns, RowsIn(db, b.kind), Cut(at, OffsetOf(b), LimitOf(b)));
    assert Cut(at, 0, None) == at;
    RankedCount(db, b, at);
    forall p: nat | p in Admitted(db, b)
      ensures exists i :: 0 <= i < |at| && at[i] == p && forall j | 0 <= j < |at| && j != i :: at[j] != p
    {
      PlaceIsOnce(db, b, at, p);
    }
  }

  lemma PlaceIsOnce(db: Db, b: Builder, at: seq<nat>, p: nat)
    requires Ranked(RowsIn(db, b.kind), b.preds, b.order, at) && p in Admitted(db, b)
    ensures exists i :: 0 <= i < |at| && at[i] == p && forall j | 0 <= j < |at| && j != i :: at[j] != p
  {
    var i :| 0 <= i < |at| && at[i] == p;
    forall j | 0 <= j < |at| && j != i ensures at[j] != p {
      RankedOnce(RowsIn(db, b.kind), b.preds, b.order, at, if i < j then i else j, if i < j then j else i);
    }
  }

  // ---------- First, Only, IDs, Exist and Count ----------

  lemma CountAnswers(db: Db, b: Builder)
    requires b.fields == [] && OffsetOf(b) == 0 && CountOf(db, b).Ok?
    ensures CountOf(db, b) == Ok(|Admitted(db, b)|)
  {
    CountIgnoresLimit(db, b);
    MatchingCount(db, b);
  }

  lemma CutLength<T>(s: seq<T>, offset: nat, limit: Option<nat>)
    ensures var left := if offset <= |s| then |s| - offset else 0;
      |Cut(s, offset, limit)| == if limit.Some? && limit.value < left then limit.value else left
  {
  }

  lemma CutCount(db: Db, b: Builder, at: seq<nat>)
    requires Ranked(RowsIn(db, b.kind), b.preds, b.order, at) && b.limit.Some? && b.limit.value > 0
    ensures var left := |Admitted(db, b)| - OffsetOf(b);
      |Cut(at, OffsetOf(b), LimitOf(b))| == if b.limit.value < left then b.limit.value else if left < 0 then 0 else left
  {
    RankedCount(db, b, at);
    CutLength(at, OffsetOf(b), LimitOf(b));
  }

  lemma AnswerCount(db: Db, b: Builder, requested: set<Edge>, ns: seq<Entity>)
    requires IsAnswer(db, b, requested, ns) && b.limit.Some? && b.limit.value > 0
    ensures var left := |Admitted(db, b)| - OffsetOf(b);
      |ns| == if b.limit.value < left then b.limit.value else if left < 0 then 0 else left
  {
    var at :| Ranked(RowsIn(db, b.kind), b.preds, b.order, at)
      && AllReadFrom(b, requested, ns, RowsIn(db, b.kind), Cut(at, OffsetOf(b), LimitOf(b)));
    CutCount(db, b, at);
  }

  lemma RunCount(db: Db, b: Builder, q: Tree, ns: seq<Entity>)
    requires Run(db, b, q).nodes == Ok(ns) && b.limit.Some? && b.limit.value > 0
    ensures IsAnswer(db, b, q.edges.Keys, ns)
    ensures var left := |Admitted(db, b)| - OffsetOf(b);
      |ns| == if b.limit.value < left then b.limit.value else if left < 0 then 0 else left
  {
    RunAnswers(db, b, q, ns);
    AnswerCount(db, b, q.edges.Keys, ns);
  }

  lemma FirstByCount(ns: seq<Entity>)
    requires |ns| <= 1
    ensures var r := FirstOf(Ok(ns));
      (r.Ok? <==> |ns| == 1) && (r.Err? ==> r == Err(NotFound)) && (r.Ok? ==> ns == [r.value])
  {
  }

  // First returns the first admitted row after the offset, or not-found exactly when there is none.
  lemma FirstAnswers(db: Db, b: Builder, q: Tree, one: Builder, ns: seq<Entity>)
    requires one == b.(limit := Some(1)) && Run(db, one, q).nodes == Ok(ns)
    ensures var r := FirstOf(Run(db, one, q).nodes);
      && (r.Ok? <==> |Admitted(db, b)| > OffsetOf(b)) && (r.Err? ==> r == Err(NotFound))
      && (r.Ok? ==> IsAnswer(db, one, q.edges.Keys, [r.value]))
  {
    RunCount(db, one, q, ns);
    assert Admitted(db, one) == Admitted(db, b);
    FirstByCount(ns);
  }

  lemma OnlyByCount(ns: seq<Entity>)
    ensures var r := OnlyOf(Ok(ns));
      && (r.Ok? <==> |ns| == 1) && (r == Err(NotFound) <==> |ns| == 0) && (r == Err(NotSingular) <==> |ns| >= 2)
      && (r.Ok? ==> ns == [r.value])
  {
  }

  // Only returns the one admitted row after the offset, and says so when there is none or there are several.
  lemma OnlyAnswers(db: Db, b: Builder, q: Tree, two: Builder, ns: seq<Entity>)
    requires two == b.(limit := Some(2)) && Run(db, two, q).nodes == Ok(ns)
    ensures var r := OnlyOf(Run(db, two, q).nodes);
      && (r.Ok? <==> |Admitted(db, b)| == OffsetOf(b) + 1)
      && (r == Err(NotFound) <==> |Admitted(db, b)| <= OffsetOf(b))
      && (r == Err(NotSingular) <==> |Admitted(db, b)| >= OffsetOf(b) + 2)
      && (r.Ok? ==> IsAnswer(db, two, q.edges.Keys, [r.value]))
  {
    RunCount(db, two, q, ns);
    assert Admitted(db, two) == Admitted(db, b);
    OnlyByCount(ns);
  }

  // Exist says whether there is an admitted row after the offset.
  lemma ExistAnswers(db: Db, b: Builder)
    requires ExistOf(FirstOf(ScanIds(db, AfterFirstId(b)))).Ok?
    ensures ExistOf(FirstOf(ScanIds(db, AfterFirstId(b)))) == Ok(|Admitted(db, b)| > OffsetOf(b))
  {
    ExistDecidesEmptiness(db, b);
    MatchingCount(db, b);
  }

  // The ids path sends a limit of 0 as it is.
  ghost function IdLimitOf(b: Builder): Option<nat> {
    if b.limit.Some? && b.limit.value >= 0 then Some(b.limit.value)
    else if b.offset.Some? then Some(2147483647)
    else None
  }

  ghost predicate IdsRead(ids: seq<Id>, t: seq<Row>, at: seq<nat>) {
    && |ids| == |at|
    && forall i | 0 <= i < |ids| :: at[i] < |t| && IdColumn in t[at[i]] && t[at[i]][IdColumn] == Key(ids[i])
  }

  // The ids of the admitted rows, in order, cut by offset and limit.
  ghost predicate AnswersIds(db: Db, b: Builder, ids: seq<Id>) {
    exists at :: Ranked(RowsIn(db, b.kind), b.preds, b.order, at)
                 && IdsRead(ids, RowsIn(db, b.kind), Cut(at, OffsetOf(b), IdLimitOf(b)))
  }

  lemma ScannedIds(db: Db, b: Builder, at: seq<nat>, cut: seq<nat>)
    requires ScanIds(db, b).Ok? && Within(RowsIn(db, b.kind), -1, at) && cut == Cut(at, OffsetOf(b), IdLimitOf(b))
    requires Matching(db, b.kind, b.preds, b.order) == RowsAt(RowsIn(db, b.kind), at)
    ensures Within(RowsIn(db, b.kind), -1, cut)
    ensures ScanIds(db, b) == Ok(Map(row => KeyOf(row, IdColumn), RowsAt(RowsIn(db, b.kind), cut)))
  {
    CutRows(RowsIn(db, b.kind), at, OffsetOf(b), IdLimitOf(b), cut);
  }

  lemma KeysAreIds(db: Db, k: Kind, at: seq<nat>)
    requires WellFormed(db) && forall i | 0 <= i < |at| :: at[i] < |RowsIn(db, k)|
    ensures IdsRead(Map(row => KeyOf(row, IdColumn), RowsAt(RowsIn(db, k), at)), RowsIn(db, k), at)
  {
    forall i | 0 <= i < |at|
      ensures var row := RowsIn(db, k)[at[i]]; IdColumn in row && row[IdColumn] == Key(KeyOf(row, IdColumn))
    {
      RowHasId(db, k, RowsIn(db, k)[at[i]]);
    }
  }

  lemma IdsAnswer(db: Db, b: Builder)
    requires WellFormed(db) && ScanIds(db, b).Ok?
    ensures AnswersIds(db, b, ScanIds(db, b).value)
  {
    var at := MatchingIsRanked(db, b.kind, b.preds, b.order);
    ScannedIds(db, b, at, Cut(at, OffsetOf(b), IdLimitOf(b)));
    KeysAreIds(db, b.kind, Cut(at, OffsetOf(b), IdLimitOf(b)));
  }

  lemma RowHasId(db: Db, k: Kind, row: Row)
    requires WellFormed(db) && row in RowsIn(db, k)
    ensures IdColumn in row && row[IdColumn] == Key(KeyOf(row, IdColumn))
  {
    assert IdColumn in KeyColumns(k);
  }
}
