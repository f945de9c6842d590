/**
 When a child's limit and offset, which all rows share, act on each row's neighbours alone: the condition in
 closed form for every limit and offset, and the case in which they cut nothing off.
 */
module ChildLimits {
  import opened Wrappers
  import opened Lists
  import opened Store
  import opened EagerLoad
  import opened NestedJoin
  import opened EdgeLaws
  import opened SharedWindow

  // ---------- Windows and keys ----------

  // A window on the rows of each key is the rows with that key in the window on all rows.
  ghost predicate SharedFairly(c: Column, s: seq<Row>, offset: nat, limit: Option<nat>) {
    forall key: Id :: Window(WithKey(c, key, s), offset, limit) == WithKey(c, key, Window(s, offset, limit))
  }

  ghost predicate AllWithKey(c: Column, key: Id, s: seq<Row>) {
    forall row | row in s :: KeyOf(row, c) == key
  }

  ghost predicate OneKey(c: Column, s: seq<Row>) {
    forall i, j | 0 <= i < |s| && 0 <= j < |s| :: KeyOf(s[i], c) == KeyOf(s[j], c)
  }

  lemma WithKeyOfAll(c: Column, key: Id, s: seq<Row>)
    requires AllWithKey(c, key, s)
    ensures WithKey(c, key, s) == s
    ensures forall other | other != key :: WithKey(c, other, s) == []
  {
    FilterAll(row => KeyOf(row, c) == key, s);
    forall other | other != key ensures WithKey(c, other, s) == [] {
      FilterNone(row => KeyOf(row, c) == other, s);
    }
  }

  // No more rows have the key than there are, and as many only if all of them have it.
  lemma {:induction false} WithKeyCount(c: Column, key: Id, s: seq<Row>)
    ensures |WithKey(c, key, s)| <= |s|
    ensures |WithKey(c, key, s)| == |s| ==> AllWithKey(c, key, s)
  {
    if s != [] { WithKeyCount(c, key, s[1..]); }
  }

  lemma WithKeySplit(c: Column, key: Id, s: seq<Row>, n: nat)
    requires n <= |s|
    ensures WithKey(c, key, s) == WithKey(c, key, s[..n]) + WithKey(c, key, s[n..])
  {
    assert s == s[..n] + s[n..];
    FilterConcat(row => KeyOf(row, c) == key, s[..n], s[n..]);
  }

  lemma WithKeyHas(c: Column, s: seq<Row>, row: Row)
    requires row in s
    ensures row in WithKey(c, KeyOf(row, c), s)
  {
    FilterKeeps(r => KeyOf(r, c) == KeyOf(row, c), s, row);
  }

  lemma OneKeyIsShared(c: Column, s: seq<Row>, offset: nat, limit: Option<nat>)
    requires OneKey(c, s)
    ensures SharedFairly(c, s, offset, limit)
  {
    if s != [] {
      var key := KeyOf(s[0], c);
      WithKeyOfAll(c, key, s);
      WithKeyOfAll(c, key, Window(s, offset, limit));
    }
  }

  lemma WindowIsWhole<T>(s: seq<T>, offset: nat, limit: Option<nat>)
    ensures Window(s, offset, limit) == s <==> s == [] || (offset == 0 && (limit.Some? ==> |s| <= limit.value))
  {
  }

  lemma WholeIsShared(c: Column, s: seq<Row>, limit: Option<nat>)
    requires limit.Some? ==> |s| <= limit.value
    ensures SharedFairly(c, s, 0, limit)
  {
    forall key: Id ensures Window(WithKey(c, key, s), 0, limit) == WithKey(c, key, Window(s, 0, limit)) {
      WithKeyCount(c, key, s);
      WindowIsWhole(s, 0, limit);
      WindowIsWhole(WithKey(c, key, s), 0, limit);
    }
  }

  // A key of which a row is cut off must be that of all rows before it.
  lemma CutOffKeyIsFirst(c: Column, s: seq<Row>, n: nat)
    requires 0 < n < |s| && SharedFairly(c, s, 0, Some(n))
    ensures AllWithKey(c, KeyOf(s[n], c), s[..n])
  {
    var key := KeyOf(s[n], c);
    assert Window(s, 0, Some(n)) == s[..n];
    assert Window(WithKey(c, key, s), 0, Some(n)) == WithKey(c, key, s[..n]);
    WithKeySplit(c, key, s, n);
    WithKeyHas(c, s[n..], s[n]);
    WithKeyCount(c, key, s[..n]);
  }

  lemma OtherKeyIsAbsent(c: Column, s: seq<Row>, n: nat, i: nat)
    requires 0 < n < |s| && SharedFairly(c, s, 0, Some(n)) && i < |s|
    ensures KeyOf(s[i], c) == KeyOf(s[n], c)
  {
    var other := KeyOf(s[i], c);
    CutOffKeyIsFirst(c, s, n);
    WithKeyHas(c, s, s[i]);
    assert Window(s, 0, Some(n)) == s[..n];
    assert Window(WithKey(c, other, s), 0, Some(n)) == WithKey(c, other, s[..n]);
    assert WithKey(c, other, s[..n])[0] in WithKey(c, other, s[..n]);
  }

  // Without offset, a limit acts on every key alone exactly when it cuts nothing off or all rows share one key.
  lemma LimitSharedExactly(c: Column, s: seq<Row>, n: nat)
    requires n > 0
    ensures SharedFairly(c, s, 0, Some(n)) <==> |s| <= n || OneKey(c, s)
  {
    if |s| <= n {
      WholeIsShared(c, s, Some(n));
    } else if OneKey(c, s) {
      OneKeyIsShared(c, s, 0, Some(n));
    } else if SharedFairly(c, s, 0, Some(n)) {
      forall i | 0 <= i < |s| ensures KeyOf(s[i], c) == KeyOf(s[n], c) {
        OtherKeyIsAbsent(c, s, n, i);
      }
    }
  }

  // ---------- With an offset ----------

  // Where the window ends.
  function EndOf<T>(s: seq<T>, offset: nat, limit: Option<nat>): (end: nat)
    ensures end <= |s|
  {
    if limit.Some? && offset + limit.value <= |s| then offset + limit.value else |s|
  }

  lemma WindowIsRange<T>(s: seq<T>, offset: nat, limit: Option<nat>)
    ensures Window(s, offset, limit) == if offset <= EndOf(s, offset, limit) then s[offset..EndOf(s, offset, limit)] else []
  {
  }

  // All rows up to the end of the window share a key, and no other key has rows beyond the offset.
  ghost predicate OneKeyReachesIn(c: Column, s: seq<Row>, offset: nat, limit: Option<nat>)
    requires offset < |s|
  {
    && AllWithKey(c, KeyOf(s[offset], c), s[..EndOf(s, offset, limit)])
    && forall key: Id | key != KeyOf(s[offset], c) :: |WithKey(c, key, s)| <= offset
  }

  lemma FirstKeyIsShared(c: Column, s: seq<Row>, offset: nat, limit: Option<nat>, key: Id)
    requires offset < |s| && AllWithKey(c, key, s[..EndOf(s, offset, limit)])
    ensures Window(WithKey(c, key, s), offset, limit) == WithKey(c, key, Window(s, offset, limit))
  {
    var end := EndOf(s, offset, limit);
    WindowIsRange(s, offset, limit);
    assert forall row | row in Window(s, offset, limit) :: row in s[..end];
    WithKeyOfAll(c, key, Window(s, offset, limit));
    WithKeyOfAll(c, key, s[..end]);
    WithKeySplit(c, key, s, end);
    WindowIsRange(WithKey(c, key, s), offset, limit);
    if end == |s| { assert s[end..] == []; }
  }

  lemma OtherKeyIsShared(c: Column, s: seq<Row>, offset: nat, limit: Option<nat>, key: Id)
    requires offset < |s| && AllWithKey(c, KeyOf(s[offset], c), s[..EndOf(s, offset, limit)])
    requires key != KeyOf(s[offset], c) && |WithKey(c, key, s)| <= offset
    ensures Window(WithKey(c, key, s), offset, limit) == WithKey(c, key, Window(s, offset, limit))
  {
    WindowIsRange(s, offset, limit);
    assert forall row | row in Window(s, offset, limit) :: row in s[..EndOf(s, offset, limit)];
    WithKeyOfAll(c, KeyOf(s[offset], c), Window(s, offset, limit));
  }

  lemma OneKeyReachesInIsShared(c: Column, s: seq<Row>, offset: nat, limit: Option<nat>)
    requires offset < |s| && OneKeyReachesIn(c, s, offset, limit)
    ensures SharedFairly(c, s, offset, limit)
  {
    forall key: Id ensures Window(WithKey(c, key, s), offset, limit) == WithKey(c, key, Window(s, offset, limit)) {
      if key == KeyOf(s[offset], c) {
        FirstKeyIsShared(c, s, offset, limit, key);
      } else {
        OtherKeyIsShared(c, s, offset, limit, key);
      }
    }
  }

  // The first row of the window is the first of its key there, so as many rows of its key come before it.
  lemma RowsBeforeHaveKey(c: Column, s: seq<Row>, offset: nat, limit: Option<nat>)
    requires DistinctBy((row: Row) => KeyOf(row, IdColumn), s) && offset < |s| && (limit.Some? ==> limit.value > 0)
    requires SharedFairly(c, s, offset, limit)
    ensures AllWithKey(c, KeyOf(s[offset], c), s[..offset])
  {
    var key := KeyOf(s[offset], c);
    var found, w := WithKey(c, key, s), Window(s, offset, limit);
    WindowIsRange(s, offset, limit);
    assert Window(found, offset, limit) == WithKey(c, key, w);
    FirstWithKey(c, w, key);
    WindowIsRange(found, offset, limit);
    assert found[offset] == s[offset];
    WithKeySplit(c, key, s, offset);
    FirstWithKey(c, s[offset..], key);
    FilterDistinct((row: Row) => KeyOf(row, IdColumn), row => KeyOf(row, c) == key, s);
    SameKeySamePlace((row: Row) => KeyOf(row, IdColumn), found, offset, |WithKey(c, key, s[..offset])|);
    WithKeyCount(c, key, s[..offset]);
  }

  lemma FirstWithKey(c: Column, s: seq<Row>, key: Id)
    requires s != [] && KeyOf(s[0], c) == key
    ensures WithKey(c, key, s) != [] && WithKey(c, key, s)[0] == s[0]
  {
  }

  // The rows of any other key that the window shows are the first of that key, so none is beyond the offset.
  lemma OtherKeyIsBefore(c: Column, s: seq<Row>, offset: nat, limit: Option<nat>, key: Id)
    requires DistinctBy((row: Row) => KeyOf(row, IdColumn), s) && offset < |s| && (limit.Some? ==> limit.value > 0)
    requires SharedFairly(c, s, offset, limit) && key != KeyOf(s[offset], c)
    ensures |WithKey(c, key, s)| > offset ==> offset == 0
  {
    var found, w, end := WithKey(c, key, s), Window(s, offset, limit), EndOf(s, offset, limit);
    RowsBeforeHaveKey(c, s, offset, limit);
    WithKeyOfAll(c, KeyOf(s[offset], c), s[..offset]);
    WindowIsRange(s, offset, limit);
    assert Window(found, offset, limit) == WithKey(c, key, w);
    if |found| > offset {
      WindowIsRange(found, offset, limit);
      WithKeySplit(c, key, s, offset);
      WithKeySplit(c, key, s[offset..], |w|);
      assert s[offset..][..|w|] == w;
      assert found[0] == WithKey(c, key, w)[0] == found[offset];
      FilterDistinct((row: Row) => KeyOf(row, IdColumn), row => KeyOf(row, c) == key, s);
      SameKeySamePlace((row: Row) => KeyOf(row, IdColumn), found, 0, offset);
    }
  }

  lemma WindowHasFirstKey(c: Column, s: seq<Row>, offset: nat, limit: Option<nat>, row: Row)
    requires DistinctBy((row: Row) => KeyOf(row, IdColumn), s) && 0 < offset < |s| && (limit.Some? ==> limit.value > 0)
    requires SharedFairly(c, s, offset, limit) && row in Window(s, offset, limit)
    ensures KeyOf(row, c) == KeyOf(s[offset], c)
  {
    var key := KeyOf(row, c);
    WithKeyHas(c, Window(s, offset, limit), row);
    assert Window(WithKey(c, key, s), offset, limit) == WithKey(c, key, Window(s, offset, limit));
    if key != KeyOf(s[offset], c) { OtherKeyIsBefore(c, s, offset, limit, key); }
  }

  lemma SharedReachesIn(c: Column, s: seq<Row>, offset: nat, limit: Option<nat>)
    requires DistinctBy((row: Row) => KeyOf(row, IdColumn), s) && 0 < offset < |s| && (limit.Some? ==> limit.value > 0)
    requires SharedFairly(c, s, offset, limit)
    ensures OneKeyReachesIn(c, s, offset, limit)
  {
    var first, w := KeyOf(s[offset], c), Window(s, offset, limit);
    RowsBeforeHaveKey(c, s, offset, limit);
    forall key: Id | key != first ensures |WithKey(c, key, s)| <= offset {
      OtherKeyIsBefore(c, s, offset, limit, key);
    }
    forall row | row in w ensures KeyOf(row, c) == first { WindowHasFirstKey(c, s, offset, limit, row); }
    WindowIsRange(s, offset, limit);
    assert s[..EndOf(s, offset, limit)] == s[..offset] + w;
  }

  // For distinct rows and any offset and limit: a window acts on every key alone exactly when the offset skips
  // everything, when there is none and the limit cuts nothing off, or when the rows up to the window's end share a
  // key and no other key has rows beyond the offset.
  lemma WindowSharedExactly(c: Column, s: seq<Row>, offset: nat, limit: Option<nat>)
    requires DistinctBy((row: Row) => KeyOf(row, IdColumn), s) && (limit.Some? ==> limit.value > 0)
    ensures SharedFairly(c, s, offset, limit) <==>
      || |s| <= offset
      || (offset == 0 && (limit.Some? ==> |s| <= limit.value))
      || OneKeyReachesIn(c, s, offset, limit)
  {
    if |s| <= offset {
      forall key: Id { WithKeyCount(c, key, s); }
    } else if OneKeyReachesIn(c, s, offset, limit) {
      OneKeyReachesInIsShared(c, s, offset, limit);
    } else if offset > 0 {
      if SharedFairly(c, s, offset, limit) { SharedReachesIn(c, s, offset, limit); }
    } else if limit.Some? && limit.value < |s| {
      LimitSharedExactly(c, s, limit.value);
      if OneKey(c, s) { OneKeyReachesAll(c, s, limit); }
    } else {
      WholeIsShared(c, s, limit);
    }
  }

  lemma OneKeyReachesAll(c: Column, s: seq<Row>, limit: Option<nat>)
    requires s != [] && OneKey(c, s)
    ensures OneKeyReachesIn(c, s, 0, limit)
  {
    WithKeyOfAll(c, KeyOf(s[0], c), s);
  }

  // ---------- One edge ----------

  // All rows that are asked for along e, whatever the child's limit and offset.
  function Batch(db: Db, e: Edge, child: Builder, rows: seq<Row>): seq<Row> {
    AllFor(db, e, child, BatchKeysOf(e, rows))
  }

  lemma AllForFacts(db: Db, e: Edge, child: Builder, keys: seq<Id>)
    requires WellFormed(db) && child.kind == Target(e)
    ensures RowsOf(db, child.kind, AllFor(db, e, child, keys))
    ensures forall row | row in AllFor(db, e, child, keys) :: KeyOf(row, JoinColumn(e)) in keys
  {
    var p := In(JoinColumn(e), keys);
    MatchingRows(db, child.kind, child.preds + [p], child.order);
    forall row | row in AllFor(db, e, child, keys) ensures KeyOf(row, JoinColumn(e)) in keys {
      MatchesOneMore(child.preds, p, row);
    }
  }

  // The query for many keys, filtered by one of them, is the query for that key.
  lemma BatchHoldsLookup(db: Db, e: Edge, child: Builder, keys: seq<Id>, key: Id)
    requires WellFormed(db) && child.kind == Target(e) && key in keys
    ensures WithKey(JoinColumn(e), key, AllFor(db, e, child, keys)) == AllFor(db, e, child, [key])
  {
    var c := JoinColumn(e);
    var batch, single := child.preds + [In(c, keys)], child.preds + [In(c, [key])];
    var p := (row: Row) => KeyOf(row, c) == key;
    forall row | row in TableOf(db, child.kind) ensures Matches(single, row) == (Matches(batch, row) && p(row)) {
      JoinKeyIsKey(e);
      assert WellFormedRow(child.kind, row);
      MatchesOneMore(child.preds, In(c, keys), row);
      MatchesOneMore(child.preds, In(c, [key]), row);
    }
    FilterMatching(db, child.kind, batch, child.order, p, single);
  }

  lemma RowsForIsWindow(db: Db, e: Edge, child: Builder, keys: seq<Id>)
    requires Accepted(child)
    ensures RowsFor(db, e, child, keys) == Window(AllFor(db, e, child, keys), GetOr(child.offset, 0), SpecLimit(child))
  {
  }

  lemma RowSendsKey(e: Edge, rows: seq<Row>, i: nat)
    requires i < |rows|
    ensures RowKey(e, rows[i]) in BatchKeysOf(e, rows)
  {
    assert Map(row => RowKey(e, row), rows)[i] == RowKey(e, rows[i]);
  }

  // A key that no row sends finds nothing.
  lemma UnsentKeyFindsNone(db: Db, e: Edge, child: Builder, keys: seq<Id>, key: Id)
    requires WellFormed(db) && child.kind == Target(e) && key !in keys && Accepted(child)
    ensures var s := AllFor(db, e, child, keys);
      Window(WithKey(JoinColumn(e), key, s), GetOr(child.offset, 0), SpecLimit(child))
        == WithKey(JoinColumn(e), key, Window(s, GetOr(child.offset, 0), SpecLimit(child)))
  {
    var s := AllFor(db, e, child, keys);
    AllForFacts(db, e, child, keys);
    FilterNone(row => KeyOf(row, JoinColumn(e)) == key, s);
    FilterNone(row => KeyOf(row, JoinColumn(e)) == key, Window(s, GetOr(child.offset, 0), SpecLimit(child)));
  }

  // The window of a row's own query, from all that is asked for along e.
  lemma OwnRowsAreWindow(db: Db, e: Edge, child: Builder, rows: seq<Row>, key: Id)
    requires WellFormed(db) && child.kind == Target(e) && Accepted(child) && key in BatchKeysOf(e, rows)
    ensures OwnRows(db, e, child, key)
      == Window(WithKey(JoinColumn(e), key, Batch(db, e, child, rows)), GetOr(child.offset, 0), SpecLimit(child))
  {
    BatchHoldsLookup(db, e, child, BatchKeysOf(e, rows), key);
    RowsForIsWindow(db, e, child, [key]);
  }

  // An edge is fair exactly when the child's window acts on every key alone.
  lemma FairEdgeIsShared(db: Db, e: Edge, child: Builder, rows: seq<Row>)
    requires WellFormed(db) && child.kind == Target(e) && Accepted(child)
    ensures FairEdge(db, e, child, rows) <==>
      SharedFairly(JoinColumn(e), Batch(db, e, child, rows), GetOr(child.offset, 0), SpecLimit(child))
  {
    var c, s, keys := JoinColumn(e), Batch(db, e, child, rows), BatchKeysOf(e, rows);
    var offset, limit := GetOr(child.offset, 0), SpecLimit(child);
    RowsForIsWindow(db, e, child, keys);
    if FairEdge(db, e, child, rows) {
      forall key: Id ensures Window(WithKey(c, key, s), offset, limit) == WithKey(c, key, Window(s, offset, limit)) {
        if key in keys {
          var i := SomeRowSendsKey(e, rows, key);
          OwnRowsAreWindow(db, e, child, rows, key);
        } else {
          UnsentKeyFindsNone(db, e, child, keys, key);
        }
      }
    }
    if SharedFairly(c, s, offset, limit) {
      forall i | 0 <= i < |rows|
        ensures OwnRows(db, e, child, RowKey(e, rows[i])) == WithKey(c, RowKey(e, rows[i]), SharedRows(db, e, child, rows))
      {
        RowSendsKey(e, rows, i);
        OwnRowsAreWindow(db, e, child, rows, RowKey(e, rows[i]));
      }
    }
  }

  // For every limit and offset: each row gets what its own query returns exactly when the offset skips all that is
  // asked for, when there is no offset and the limit is not smaller than what is asked for, or when all of it up to
  // the end of the window shares a key and no other key has rows beyond the offset.
  lemma FairEdgeExactly(db: Db, e: Edge, child: Builder, rows: seq<Row>)
    requires WellFormed(db) && child.kind == Target(e) && Accepted(child)
    ensures var batch, offset := Batch(db, e, child, rows), GetOr(child.offset, 0);
      FairEdge(db, e, child, rows) <==>
        || |batch| <= offset
        || (offset == 0 && (GetOr(child.limit, 0) > 0 ==> |batch| <= GetOr(child.limit, 0)))
        || OneKeyReachesIn(JoinColumn(e), batch, offset, SpecLimit(child))
  {
    AllForFacts(db, e, child, BatchKeysOf(e, rows));
    FairEdgeIsShared(db, e, child, rows);
    WindowSharedExactly(JoinColumn(e), Batch(db, e, child, rows), GetOr(child.offset, 0), SpecLimit(child));
  }

  // With a limit and no offset: exactly when there are no more rows than that, or all of them share one join key.
  lemma LimitIsFairExactly(db: Db, e: Edge, child: Builder, rows: seq<Row>)
    requires WellFormed(db) && child.kind == Target(e)
    requires GetOr(child.offset, 0) == 0 && GetOr(child.limit, 0) > 0
    ensures var batch := Batch(db, e, child, rows);
      FairEdge(db, e, child, rows) <==>
        && InvalidFieldIn(child.kind, child.fields).None?
        && (|batch| <= GetOr(child.limit, 0) || OneKey(JoinColumn(e), batch))
  {
    if Accepted(child) {
      FairEdgeIsShared(db, e, child, rows);
      LimitSharedExactly(JoinColumn(e), Batch(db, e, child, rows), GetOr(child.limit, 0));
    }
  }

  // Rows that all send one key, a single row among them, share the window with nobody.
  lemma OneSenderIsFair(db: Db, e: Edge, child: Builder, rows: seq<Row>)
    requires WellFormed(db) && child.kind == Target(e) && Accepted(child)
    requires forall i, j | 0 <= i < |rows| && 0 <= j < |rows| :: RowKey(e, rows[i]) == RowKey(e, rows[j])
    ensures FairEdge(db, e, child, rows)
  {
    var batch := Batch(db, e, child, rows);
    AllForFacts(db, e, child, BatchKeysOf(e, rows));
    FairEdgeIsShared(db, e, child, rows);
    forall i, j | 0 <= i < |batch| && 0 <= j < |batch|
      ensures KeyOf(batch[i], JoinColumn(e)) == KeyOf(batch[j], JoinColumn(e))
    {
      assert batch[i] in batch && batch[j] in batch;
      var x := SomeRowSendsKey(e, rows, KeyOf(batch[i], JoinColumn(e)));
      var y := SomeRowSendsKey(e, rows, KeyOf(batch[j], JoinColumn(e)));
    }
    OneKeyIsShared(JoinColumn(e), batch, GetOr(child.offset, 0), SpecLimit(child));
  }

  // ---------- Windows that cut nothing off ----------

  // The child's query is accepted and its window holds all that is asked for.
  ghost predicate AmpleEdge(db: Db, e: Edge, child: Builder, rows: seq<Row>) {
    Accepted(child) && SharedRows(db, e, child, rows) == Batch(db, e, child, rows)
  }

  ghost predicate Ample(db: Db, q: Tree, rows: seq<Row>)
    decreases q
  {
    rows != [] ==>
      forall e | e in q.edges ::
        var child := q.edges[e];
        AmpleEdge(db, e, child.own, rows) && Ample(db, child, SharedRows(db, e, child.own, rows))
  }

  // That is so exactly when nothing is asked for, or there is no offset and the limit is not smaller.
  lemma WindowHoldsBatch(db: Db, e: Edge, child: Builder, rows: seq<Row>)
    ensures var batch := Batch(db, e, child, rows);
      AmpleEdge(db, e, child, rows) <==>
        && Accepted(child)
        && (batch == []
            || (GetOr(child.offset, 0) == 0 && (GetOr(child.limit, 0) > 0 ==> |batch| <= GetOr(child.limit, 0))))
  {
    if Accepted(child) {
      RowsForIsWindow(db, e, child, BatchKeysOf(e, rows));
      WindowIsWhole(Batch(db, e, child, rows), GetOr(child.offset, 0), SpecLimit(child));
    }
  }

  // A row that is asked for is found by its key.
  lemma BatchRowIsLookedUp(db: Db, e: Edge, child: Builder, rows: seq<Row>, row: Row) returns (i: nat)
    requires WellFormed(db) && child.kind == Target(e) && row in Batch(db, e, child, rows)
    ensures i < |rows| && KeyOf(row, JoinColumn(e)) == RowKey(e, rows[i])
    ensures row in AllFor(db, e, child, [RowKey(e, rows[i])])
  {
    var key := KeyOf(row, JoinColumn(e));
    AllForFacts(db, e, child, BatchKeysOf(e, rows));
    i := SomeRowSendsKey(e, rows, key);
    WithKeyHas(JoinColumn(e), Batch(db, e, child, rows), row);
    BatchHoldsLookup(db, e, child, BatchKeysOf(e, rows), key);
  }

  // A window of distinct rows that holds the first and the last of them holds them all.
  lemma WindowHoldsEnds<T, K>(key: T -> K, s: seq<T>, offset: nat, limit: Option<nat>)
    requires DistinctBy(key, s) && s != []
    requires s[0] in Window(s, offset, limit) && s[|s| - 1] in Window(s, offset, limit)
    ensures Window(s, offset, limit) == s
  {
    var w := Window(s, offset, limit);
    var x :| 0 <= x < |w| && w[x] == s[0];
    SameKeySamePlace(key, s, 0, offset + x);
    var y :| 0 <= y < |w| && w[y] == s[|s| - 1];
    SameKeySamePlace(key, s, y, |s| - 1);
  }

  ghost predicate AllComeBack(db: Db, e: Edge, child: Builder, rows: seq<Row>) {
    forall i | 0 <= i < |rows| ::
      WithKey(JoinColumn(e), RowKey(e, rows[i]), SharedRows(db, e, child, rows))
      == AllFor(db, e, child, [RowKey(e, rows[i])])
  }

  // It is also exactly when every row gets all its neighbours, as if the child had no limit and no offset.
  lemma AmpleIsComplete(db: Db, e: Edge, child: Builder, rows: seq<Row>)
    requires WellFormed(db) && child.kind == Target(e) && Accepted(child)
    ensures AmpleEdge(db, e, child, rows) <==> AllComeBack(db, e, child, rows)
  {
    var batch, shared := Batch(db, e, child, rows), SharedRows(db, e, child, rows);
    if AmpleEdge(db, e, child, rows) {
      forall i | 0 <= i < |rows|
        ensures WithKey(JoinColumn(e), RowKey(e, rows[i]), shared) == AllFor(db, e, child, [RowKey(e, rows[i])])
      {
        RowSendsKey(e, rows, i);
        BatchHoldsLookup(db, e, child, BatchKeysOf(e, rows), RowKey(e, rows[i]));
      }
    }
    if AllComeBack(db, e, child, rows) {
      forall row | row in batch ensures row in shared {
        var i := BatchRowIsLookedUp(db, e, child, rows, row);
      }
      RowsForIsWindow(db, e, child, BatchKeysOf(e, rows));
      AllForFacts(db, e, child, BatchKeysOf(e, rows));
      if batch != [] {
        assert batch[0] in batch && batch[|batch| - 1] in batch;
        WindowHoldsEnds((row: Row) => KeyOf(row, IdColumn), batch, GetOr(child.offset, 0), SpecLimit(child));
      }
    }
  }

  // Then each row's own query returns all its neighbours as well.
  lemma AmpleEdgeIsFair(db: Db, e: Edge, child: Builder, rows: seq<Row>)
    requires WellFormed(db) && child.kind == Target(e) && AmpleEdge(db, e, child, rows)
    ensures FairEdge(db, e, child, rows)
    ensures forall i | 0 <= i < |rows| ::
      OwnRows(db, e, child, RowKey(e, rows[i])) == AllFor(db, e, child, [RowKey(e, rows[i])])
  {
    AmpleIsComplete(db, e, child, rows);
    WindowHoldsBatch(db, e, child, rows);
    FairEdgeExactly(db, e, child, rows);
  }

  lemma {:induction false} AmpleIsFair(db: Db, q: Tree, rows: seq<Row>)
    requires WellFormed(db) && Belongs(q) && Ample(db, q, rows)
    ensures Fair(db, q, rows)
    decreases q
  {
    if rows != [] {
      forall e | e in q.edges
        ensures FairEdge(db, e, q.edges[e].own, rows) && Fair(db, q.edges[e], SharedRows(db, e, q.edges[e].own, rows))
      {
        AmpleEdgeIsFair(db, e, q.edges[e].own, rows);
        AmpleIsFair(db, q.edges[e], SharedRows(db, e, q.edges[e].own, rows));
      }
    }
  }

  // The tree whose children have neither limit nor offset.
  ghost function Unlimited(q: Tree): Tree {
    Tree(q.own.(limit := None, offset := None), map e | e in q.edges :: Unlimited(q.edges[e]))
  }

  lemma UnlimitedEdgeIsAmple(db: Db, e: Edge, child: Builder, rows: seq<Row>)
    requires InvalidFieldIn(child.kind, child.fields).None?
    ensures AmpleEdge(db, e, child.(limit := None, offset := None), rows)
    ensures Batch(db, e, child.(limit := None, offset := None), rows) == Batch(db, e, child, rows)
  {
    WindowHoldsBatch(db, e, child.(limit := None, offset := None), rows);
  }

  lemma {:induction false} AmpleUnlimited(db: Db, q: Tree, rows: seq<Row>)
    requires Ample(db, q, rows)
    ensures Ample(db, Unlimited(q), rows)
    decreases q
  {
    if rows != [] {
      forall e | e in q.edges
        ensures var child := Unlimited(q.edges[e]);
          AmpleEdge(db, e, child.own, rows) && Ample(db, child, SharedRows(db, e, child.own, rows))
      {
        UnlimitedEdgeIsAmple(db, e, q.edges[e].own, rows);
        AmpleUnlimited(db, q.edges[e], SharedRows(db, e, q.edges[e].own, rows));
      }
    }
  }

  lemma {:induction false} BelongsUnlimited(q: Tree)
    requires Belongs(q)
    ensures Belongs(Unlimited(q))
    decreases q
  {
    forall e | e in q.edges ensures Belongs(Unlimited(q.edges[e])) { BelongsUnlimited(q.edges[e]); }
  }

  lemma OwnRowsUnlimited(db: Db, q: Tree, rows: seq<Row>, e: Edge, i: nat)
    requires WellFormed(db) && Belongs(q) && Ample(db, q, rows) && e in q.edges && i < |rows|
    ensures var child, key := q.edges[e].own, RowKey(e, rows[i]);
      && OwnRows(db, e, child, key) == OwnRows(db, e, Unlimited(q).edges[e].own, key)
      && forall row | row in OwnRows(db, e, child, key) :: row in SharedRows(db, e, child, rows)
  {
    var child := q.edges[e].own;
    AmpleEdgeIsFair(db, e, child, rows);
    UnlimitedEdgeIsAmple(db, e, child, rows);
    AmpleEdgeIsFair(db, e, child.(limit := None, offset := None), rows);
  }

  lemma NestedSame(db: Db, b: Builder, b': Builder, q: Tree, q': Tree, row: Row, done: set<Edge>)
    requires b.kind == b'.kind && b.fields == b'.fields && q.edges.Keys == q'.edges.Keys
    requires forall e | e in q.edges :: LookedUp(db, q, e, row) == LookedUp(db, q', e, row)
    ensures NestedOn(db, b, q, row, done) == NestedOn(db, b', q', row, done)
  {
    SpecColumnsSame(b, b', q.edges.Keys);
    FoundSame(db, q, q', row, done);
  }

  lemma SpecColumnsSame(b: Builder, b': Builder, requested: set<Edge>)
    requires b.kind == b'.kind && b.fields == b'.fields
    ensures SpecColumns(b, requested) == SpecColumns(b', requested)
  {
  }

  lemma FoundSame(db: Db, q: Tree, q': Tree, row: Row, done: set<Edge>)
    requires q.edges.Keys == q'.edges.Keys
    requires forall e | e in q.edges :: LookedUp(db, q, e, row) == LookedUp(db, q', e, row)
    ensures Found(db, q, row, done) == Found(db, q', row, done)
  {
  }

  lemma NestedRowsSame(db: Db, q: Tree, q': Tree, e: Edge, rows: seq<Row>)
    requires e in q.edges && e in q'.edges
    requires var child, child' := q.edges[e], q'.edges[e];
      forall x | 0 <= x < |rows| ::
        Nested(db, KeyField(e, child.own), child, rows[x]) == Nested(db, KeyField(e, child'.own), child', rows[x])
    ensures NestedRows(db, q, e, rows) == NestedRows(db, q', e, rows)
  {
  }

  lemma UnlimitedChild(q: Tree, e: Edge)
    requires e in q.edges
    ensures var child := Unlimited(q).edges[e];
      && child == Unlimited(q.edges[e]) && child.edges.Keys == q.edges[e].edges.Keys
      && KeyField(e, child.own).kind == KeyField(e, q.edges[e].own).kind
      && KeyField(e, child.own).fields == KeyField(e, q.edges[e].own).fields
    ensures Unlimited(q).edges.Keys == q.edges.Keys
  {
  }

  lemma {:induction false} NestedUnlimited(db: Db, b: Builder, b': Builder, q: Tree, rows: seq<Row>, i: nat, done: set<Edge>)
    requires WellFormed(db) && Belongs(q) && Ample(db, q, rows) && i < |rows|
    requires b.kind == b'.kind && b.fields == b'.fields
    ensures NestedOn(db, b, q, rows[i], done) == NestedOn(db, b', Unlimited(q), rows[i], done)
    decreases q, 1
  {
    var q' := Unlimited(q);
    assert q'.edges.Keys == q.edges.Keys;
    forall e | e in q.edges ensures LookedUp(db, q, e, rows[i]) == LookedUp(db, q', e, rows[i]) {
      LookedUpUnlimited(db, q, q', rows, i, e);
    }
    NestedSame(db, b, b', q, q', rows[i], done);
  }

  lemma {:induction false} LookedUpUnlimited(db: Db, q: Tree, q': Tree, rows: seq<Row>, i: nat, e: Edge)
    requires WellFormed(db) && Belongs(q) && Ample(db, q, rows) && i < |rows| && e in q.edges
    requires q' == Unlimited(q)
    ensures LookedUp(db, q, e, rows[i]) == LookedUp(db, q', e, rows[i])
    decreases q, 0
  {
    var child, child' := q.edges[e], q'.edges[e];
    var own := OwnRows(db, e, child.own, RowKey(e, rows[i]));
    OwnRowsUnlimited(db, q, rows, e, i);
    UnlimitedChild(q, e);
    forall x | 0 <= x < |own|
      ensures Nested(db, KeyField(e, child.own), child, own[x]) == Nested(db, KeyField(e, child'.own), child', own[x])
    {
      assert own[x] in own;
      var y :| 0 <= y < |SharedRows(db, e, child.own, rows)| && SharedRows(db, e, child.own, rows)[y] == own[x];
      NestedUnlimited(db, KeyField(e, child.own), KeyField(e, child'.own), child, SharedRows(db, e, child.own, rows), y,
                      child.edges.Keys);
    }
    NestedRowsSame(db, q, q', e, own);
  }

  lemma NestedAllUnlimited(db: Db, b: Builder, q: Tree, rows: seq<Row>)
    requires WellFormed(db) && Belongs(q) && Ample(db, q, rows)
    ensures NestedAll(db, b, q, rows, q.edges.Keys) == NestedAll(db, b, Unlimited(q), rows, q.edges.Keys)
  {
    var q' := Unlimited(q);
    forall i | 0 <= i < |rows|
      ensures NestedOn(db, b, q, rows[i], q.edges.Keys) == NestedOn(db, b, q', rows[i], q.edges.Keys)
    {
      NestedUnlimited(db, b, b, q, rows, i, q.edges.Keys);
    }
  }

  // Then the run is the naive meaning.
  lemma AmpleIsNested(db: Db, b: Builder, q: Tree, rows: seq<Row>)
    requires WellFormed(db) && Belongs(q) && Ample(db, q, rows) && b.kind == q.own.kind
    requires InvalidFieldIn(b.kind, b.fields).None? && Fetch(db, b) == Ok(rows)
    ensures Run(db, b, q).nodes == Ok(NestedAll(db, b, q, rows, q.edges.Keys))
  {
    AmpleIsFair(db, q, rows);
    RunIsNested(db, b, q, rows);
  }

  lemma UnlimitedFacts(db: Db, q: Tree, rows: seq<Row>)
    requires Belongs(q) && Ample(db, q, rows)
    ensures var q' := Unlimited(q);
      Belongs(q') && Ample(db, q', rows) && q'.own.kind == q.own.kind && q'.edges.Keys == q.edges.Keys
  {
    BelongsUnlimited(q);
    AmpleUnlimited(db, q, rows);
  }

  // Limits and offsets that cut nothing off make no difference: the run is that of the tree without them.
  lemma AmpleLosesNothing(db: Db, b: Builder, q: Tree, q': Tree, rows: seq<Row>)
    requires WellFormed(db) && Belongs(q) && Ample(db, q, rows) && b.kind == q.own.kind && q' == Unlimited(q)
    requires InvalidFieldIn(b.kind, b.fields).None? && Fetch(db, b) == Ok(rows)
    ensures Run(db, b, q).nodes == Run(db, b, q').nodes == Ok(NestedAll(db, b, q, rows, q.edges.Keys))
  {
    UnlimitedFacts(db, q, rows);
    AmpleIsNested(db, b, q, rows);
    AmpleIsNested(db, b, q', rows);
    NestedAllUnlimited(db, b, q, rows);
  }

  // In particular when no child sets a limit or offset.
  ghost predicate Plainly(q: Tree) {
    forall e | e in q.edges ::
      var child := q.edges[e];
      Accepted(child.own) && GetOr(child.own.limit, 0) == 0 && GetOr(child.own.offset, 0) == 0 && Plainly(child)
  }

  lemma {:induction false} PlainlyIsAmple(db: Db, q: Tree, rows: seq<Row>)
    requires Plainly(q)
    ensures Ample(db, q, rows)
    decreases q
  {
    forall e | e in q.edges
      ensures AmpleEdge(db, e, q.edges[e].own, rows) && Ample(db, q.edges[e], SharedRows(db, e, q.edges[e].own, rows))
    {
      WindowHoldsBatch(db, e, q.edges[e].own, rows);
      PlainlyIsAmple(db, q.edges[e], SharedRows(db, e, q.edges[e].own, rows));
    }
  }

  // ---------- Fewer rows ----------

  lemma MatchingSize(db: Db, k: Kind, preds: seq<Pred>, order: seq<OrderTerm>)
    ensures |Matching(db, k, preds, order)| == |Filter(row => Matches(preds, row), TableOf(db, k))|
  {
    var found, sorted := Filter(row => Matches(preds, row), TableOf(db, k)), Matching(db, k, preds, order);
    assert multiset(sorted) == multiset(found);
    assert |multiset(sorted)| == |sorted| && |multiset(found)| == |found|;
  }

  lemma InMatching(db: Db, k: Kind, preds: seq<Pred>, order: seq<OrderTerm>, row: Row)
    requires row in TableOf(db, k) && Matches(preds, row)
    ensures row in Matching(db, k, preds, order)
  {
    var found, sorted := Filter(r => Matches(preds, r), TableOf(db, k)), Matching(db, k, preds, order);
    FilterKeeps(r => Matches(preds, r), TableOf(db, k), row);
    assert multiset(sorted) == multiset(found);
    assert row in multiset(found);
  }

  lemma FewerRowsSendFewerKeys(e: Edge, rows: seq<Row>, rows': seq<Row>, key: Id)
    requires (forall row | row in rows' :: row in rows) && key in BatchKeysOf(e, rows')
    ensures key in BatchKeysOf(e, rows)
  {
    var i := SomeRowSendsKey(e, rows', key);
    assert rows'[i] in rows;
    var j :| 0 <= j < |rows| && rows[j] == rows'[i];
    RowSendsKey(e, rows, j);
  }

  lemma FewerRowsMatch(e: Edge, child: Builder, rows: seq<Row>, rows': seq<Row>, row: Row)
    requires forall r | r in rows' :: r in rows
    requires Matches(child.preds + [In(JoinColumn(e), BatchKeysOf(e, rows'))], row)
    ensures Matches(child.preds + [In(JoinColumn(e), BatchKeysOf(e, rows))], row)
  {
    MatchesOneMore(child.preds, In(JoinColumn(e), BatchKeysOf(e, rows)), row);
    MatchesOneMore(child.preds, In(JoinColumn(e), BatchKeysOf(e, rows')), row);
    FewerRowsSendFewerKeys(e, rows, rows', row[JoinColumn(e)].id);
  }

  lemma StrongerMatchesFewer(db: Db, k: Kind, preds: seq<Pred>, preds': seq<Pred>, order: seq<OrderTerm>)
    requires forall row: Row | Matches(preds', row) :: Matches(preds, row)
    ensures |Matching(db, k, preds', order)| <= |Matching(db, k, preds, order)|
    ensures forall row | row in Matching(db, k, preds', order) :: row in Matching(db, k, preds, order)
  {
    MatchingSize(db, k, preds, order);
    MatchingSize(db, k, preds', order);
    FilterFewer(row => Matches(preds', row), row => Matches(preds, row), TableOf(db, k));
    MatchingRows(db, k, preds', order);
    forall row | row in Matching(db, k, preds', order) ensures row in Matching(db, k, preds, order) {
      InMatching(db, k, preds, order, row);
    }
  }

  lemma FewerRowsAskForFewer(db: Db, e: Edge, child: Builder, rows: seq<Row>, rows': seq<Row>)
    requires forall row | row in rows' :: row in rows
    ensures |Batch(db, e, child, rows')| <= |Batch(db, e, child, rows)|
    ensures forall row | row in Batch(db, e, child, rows') :: row in Batch(db, e, child, rows)
  {
    var preds := child.preds + [In(JoinColumn(e), BatchKeysOf(e, rows))];
    var preds' := child.preds + [In(JoinColumn(e), BatchKeysOf(e, rows'))];
    forall row: Row | Matches(preds', row) ensures Matches(preds, row) {
      FewerRowsMatch(e, child, rows, rows', row);
    }
    StrongerMatchesFewer(db, child.kind, preds, preds', child.order);
  }

  // Windows that hold all that some rows ask for hold all that fewer ask for.
  lemma {:induction false} AmpleForFewer(db: Db, q: Tree, rows: seq<Row>, rows': seq<Row>)
    requires Ample(db, q, rows) && forall row | row in rows' :: row in rows
    ensures Ample(db, q, rows')
    decreases q
  {
    if rows' != [] {
      assert rows'[0] in rows;
      forall e | e in q.edges
        ensures var child := q.edges[e];
          AmpleEdge(db, e, child.own, rows') && Ample(db, child, SharedRows(db, e, child.own, rows'))
      {
        var child := q.edges[e];
        FewerRowsAskForFewer(db, e, child.own, rows, rows');
        WindowHoldsBatch(db, e, child.own, rows);
        WindowHoldsBatch(db, e, child.own, rows');
        AmpleForFewer(db, child, SharedRows(db, e, child.own, rows), SharedRows(db, e, child.own, rows'));
      }
    }
  }

  // ---------- A store in which a row's own window is lost ----------

  function PlainBuilder(k: Kind, limit: Option<int>): Builder {
    Builder(k, [], limit, None, None, [], [])
  }

  // Two customers with a channel link each.
  ghost predicate OneLinkEach(c1: Row, c2: Row, l1: Row, l2: Row) {
    && WellFormedRow(Customer, c1) && WellFormedRow(Customer, c2)
    && WellFormedRow(CustomerChannel, l1) && WellFormedRow(CustomerChannel, l2)
    && KeyOf(c1, IdColumn) != KeyOf(c2, IdColumn) && KeyOf(l1, IdColumn) != KeyOf(l2, IdColumn)
    && KeyOf(l1, CustomerId) == KeyOf(c1, IdColumn) && KeyOf(l2, CustomerId) == KeyOf(c2, IdColumn)
  }

  // There is such a store.
  lemma TwoCustomersAreAStore(c1: Row, c2: Row, l1: Row, l2: Row, counts: Builder -> Result<nat, QueryError>) returns (db: Db)
    requires OneLinkEach(c1, c2, l1, l2)
    ensures WellFormed(db) && TableOf(db, Customer) == [c1, c2] && TableOf(db, CustomerChannel) == [l1, l2]
  {
    db := Db(map[Customer := [c1, c2], CustomerChannel := [l1, l2]], counts);
  }

  lemma {:induction false} UnorderedSort(s: seq<Row>)
    ensures Sort((a, b) => Before([], a, b), s) == s
  {
    if s != [] {
      UnorderedSort(s[1..]);
      assert s == [s[0]] + s[1..];
    }
  }

  lemma FilterTwo<T>(p: T -> bool, a: T, b: T)
    ensures Filter(p, [a, b]) == (if p(a) then [a] else []) + (if p(b) then [b] else [])
  {
    assert [a, b] == [a] + [b];
    FilterConcat(p, [a], [b]);
  }

  lemma MatchingTwo(db: Db, k: Kind, preds: seq<Pred>, a: Row, b: Row)
    requires TableOf(db, k) == [a, b]
    ensures Matching(db, k, preds, []) == (if Matches(preds, a) then [a] else []) + (if Matches(preds, b) then [b] else [])
  {
    FilterTwo(row => Matches(preds, row), a, b);
    UnorderedSort(Filter(row => Matches(preds, row), TableOf(db, k)));
  }

  lemma LinksFor(db: Db, c1: Row, c2: Row, l1: Row, l2: Row, keys: seq<Id>)
    requires OneLinkEach(c1, c2, l1, l2) && TableOf(db, CustomerChannel) == [l1, l2]
    ensures AllFor(db, CustomerToChannels, PlainBuilder(CustomerChannel, Some(1)), keys)
      == (if KeyOf(c1, IdColumn) in keys then [l1] else []) + (if KeyOf(c2, IdColumn) in keys then [l2] else [])
  {
    var p := In(CustomerId, keys);
    assert CustomerId in KeyColumns(CustomerChannel);
    MatchesOneMore([], p, l1);
    MatchesOneMore([], p, l2);
    MatchingTwo(db, CustomerChannel, [] + [p], l1, l2);
  }

  lemma TwoCustomersAreFound(db: Db, c1: Row, c2: Row)
    requires TableOf(db, Customer) == [c1, c2]
    ensures Fetch(db, PlainBuilder(Customer, None)) == Ok([c1, c2])
  {
    MatchingTwo(db, Customer, [], c1, c2);
    WindowIsWhole(Matching(db, Customer, [], []), 0, None);
    assert [c1] + [c2] == [c1, c2];
  }

  lemma FirstOfTwo<T>(a: seq<T>, b: seq<T>)
    requires |a| <= 1 && |b| <= 1
    ensures Window(a + b, 0, Some(1)) == if a != [] then a else b
  {
  }

  lemma FirstLinkFor(db: Db, c1: Row, c2: Row, l1: Row, l2: Row, keys: seq<Id>)
    requires OneLinkEach(c1, c2, l1, l2) && TableOf(db, CustomerChannel) == [l1, l2]
    ensures RowsFor(db, CustomerToChannels, PlainBuilder(CustomerChannel, Some(1)), keys)
      == if KeyOf(c1, IdColumn) in keys then [l1] else if KeyOf(c2, IdColumn) in keys then [l2] else []
  {
    LinksFor(db, c1, c2, l1, l2, keys);
    RowsForIsWindow(db, CustomerToChannels, PlainBuilder(CustomerChannel, Some(1)), keys);
    FirstOfTwo(if KeyOf(c1, IdColumn) in keys then [l1] else [], if KeyOf(c2, IdColumn) in keys then [l2] else []);
  }

  // With limit 1 each customer's own query returns its link, but the query shared by both returns one in all.
  lemma OwnLinks(db: Db, c1: Row, c2: Row, l1: Row, l2: Row)
    requires OneLinkEach(c1, c2, l1, l2) && TableOf(db, CustomerChannel) == [l1, l2]
    ensures var e, child := CustomerToChannels, PlainBuilder(CustomerChannel, Some(1));
      && OwnRows(db, e, child, KeyOf(c1, IdColumn)) == [l1] && OwnRows(db, e, child, KeyOf(c2, IdColumn)) == [l2]
      && SharedRows(db, e, child, [c1, c2]) == [l1]
  {
    BatchKeysOfTwo(c1, c2);
    FirstLinkFor(db, c1, c2, l1, l2, [KeyOf(c1, IdColumn)]);
    FirstLinkFor(db, c1, c2, l1, l2, [KeyOf(c2, IdColumn)]);
    FirstLinkFor(db, c1, c2, l1, l2, [KeyOf(c1, IdColumn), KeyOf(c2, IdColumn)]);
  }

  lemma BatchKeysOfTwo(c1: Row, c2: Row)
    ensures BatchKeysOf(CustomerToChannels, [c1, c2]) == [KeyOf(c1, IdColumn), KeyOf(c2, IdColumn)]
  {
  }

  lemma NotFairAt(db: Db, e: Edge, child: Builder, rows: seq<Row>, i: nat)
    requires i < |rows| && OwnRows(db, e, child, RowKey(e, rows[i])) != []
    requires forall row | row in SharedRows(db, e, child, rows) :: KeyOf(row, JoinColumn(e)) != RowKey(e, rows[i])
    ensures !FairEdge(db, e, child, rows)
  {
    FilterNone(row => KeyOf(row, JoinColumn(e)) == RowKey(e, rows[i]), SharedRows(db, e, child, rows));
  }

  // An edge that is not fair gives some entity other neighbours than its own query returns.
  lemma UnfairEdgeLoses(db: Db, b: Builder, q: Tree, rows: seq<Row>, e: Edge)
    requires WellFormed(db) && Belongs(q) && b.kind == q.own.kind
    requires InvalidFieldIn(b.kind, b.fields).None? && Fetch(db, b) == Ok(rows) && rows != []
    requires e in q.edges && !FairEdge(db, e, q.edges[e].own, rows)
    ensures Run(db, b, q).nodes != Ok(NestedAll(db, b, q, rows, q.edges.Keys))
  {
    RunIsNestedExactly(db, b, q, rows);
  }

  // Two customers with one link each, loaded with limit 1, do not both get the link that their own query returns,
  // whatever else is in the store or loaded along other edges.
  lemma SecondLinkIsLost(db: Db, q: Tree, c1: Row, c2: Row, l1: Row, l2: Row)
    requires WellFormed(db) && OneLinkEach(c1, c2, l1, l2)
    requires TableOf(db, Customer) == [c1, c2] && TableOf(db, CustomerChannel) == [l1, l2]
    requires Belongs(q) && q.own == PlainBuilder(Customer, None)
    requires CustomerToChannels in q.edges && q.edges[CustomerToChannels].own == PlainBuilder(CustomerChannel, Some(1))
    ensures var e, child := CustomerToChannels, PlainBuilder(CustomerChannel, Some(1));
      && Fetch(db, q.own) == Ok([c1, c2])
      && OwnRows(db, e, child, KeyOf(c1, IdColumn)) == [l1] && OwnRows(db, e, child, KeyOf(c2, IdColumn)) == [l2]
      && Run(db, q.own, q).nodes != Ok(NestedAll(db, q.own, q, [c1, c2], q.edges.Keys))
  {
    TwoCustomersAreFound(db, c1, c2);
    OwnLinks(db, c1, c2, l1, l2);
    NotFairAt(db, CustomerToChannels, PlainBuilder(CustomerChannel, Some(1)), [c1, c2], 1);
    UnfairEdgeLoses(db, q.own, q, [c1, c2], CustomerToChannels);
  }
}
