/** Sequence operations with their laws: filtering, windows, and the stable sort behind ORDER BY. */
module Lists {
  import opened Wrappers

  function Filter<T>(p: T -> bool, s: seq<T>): (r: seq<T>)
    ensures forall x | x in r :: x in s && p(x)
  {
    if s == [] then []
    else if p(s[0]) then [s[0]] + Filter(p, s[1..])
    else Filter(p, s[1..])
  }

  lemma FilterCons<T>(p: T -> bool, x: T, s: seq<T>)
    ensures Filter(p, [x] + s) == if p(x) then [x] + Filter(p, s) else Filter(p, s)
  {
    assert ([x] + s)[1..] == s;
  }

  lemma {:induction false} FilterConcat<T>(p: T -> bool, s: seq<T>, t: seq<T>)
    ensures Filter(p, s + t) == Filter(p, s) + Filter(p, t)
  {
    if s == [] {
      assert s + t == t;
    } else {
      FilterConcat(p, s[1..], t);
      assert (s + t)[1..] == s[1..] + t;
    }
  }

  lemma {:induction false} FilterKeeps<T>(p: T -> bool, s: seq<T>, x: T)
    requires x in s && p(x)
    ensures x in Filter(p, s)
  {
    if x != s[0] { FilterKeeps(p, s[1..], x); }
  }

  // Filters that agree on the elements give the same result.
  lemma {:induction false} FilterSame<T>(p: T -> bool, q: T -> bool, s: seq<T>)
    requires forall x | x in s :: p(x) == q(x)
    ensures Filter(p, s) == Filter(q, s)
  {
    if s != [] { FilterSame(p, q, s[1..]); }
  }

  lemma {:induction false} FilterTwice<T>(p: T -> bool, q: T -> bool, both: T -> bool, s: seq<T>)
    requires forall x | x in s :: both(x) == (p(x) && q(x))
    ensures Filter(p, Filter(q, s)) == Filter(both, s)
  {
    if s != [] {
      FilterTwice(p, q, both, s[1..]);
      if q(s[0]) {
        FilterCons(p, s[0], Filter(q, s[1..]));
      }
    }
  }

  // A stronger filter keeps no more.
  lemma {:induction false} FilterFewer<T>(p: T -> bool, q: T -> bool, s: seq<T>)
    requires forall x | x in s && p(x) :: q(x)
    ensures |Filter(p, s)| <= |Filter(q, s)|
  {
    if s != [] { FilterFewer(p, q, s[1..]); }
  }

  lemma {:induction false} FilterAll<T>(p: T -> bool, s: seq<T>)
    requires forall x | x in s :: p(x)
    ensures Filter(p, s) == s
  {
    if s != [] { FilterAll(p, s[1..]); }
  }

  function Map<A, B>(f: A -> B, s: seq<A>): (r: seq<B>)
    ensures |r| == |s| && forall i | 0 <= i < |s| :: r[i] == f(s[i])
  {
    seq(|s|, i requires 0 <= i < |s| => f(s[i]))
  }

  lemma MapCons<A, B>(f: A -> B, x: A, s: seq<A>)
    ensures Map(f, [x] + s) == [f(x)] + Map(f, s)
  {
  }

  // Filtering images is mapping the filtered.
  lemma {:induction false} FilterMap<A, B>(f: A -> B, p: B -> bool, q: A -> bool, s: seq<A>)
    requires forall x | x in s :: p(f(x)) == q(x)
    ensures Filter(p, Map(f, s)) == Map(f, Filter(q, s))
  {
    if s != [] {
      var x, rest := s[0], s[1..];
      FilterMap(f, p, q, rest);
      assert s == [x] + rest;
      MapCons(f, x, rest);
      FilterCons(p, f(x), Map(f, rest));
      MapCons(f, x, Filter(q, rest));
    }
  }

  // No two elements have the same key.
  ghost predicate DistinctBy<T, K>(key: T -> K, s: seq<T>) {
    forall i, j | 0 <= i < j < |s| :: key(s[i]) != key(s[j])
  }

  lemma SameKeySamePlace<T, K>(key: T -> K, s: seq<T>, i: nat, j: nat)
    requires DistinctBy(key, s) && i < |s| && j < |s| && key(s[i]) == key(s[j])
    ensures i == j
  {
  }

  lemma {:induction false} FilterDistinct<T, K>(key: T -> K, p: T -> bool, s: seq<T>)
    requires DistinctBy(key, s)
    ensures DistinctBy(key, Filter(p, s))
  {
    if s != [] {
      FilterDistinct(key, p, s[1..]);
      assert forall x | x in Filter(p, s[1..]) :: key(x) != key(s[0]);
    }
  }

  // Every element once, in order of first occurrence.
  function Dedup<T(==,!new)>(s: seq<T>): (r: seq<T>)
    ensures forall x :: x in r <==> x in s
    ensures forall i, j | 0 <= i < j < |r| :: r[i] != r[j]
  {
    if s == [] then []
    else
      var n := |s| - 1;
      assert s == s[..n] + [s[n]];
      if s[n] in Dedup(s[..n]) then Dedup(s[..n]) else Dedup(s[..n]) + [s[n]]
  }

  // Dedup keeps the first occurrence of every element, in the order of their positions.
  lemma {:induction false} DedupInFirstOrder<T(!new)>(s: seq<T>) returns (at: seq<nat>)
    ensures |at| == |Dedup(s)|
    ensures forall k | 0 <= k < |at| :: at[k] < |s| && s[at[k]] == Dedup(s)[k] && s[at[k]] !in s[..at[k]]
    ensures forall i, j | 0 <= i < j < |at| :: at[i] < at[j]
  {
    if s == [] {
      at := [];
    } else {
      var n := |s| - 1;
      at := DedupInFirstOrder(s[..n]);
      assert forall k | 0 <= k < |at| :: s[..n][..at[k]] == s[..at[k]];
      if s[n] !in Dedup(s[..n]) { at := at + [n]; }
    }
  }

  // OFFSET and LIMIT.
  function Window<T>(s: seq<T>, offset: nat, limit: Option<nat>): (r: seq<T>)
    ensures |r| <= |s| && forall x | x in r :: x in s
  {
    var t := if offset <= |s| then s[offset..] else [];
    if limit.Some? && limit.value <= |t| then t[..limit.value] else t
  }

  lemma WindowDistinct<T, K>(key: T -> K, s: seq<T>, offset: nat, limit: Option<nat>)
    requires DistinctBy(key, s)
    ensures DistinctBy(key, Window(s, offset, limit))
  {
    var r := Window(s, offset, limit);
    assert forall i | 0 <= i < |r| :: r[i] == s[offset + i];
  }

  // ---------- A stable insertion sort by a total preorder ----------

  ghost predicate TotalPreorder<T(!new)>(le: (T, T) -> bool) {
    && (forall x, y :: le(x, y) || le(y, x))
    && (forall x, y, z :: le(x, y) && le(y, z) ==> le(x, z))
  }

  function Insert<T>(le: (T, T) -> bool, x: T, s: seq<T>): (r: seq<T>)
    ensures multiset(r) == multiset([x] + s)
  {
    if s == [] then [x]
    else if le(x, s[0]) then [x] + s
    else
      assert s == [s[0]] + s[1..];
      [s[0]] + Insert(le, x, s[1..])
  }

  function Sort<T>(le: (T, T) -> bool, s: seq<T>): (r: seq<T>)
    ensures multiset(r) == multiset(s)
  {
    if s == [] then []
    else
      assert s == [s[0]] + s[1..];
      Insert(le, s[0], Sort(le, s[1..]))
  }

  ghost predicate Sorted<T>(le: (T, T) -> bool, s: seq<T>) {
    forall i, j | 0 <= i < j < |s| :: le(s[i], s[j])
  }

  lemma {:induction false} InsertSorted<T(!new)>(le: (T, T) -> bool, x: T, s: seq<T>)
    requires TotalPreorder(le) && Sorted(le, s)
    ensures Sorted(le, Insert(le, x, s))
  {
    if s != [] && !le(x, s[0]) {
      InsertSorted(le, x, s[1..]);
      var t := Insert(le, x, s[1..]);
      forall y | y in t ensures le(s[0], y) {
        assert y in multiset(t);
        assert y in multiset([x] + s[1..]);
        assert y == x || y in s[1..];
      }
    }
  }

  lemma {:induction false} SortSorted<T(!new)>(le: (T, T) -> bool, s: seq<T>)
    requires TotalPreorder(le)
    ensures Sorted(le, Sort(le, s))
  {
    if s != [] {
      SortSorted(le, s[1..]);
      InsertSorted(le, s[0], Sort(le, s[1..]));
    }
  }

  lemma {:induction false} FilterInsert<T(!new)>(le: (T, T) -> bool, p: T -> bool, x: T, s: seq<T>)
    requires TotalPreorder(le) && Sorted(le, s)
    ensures Filter(p, Insert(le, x, s)) == if p(x) then Insert(le, x, Filter(p, s)) else Filter(p, s)
  {
    if s == [] {
    } else if le(x, s[0]) {
      FilterCons(p, x, s);
      var f := Filter(p, s);
      if f != [] {
        assert f[0] in s;
        var k :| 0 <= k < |s| && s[k] == f[0];
        assert k == 0 || le(s[0], s[k]);
        assert le(x, f[0]);
      }
    } else {
      var t := s[1..];
      FilterInsert(le, p, x, t);
      FilterCons(p, s[0], Insert(le, x, t));
      if p(s[0]) {
        assert ([s[0]] + Filter(p, t))[1..] == Filter(p, t);
      }
    }
  }

  // Sorting first or filtering first makes no difference: the sort is stable.
  lemma {:induction false} FilterSort<T(!new)>(le: (T, T) -> bool, p: T -> bool, s: seq<T>)
    requires TotalPreorder(le)
    ensures Filter(p, Sort(le, s)) == Sort(le, Filter(p, s))
  {
    if s != [] {
      var t := s[1..];
      FilterSort(le, p, t);
      SortSorted(le, t);
      FilterInsert(le, p, s[0], Sort(le, t));
      if p(s[0]) {
        assert ([s[0]] + Filter(p, t))[1..] == Filter(p, t);
      }
    }
  }

  lemma {:induction false} InsertDistinct<T, K>(key: T -> K, le: (T, T) -> bool, x: T, s: seq<T>)
    requires DistinctBy(key, [x] + s)
    ensures DistinctBy(key, Insert(le, x, s))
  {
    if s != [] && !le(x, s[0]) {
      var all := [x] + s;
      forall i, j | 0 <= i < j < |[x] + s[1..]| ensures key(([x] + s[1..])[i]) != key(([x] + s[1..])[j]) {
        assert ([x] + s[1..])[i] == all[if i == 0 then 0 else i + 1];
        assert ([x] + s[1..])[j] == all[j + 1];
      }
      InsertDistinct(key, le, x, s[1..]);
      var t := Insert(le, x, s[1..]);
      forall y | y in t ensures key(y) != key(s[0]) {
        assert y in multiset([x] + s[1..]);
        assert all[1] == s[0];
        assert y == x || y in s[1..];
        if y == x { assert all[0] == x; } else { var k :| 0 <= k < |s[1..]| && s[1..][k] == y; assert all[k + 2] == y; }
      }
    }
  }

  lemma {:induction false} SortDistinct<T, K>(key: T -> K, le: (T, T) -> bool, s: seq<T>)
    requires DistinctBy(key, s)
    ensures DistinctBy(key, Sort(le, s))
  {
    if s != [] {
      SortDistinct(key, le, s[1..]);
      var t := Sort(le, s[1..]);
      forall j | 0 <= j < |t| ensures key(t[j]) != key(s[0]) {
        assert t[j] in multiset(s[1..]);
      }
      InsertDistinct(key, le, s[0], t);
    }
  }
}
