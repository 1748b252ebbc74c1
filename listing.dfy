/** The query shape every listing handler shares: read `page` and `limit` from the query
    string, keep the documents that match a filter, sort them, skip and limit. Documents
    are given in the collection's natural (insertion) order. */
module Listing {
  import opened Wrappers
  import Pagination

  /** `parseInt(raw) || default`: an absent or non-numeric parameter (None, standing for
      NaN) and the value 0 are falsy and fall back to the default. */
  function QueryInt(raw: Option<int>, default: int): (r: int)
    ensures raw.Some? && raw.value != 0 ==> r == raw.value
    ensures raw.None? || raw.value == 0 ==> r == default
    ensures default != 0 ==> r != 0
  {
    if raw.Some? && raw.value != 0 then raw.value else default
  }

  /** `docs.filter(p)`, and Mongo's `find(query)` for a query described by `p`. */
  function Filter<T>(docs: seq<T>, p: T -> bool): (r: seq<T>)
    ensures |r| <= |docs|
    ensures forall i :: 0 <= i < |r| ==> r[i] in docs && p(r[i])
    ensures forall i :: 0 <= i < |docs| && p(docs[i]) ==> docs[i] in r
  {
    if docs == [] then []
    else if p(docs[0]) then [docs[0]] + Filter(docs[1..], p)
    else Filter(docs[1..], p)
  }

  /** Filtering a concatenation filters each part and keeps them in order: the kept
      documents appear in their original relative order. */
  lemma {:induction false} FilterConcat<T>(a: seq<T>, b: seq<T>, p: T -> bool)
    ensures Filter(a + b, p) == Filter(a, p) + Filter(b, p)
  {
    if a != [] {
      assert (a + b)[1..] == a[1..] + b;
      FilterConcat(a[1..], b, p);
    } else {
      assert a + b == b;
    }
  }

  /** `r` is `s` with some elements left out, the others in their order. */
  predicate Subsequence<T(==)>(r: seq<T>, s: seq<T>)
    decreases |s|
  {
    if r == [] then true
    else if s == [] then false
    else (r[0] == s[0] && Subsequence(r[1..], s[1..])) || Subsequence(r, s[1..])
  }

  /** What a filter keeps is a subsequence of what it was given. */
  lemma {:induction false} FilterSubsequence<T>(docs: seq<T>, p: T -> bool)
    ensures Subsequence(Filter(docs, p), docs)
  {
    if docs != [] {
      FilterSubsequence(docs[1..], p);
    }
  }

  /** A filter every element passes keeps everything. */
  lemma {:induction false} FilterAll<T>(docs: seq<T>, p: T -> bool)
    requires forall i :: 0 <= i < |docs| ==> p(docs[i])
    ensures Filter(docs, p) == docs
  {
    if docs != [] {
      FilterAll(docs[1..], p);
    }
  }

  /** `docs.filter(p).length`, and Mongo's `countDocuments(query)`. */
  function Count<T>(docs: seq<T>, p: T -> bool): (n: nat)
    ensures n <= |docs|
  {
    |Filter(docs, p)|
  }

  /** A count is additive over a concatenation. */
  lemma CountConcat<T>(a: seq<T>, b: seq<T>, p: T -> bool)
    ensures Count(a + b, p) == Count(a, p) + Count(b, p)
  {
    FilterConcat(a, b, p);
  }

  /** A filter every document passes counts them all. */
  lemma {:induction false} CountAll<T>(docs: seq<T>, p: T -> bool)
    requires forall i :: 0 <= i < |docs| ==> p(docs[i])
    ensures Count(docs, p) == |docs|
  {
    if docs != [] {
      CountAll(docs[1..], p);
    }
  }

  /** A filter no document passes counts none. */
  lemma {:induction false} CountNone<T>(docs: seq<T>, p: T -> bool)
    requires forall i :: 0 <= i < |docs| ==> !p(docs[i])
    ensures Count(docs, p) == 0
  {
    if docs != [] {
      CountNone(docs[1..], p);
    }
  }

  /** A filter that implies another keeps no more documents than the other one. */
  lemma {:induction false} CountMonotone<T>(docs: seq<T>, p: T -> bool, q: T -> bool)
    requires forall i :: 0 <= i < |docs| && p(docs[i]) ==> q(docs[i])
    ensures Count(docs, p) <= Count(docs, q)
  {
    if docs != [] {
      CountMonotone(docs[1..], p, q);
    }
  }

  /** `key` never increases from left to right. */
  ghost predicate SortedDesc<T>(s: seq<T>, key: T -> int) {
    forall i, j :: 0 <= i < j < |s| ==> key(s[i]) >= key(s[j])
  }

  /** Places `x` in front of the first element whose key is not larger than its own. */
  function InsertDesc<T>(x: T, s: seq<T>, key: T -> int): (r: seq<T>)
    requires SortedDesc(s, key)
    ensures SortedDesc(r, key)
    ensures multiset(r) == multiset(s) + multiset{x}
    ensures |r| == |s| + 1
  {
    if s == [] || key(s[0]) <= key(x) then
      SortedCons(x, s, key);
      [x] + s
    else
      SortedTail(s, key);
      var t := InsertDesc(x, s[1..], key);
      assert s == [s[0]] + s[1..];
      BoundedByMembers(t, s[1..], x, key, key(s[0]));
      SortedCons(s[0], t, key);
      [s[0]] + t
  }

  /** A sorted sequence stays sorted below a first element at least as large as its own. */
  lemma SortedCons<T>(x: T, t: seq<T>, key: T -> int)
    requires SortedDesc(t, key)
    requires t != [] ==> key(t[0]) <= key(x)
    ensures SortedDesc([x] + t, key)
  {
    var r := [x] + t;
    forall i, j | 0 <= i < j < |r| ensures key(r[i]) >= key(r[j]) {
      if i == 0 {
        assert r[j] == t[j - 1];
        assert key(t[0]) >= key(t[j - 1]) || j - 1 == 0;
      } else {
        assert r[i] == t[i - 1] && r[j] == t[j - 1];
      }
    }
  }

  /** The rest of a sorted sequence is sorted. */
  lemma SortedTail<T>(s: seq<T>, key: T -> int)
    requires SortedDesc(s, key) && s != []
    ensures SortedDesc(s[1..], key)
  {
    forall i, j | 0 <= i < j < |s[1..]| ensures key(s[1..][i]) >= key(s[1..][j]) {
      assert s[1..][i] == s[i + 1] && s[1..][j] == s[j + 1];
    }
  }

  /** A sequence holding the members of `u` and `x`, all keyed at most `b`, is keyed at
      most `b` throughout. */
  lemma BoundedByMembers<T>(t: seq<T>, u: seq<T>, x: T, key: T -> int, b: int)
    requires multiset(t) == multiset(u) + multiset{x}
    requires key(x) <= b && forall j :: 0 <= j < |u| ==> key(u[j]) <= b
    ensures forall j :: 0 <= j < |t| ==> key(t[j]) <= b
  {
    forall j | 0 <= j < |t| ensures key(t[j]) <= b {
      assert t[j] in multiset(t);
      if t[j] != x {
        assert t[j] in multiset(u);
        var m :| 0 <= m < |u| && u[m] == t[j];
      }
    }
  }

  /** Mongo's `.sort({ field: -1 })` with `key` reading the field: the result is ordered
      by descending key and holds the same documents. Ties keep their natural order. */
  function SortDesc<T>(s: seq<T>, key: T -> int): (r: seq<T>)
    ensures SortedDesc(r, key)
    ensures multiset(r) == multiset(s)
    ensures |r| == |s|
  {
    if s == [] then []
    else
      assert s == [s[0]] + s[1..];
      InsertDesc(s[0], SortDesc(s[1..], key), key)
  }

  /** Sorting keeps exactly the documents it was given. */
  lemma SortDescSameMembers<T>(s: seq<T>, key: T -> int, x: T)
    ensures x in SortDesc(s, key) <==> x in s
  {
    var r := SortDesc(s, key);
    assert x in r <==> x in multiset(r);
    assert x in s <==> x in multiset(s);
  }

  /** The number of documents `.skip((page - 1) * limit)` passes over. */
  function SkipCount(page: int, limit: int): int {
    (page - 1) * limit
  }

  /** The absolute value of a limit: Mongo reads a negative limit as its absolute value. */
  function Abs(n: int): nat {
    if n < 0 then -n else n
  }

  /** How many of `n` documents a page shows: none once the skip passes them all,
      otherwise the smaller of |limit| and what remains after the skip. */
  function PageSize(n: nat, page: int, limit: int): nat {
    var skip := SkipCount(page, limit);
    if skip >= n then 0
    else if Abs(limit) < n - skip then Abs(limit)
    else n - skip
  }

  /** `.skip((page - 1) * limit).limit(limit)`. A negative skip is refused by the database
      (None); otherwise the result is the run of at most |limit| documents starting
      after the skipped ones. */
  function PageOf<T>(s: seq<T>, page: int, limit: int): (r: Option<seq<T>>)
    requires limit != 0
    ensures r.None? <==> SkipCount(page, limit) < 0
    ensures r.Some? ==> |r.value| <= Abs(limit)
    ensures r.Some? ==> r.value == [] || SkipCount(page, limit) + |r.value| <= |s|
    ensures r.Some? ==> forall k :: 0 <= k < |r.value| ==> r.value[k] == s[SkipCount(page, limit) + k]
    ensures r.Some? && SkipCount(page, limit) + Abs(limit) <= |s| ==> |r.value| == Abs(limit)
    ensures r.Some? && SkipCount(page, limit) >= |s| ==> r.value == []
    ensures r.Some? ==> |r.value| == PageSize(|s|, page, limit)
  {
    var skip := SkipCount(page, limit);
    if skip < 0 then None
    else
      var from := if skip < |s| then skip else |s|;
      var to := if skip + Abs(limit) < |s| then skip + Abs(limit) else |s|;
      Some(s[from..to])
  }

  /** The ids of a collection in natural order: each stored document once, nothing else. */
  ghost predicate Indexes<K, V>(order: seq<K>, m: map<K, V>) {
    && (forall i, j :: 0 <= i < j < |order| ==> order[i] != order[j])
    && (forall i :: 0 <= i < |order| ==> order[i] in m)
    && (forall k :: k in m ==> k in order)
  }

  /** Inserting a document under a fresh id at the end of the natural order. */
  lemma IndexesAppend<K, V>(order: seq<K>, m: map<K, V>, k: K, v: V)
    requires Indexes(order, m) && k !in m
    ensures Indexes(order + [k], m[k := v])
  {
  }

  /** Replacing the document under an existing id keeps the natural order. */
  lemma IndexesReplace<K, V>(order: seq<K>, m: map<K, V>, k: K, v: V)
    requires Indexes(order, m) && k in m
    ensures Indexes(order, m[k := v])
  {
  }

  /** Filtering a list without repetitions keeps it without repetitions. */
  lemma {:induction false} FilterDistinct<T>(s: seq<T>, p: T -> bool)
    requires forall i, j :: 0 <= i < j < |s| ==> s[i] != s[j]
    ensures forall i, j :: 0 <= i < j < |Filter(s, p)| ==> Filter(s, p)[i] != Filter(s, p)[j]
  {
    if s != [] {
      var tail := s[1..];
      assert forall i, j :: 0 <= i < j < |tail| ==> tail[i] != tail[j] by {
        forall i, j | 0 <= i < j < |tail| ensures tail[i] != tail[j] {
          assert tail[i] == s[i + 1] && tail[j] == s[j + 1];
        }
      }
      FilterDistinct(tail, p);
      assert s[0] !in tail by {
        forall k | 0 <= k < |tail| ensures tail[k] != s[0] {
          assert tail[k] == s[k + 1];
        }
      }
    }
  }

  /** Deleting every document whose id fails `keep` (a `deleteMany`): the filtered natural
      order indexes exactly the documents kept. */
  lemma IndexesFilter<K, V>(order: seq<K>, m: map<K, V>, keep: K -> bool, kept: map<K, V>)
    requires Indexes(order, m)
    requires forall k :: k in kept <==> k in m && keep(k)
    ensures Indexes(Filter(order, keep), kept)
  {
    FilterDistinct(order, keep);
    forall k | k in kept ensures k in Filter(order, keep) {
      var i :| 0 <= i < |order| && order[i] == k;
    }
  }

  /** The documents of a collection, in the natural order `order` gives. */
  function Collect<K, V>(order: seq<K>, m: map<K, V>): (r: seq<V>)
    requires forall i :: 0 <= i < |order| ==> order[i] in m
    ensures |r| == |order|
    ensures forall i :: 0 <= i < |order| ==> r[i] == m[order[i]]
  {
    if order == [] then [] else [m[order[0]]] + Collect(order[1..], m)
  }

  /** One page of a listing and the pagination over every match. */
  datatype Page<T> = Page(items: seq<T>, pagination: Pagination.PaginationResult)

  /** A listing handler's query: count the matches for `total`, then find them, sort them
      by descending `key`, skip `(page - 1) * limit` and take `limit`. None when the
      database refuses the negative skip. */
  function ListPage<T>(docs: seq<T>, matches: T -> bool, key: T -> int, page: int, limit: int): (r: Option<Page<T>>)
    requires limit != 0
    ensures r.None? <==> SkipCount(page, limit) < 0
    ensures r.Some? ==> forall i :: 0 <= i < |r.value.items| ==>
      r.value.items[i] in docs && matches(r.value.items[i])
    ensures r.Some? ==> SortedDesc(r.value.items, key)
    ensures r.Some? ==> |r.value.items| <= Abs(limit)
    ensures r.Some? ==> |r.value.items| == PageSize(Count(docs, matches), page, limit)
    ensures r.Some? ==> r.value.items == [] || SkipCount(page, limit) + |r.value.items| <= Count(docs, matches)
    ensures r.Some? ==> forall k :: 0 <= k < |r.value.items| ==>
      r.value.items[k] == SortDesc(Filter(docs, matches), key)[SkipCount(page, limit) + k]
    ensures r.Some? ==> r.value.pagination == Pagination.GeneratePagination(Count(docs, matches), page, limit)
  {
    var matching := Filter(docs, matches);
    var sorted := SortDesc(matching, key);
    match PageOf(sorted, page, limit)
    case None => None
    case Some(items) =>
      assert forall i :: 0 <= i < |items| ==> items[i] in matching by {
        forall i | 0 <= i < |items| ensures items[i] in matching {
          SortDescSameMembers(matching, key, items[i]);
        }
      }
      SortedSlice(sorted, key, items, SkipCount(page, limit));
      assert forall k :: 0 <= k < |items| ==> items[k] == sorted[SkipCount(page, limit) + k];
      Some(Page(items, Pagination.GeneratePagination(|matching|, page, limit)))
  }

  /** A contiguous run of a sorted sequence is sorted. */
  lemma SortedSlice<T>(s: seq<T>, key: T -> int, run: seq<T>, from: int)
    requires SortedDesc(s, key)
    requires run == [] || (0 <= from && from + |run| <= |s|)
    requires forall k :: 0 <= k < |run| ==> run[k] == s[from + k]
    ensures SortedDesc(run, key)
  {
  }

  /** The first page, when the limit covers every match, lists exactly the matches. */
  lemma {:induction false} FirstPageComplete<T>(docs: seq<T>, matches: T -> bool, key: T -> int, limit: int, x: T)
    requires limit >= Count(docs, matches) && limit > 0
    ensures ListPage(docs, matches, key, 1, limit).Some?
    ensures x in ListPage(docs, matches, key, 1, limit).value.items <==> x in docs && matches(x)
  {
    var matching := Filter(docs, matches);
    var sorted := SortDesc(matching, key);
    var items := ListPage(docs, matches, key, 1, limit).value.items;
    assert |items| == |sorted| by {
      var p := PageOf(sorted, 1, limit);
      assert SkipCount(1, limit) == 0;
    }
    assert items == sorted;
    SortDescSameMembers(matching, key, x);
    if x in docs && matches(x) {
      var i :| 0 <= i < |docs| && docs[i] == x;
    }
  }
}
