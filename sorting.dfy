/** `sort({ field: 1 | -1 })` and `$sort` on an integer field: a stable sort, so documents with equal
    keys keep their collection order. */
module Sorting {
  import opened Query

  /** a may precede b when sorting by key, ascending or descending. */
  predicate InOrder<T>(a: T, b: T, key: T -> int, descending: bool)
  {
    if descending then key(a) >= key(b) else key(a) <= key(b)
  }

  ghost predicate Ordered<T>(s: seq<T>, key: T -> int, descending: bool)
  {
    forall i, j :: 0 <= i < j < |s| ==> InOrder(s[i], s[j], key, descending)
  }

  /** Put x in front of the first element it may precede; everything before it strictly precedes x. */
  function Insert<T>(x: T, s: seq<T>, key: T -> int, descending: bool): (r: seq<T>)
    ensures |r| == |s| + 1
    ensures multiset(r) == multiset(s) + multiset{x}
  {
    if s == [] then [x]
    else if InOrder(x, s[0], key, descending) then [x] + s
    else
      assert s == [s[0]] + s[1..];
      [s[0]] + Insert(x, s[1..], key, descending)
  }

  lemma {:induction false} InsertOrdered<T>(x: T, s: seq<T>, key: T -> int, descending: bool)
    requires Ordered(s, key, descending)
    ensures Ordered(Insert(x, s, key, descending), key, descending)
  {
    if s != [] && !InOrder(x, s[0], key, descending) {
      var rest := Insert(x, s[1..], key, descending);
      InsertOrdered(x, s[1..], key, descending);
      forall j | 0 <= j < |rest| ensures InOrder(s[0], rest[j], key, descending) {
        assert rest[j] in multiset(rest);
        if rest[j] != x {
          assert rest[j] in multiset(s[1..]);
          var k :| 0 <= k < |s[1..]| && s[1..][k] == rest[j];
          assert s[k + 1] == rest[j];
        }
      }
    }
  }

  /** The sort the store applies: insertion sort from the back, which keeps ties in input order. */
  function SortBy<T>(s: seq<T>, key: T -> int, descending: bool): (r: seq<T>)
    ensures multiset(r) == multiset(s)
    ensures Ordered(r, key, descending)
  {
    if s == [] then []
    else
      assert s == [s[0]] + s[1..];
      var rest := SortBy(s[1..], key, descending);
      InsertOrdered(s[0], rest, key, descending);
      Insert(s[0], rest, key, descending)
  }

  /** The filter "key equals k". */
  function KeyIs<T>(key: T -> int, k: int): T -> bool
  {
    x => key(x) == k
  }

  lemma {:induction false} InsertKeepsTies<T(!new)>(x: T, s: seq<T>, key: T -> int, descending: bool, k: int)
    ensures Find(Insert(x, s, key, descending), KeyIs(key, k))
         == if key(x) == k then [x] + Find(s, KeyIs(key, k)) else Find(s, KeyIs(key, k))
  {
    var p := KeyIs(key, k);
    if s == [] {
      assert Find([x], p) == (if p(x) then [x] else []) + Find([], p) by {
        assert [x][1..] == [];
      }
    } else if InOrder(x, s[0], key, descending) {
      assert ([x] + s)[1..] == s;
    } else {
      var rest := Insert(x, s[1..], key, descending);
      InsertKeepsTies(x, s[1..], key, descending, k);
      assert ([s[0]] + rest)[1..] == rest;
      assert key(s[0]) != key(x);
    }
  }

  /** Stability: the documents sharing any one key value come out in the order they went in. */
  lemma {:induction false} SortByStable<T(!new)>(s: seq<T>, key: T -> int, descending: bool, k: int)
    ensures Find(SortBy(s, key, descending), KeyIs(key, k)) == Find(s, KeyIs(key, k))
  {
    if s != [] {
      SortByStable(s[1..], key, descending, k);
      InsertKeepsTies(s[0], SortBy(s[1..], key, descending), key, descending, k);
    }
  }

  /** Any page of an ordered list is ordered. */
  lemma OrderedPage<T>(s: seq<T>, key: T -> int, descending: bool, page: nat, limit: nat)
    requires page >= 1 && limit >= 1 && Ordered(s, key, descending)
    ensures Ordered(Page(s, page, limit), key, descending)
  {
    var r, k := Page(s, page, limit), Skipped(page, limit);
    forall i, j | 0 <= i < j < |r| ensures InOrder(r[i], r[j], key, descending) {
      assert r[i] == s[k + i] && r[j] == s[k + j];
    }
  }

  /** Mapping each element to a row that carries its sort key keeps the order. */
  lemma OrderedMap<T, U>(s: seq<T>, key: T -> int, f: T -> U, rowKey: U -> int, descending: bool)
    requires Ordered(s, key, descending)
    requires forall x :: rowKey(f(x)) == key(x)
    ensures Ordered(Map(s, f), rowKey, descending)
  {
  }

  /** `find(filter).sort(...).skip(...).limit(...)`: one page of the sorted matches. */
  function FindSortedPage<T(!new)>(s: seq<T>, p: T -> bool, key: T -> int, descending: bool, page: nat, limit: nat)
    : (r: seq<T>)
    requires page >= 1 && limit >= 1
    ensures |r| <= limit
    ensures forall x :: x in r ==> x in s && p(x)
    ensures Ordered(r, key, descending)
    ensures r == Page(SortBy(Find(s, p), key, descending), page, limit)
  {
    var sorted := SortBy(Find(s, p), key, descending);
    var r := Page(sorted, page, limit);
    OrderedPage(sorted, key, descending, page, limit);
    forall x | x in r ensures x in multiset(Find(s, p)) {
      var i :| 0 <= i < |r| && r[i] == x;
      assert sorted[Skipped(page, limit) + i] == x;
    }
    r
  }

  /** Every match lies on one of the pages 1 to ceil(matches / limit). */
  lemma FindSortedPageCovers<T(!new)>(s: seq<T>, p: T -> bool, key: T -> int, descending: bool, limit: nat, x: T)
    requires limit >= 1 && x in s && p(x)
    ensures exists page: nat :: 1 <= page <= CeilDiv(|Find(s, p)|, limit) && x in FindSortedPage(s, p, key, descending, page, limit)
  {
    var matching := Find(s, p);
    var sorted := SortBy(matching, key, descending);
    assert x in multiset(sorted);
    var i :| 0 <= i < |sorted| && sorted[i] == x;
    PageCovers(sorted, limit, i);
    assert |sorted| == |matching| by {
      assert |multiset(sorted)| == |multiset(matching)|;
    }
    var page := i / limit + 1;
    assert x == FindSortedPage(s, p, key, descending, page, limit)[i % limit];
  }

  /** Pages past the last one are empty. */
  lemma FindSortedPagePastEnd<T(!new)>(s: seq<T>, p: T -> bool, key: T -> int, descending: bool, page: nat, limit: nat)
    requires limit >= 1 && page > CeilDiv(|Find(s, p)|, limit)
    ensures FindSortedPage(s, p, key, descending, page, limit) == []
  {
    var n, sorted := |Find(s, p)|, SortBy(Find(s, p), key, descending);
    assert |sorted| == n by {
      assert |multiset(sorted)| == |multiset(Find(s, p))|;
    }
    SkippedPastLastPage(n, page, limit);
  }
}
