/** The document-store queries the controllers issue, over a collection kept in insertion order:
    find, findOne, findOneAndDelete, findOneAndUpdate, skip/limit paging, and the two
    update operators $addToSet and $pull. */
module Query {
  import opened Common

  /** `find(filter)`: the matching documents, in collection order. */
  function Find<T(!new)>(s: seq<T>, p: T -> bool): (r: seq<T>)
    ensures |r| <= |s|
    ensures forall x :: x in r <==> x in s && p(x)
  {
    if s == [] then []
    else
      assert s == [s[0]] + s[1..];
      if p(s[0]) then [s[0]] + Find(s[1..], p) else Find(s[1..], p)
  }

  lemma {:induction false} FindConcat<T(!new)>(a: seq<T>, b: seq<T>, p: T -> bool)
    ensures Find(a + b, p) == Find(a, p) + Find(b, p)
  {
    if a != [] {
      var ab := a + b;
      assert ab[0] == a[0] && ab[1..] == a[1..] + b;
      FindConcat(a[1..], b, p);
      var head := if p(a[0]) then [a[0]] else [];
      assert Find(ab, p) == head + (Find(a[1..], p) + Find(b, p));
      SeqAssoc(head, Find(a[1..], p), Find(b, p));
    } else {
      assert a + b == b;
    }
  }

  /** A find with a filter nothing satisfies is empty, and conversely. */
  lemma FindEmpty<T(!new)>(s: seq<T>, p: T -> bool)
    ensures Find(s, p) == [] <==> forall x :: x in s ==> !p(x)
  {
    if Find(s, p) != [] {
      assert Find(s, p)[0] in Find(s, p);
    }
  }

  lemma FindSingleton<T(!new)>(x: T, p: T -> bool)
    ensures Find([x], p) == if p(x) then [x] else []
  {
    assert [x][1..] == [];
  }

  /** Cutting a collection around position i cuts every find the same way. */
  lemma FindSplit<T(!new)>(s: seq<T>, i: nat, p: T -> bool)
    requires i < |s|
    ensures Find(s, p) == Find(s[..i], p) + Find([s[i]], p) + Find(s[i + 1..], p)
    ensures Find(s[..i] + s[i + 1..], p) == Find(s[..i], p) + Find(s[i + 1..], p)
  {
    var a, b, c := s[..i], [s[i]], s[i + 1..];
    assert Find(s, p) == Find(a, p) + (Find(b, p) + Find(c, p)) by {
      SplitAt(s, i);
      FindConcat(a, b + c, p);
      FindConcat(b, c, p);
    }
    SeqAssoc(Find(a, p), Find(b, p), Find(c, p));
    FindConcat(a, c, p);
  }

  lemma SeqAssoc<T>(a: seq<T>, b: seq<T>, c: seq<T>)
    ensures a + (b + c) == a + b + c
  {
  }

  lemma SplitAt<T>(s: seq<T>, i: nat)
    requires i < |s|
    ensures s == s[..i] + ([s[i]] + s[i + 1..])
  {
    assert s[i..] == [s[i]] + s[i + 1..];
    assert s == s[..i] + s[i..];
  }

  /** Position of the first document the filter accepts, or |s| when there is none. */
  function IndexOf<T>(s: seq<T>, p: T -> bool): (i: nat)
    ensures i <= |s|
    ensures i < |s| ==> p(s[i])
    ensures forall j :: 0 <= j < i ==> !p(s[j])
  {
    if s == [] then 0 else if p(s[0]) then 0 else 1 + IndexOf(s[1..], p)
  }

  lemma IndexOfNone<T>(s: seq<T>, p: T -> bool)
    ensures IndexOf(s, p) == |s| <==> forall x :: x in s ==> !p(x)
  {
    var i := IndexOf(s, p);
    if i < |s| { assert s[i] in s; }
    else {
      forall x | x in s ensures !p(x) {
        var j :| 0 <= j < |s| && s[j] == x;
      }
    }
  }

  /** Two filters that agree on every document of s find the same first document. */
  lemma {:induction false} IndexOfAgree<T>(s: seq<T>, p: T -> bool, q: T -> bool)
    requires forall j :: 0 <= j < |s| ==> p(s[j]) == q(s[j])
    ensures IndexOf(s, p) == IndexOf(s, q)
    ensures FindOneAndDelete(s, p) == FindOneAndDelete(s, q)
  {
    if s != [] && !p(s[0]) {
      IndexOfAgree(s[1..], p, q);
    }
  }

  /** `findOne(filter)`: the first matching document, in collection order. */
  function FindOne<T(!new)>(s: seq<T>, p: T -> bool): (r: Option<T>)
    ensures r.None? <==> forall x :: x in s ==> !p(x)
    ensures r.Some? ==> r.value in s && p(r.value)
    ensures r.Some? ==> Find(s, p) != [] && r.value == Find(s, p)[0]
    ensures r.Some? ==> IndexOf(s, p) < |s| && r.value == s[IndexOf(s, p)]
  {
    IndexOfNone(s, p);
    var i := IndexOf(s, p);
    if i < |s| then FirstOfFind(s, p); Some(s[i]) else None
  }

  lemma {:induction false} FirstOfFind<T(!new)>(s: seq<T>, p: T -> bool)
    requires IndexOf(s, p) < |s|
    ensures Find(s, p) != [] && Find(s, p)[0] == s[IndexOf(s, p)]
  {
    if !p(s[0]) {
      FirstOfFind(s[1..], p);
    }
  }

  /** `findOneAndDelete(filter)` (also `findByIdAndDelete`): the first matching document is removed. */
  function FindOneAndDelete<T>(s: seq<T>, p: T -> bool): (r: seq<T>)
    ensures IndexOf(s, p) == |s| ==> r == s
    ensures IndexOf(s, p) < |s| ==> r == s[..IndexOf(s, p)] + s[IndexOf(s, p) + 1..]
  {
    var i := IndexOf(s, p);
    if i < |s| then s[..i] + s[i + 1..] else s
  }

  /** `findOneAndUpdate(filter, change)` (also `findByIdAndUpdate`): the first matching document is
      replaced by `f` of itself, every other document stays where and as it was. */
  function FindOneAndUpdate<T>(s: seq<T>, p: T -> bool, f: T -> T): (r: seq<T>)
    ensures |r| == |s|
    ensures forall j :: 0 <= j < |s| && j != IndexOf(s, p) ==> r[j] == s[j]
    ensures IndexOf(s, p) < |s| ==> r[IndexOf(s, p)] == f(s[IndexOf(s, p)])
  {
    var i := IndexOf(s, p);
    if i < |s| then s[i := f(s[i])] else s
  }

  /** A find that cannot see the deleted document returns what it returned before the delete. */
  lemma FindAfterDelete<T(!new)>(s: seq<T>, p: T -> bool, q: T -> bool)
    requires IndexOf(s, p) < |s| ==> !q(s[IndexOf(s, p)])
    ensures Find(FindOneAndDelete(s, p), q) == Find(s, q)
  {
    var i := IndexOf(s, p);
    if i < |s| {
      FindWithout(s, i, q);
    }
  }

  lemma FindWithout<T(!new)>(s: seq<T>, i: nat, q: T -> bool)
    requires i < |s| && !q(s[i])
    ensures Find(s[..i] + s[i + 1..], q) == Find(s, q)
  {
    FindSplit(s, i, q);
    FindSingleton(s[i], q);
    var fa, fc := Find(s[..i], q), Find(s[i + 1..], q);
    assert fa + [] == fa;
  }

  /** Deleting a document the find does see shortens its result by exactly that document. */
  lemma FindAfterDeleteHit<T(!new)>(s: seq<T>, p: T -> bool, q: T -> bool)
    requires IndexOf(s, p) < |s| && q(s[IndexOf(s, p)])
    ensures |Find(FindOneAndDelete(s, p), q)| == |Find(s, q)| - 1
  {
    var i := IndexOf(s, p);
    FindSplit(s, i, q);
    FindSingleton(s[i], q);
  }

  /** A find that sees neither the old nor the new version of the updated document is unaffected. */
  lemma FindAfterUpdate<T(!new)>(s: seq<T>, p: T -> bool, f: T -> T, q: T -> bool)
    requires IndexOf(s, p) < |s| ==> !q(s[IndexOf(s, p)]) && !q(f(s[IndexOf(s, p)]))
    ensures Find(FindOneAndUpdate(s, p, f), q) == Find(s, q)
  {
    var i := IndexOf(s, p);
    if i < |s| {
      var r := FindOneAndUpdate(s, p, f);
      assert r[..i] == s[..i] && r[i + 1..] == s[i + 1..];
      FindSplit(s, i, q);
      FindSplit(r, i, q);
      FindSingleton(s[i], q);
      FindSingleton(r[i], q);
    }
  }

  /** The document findOneAndUpdate returns with `{ new: true }`. */
  function UpdatedOne<T(!new)>(s: seq<T>, p: T -> bool, f: T -> T): (r: Option<T>)
    ensures r.None? <==> FindOne(s, p).None?
    ensures r.Some? ==> r.value == f(FindOne(s, p).value)
  {
    match FindOne(s, p)
    case None => None
    case Some(x) => Some(f(x))
  }

  /** IndexOf is characterised by its ensures: the first position the filter accepts. */
  lemma {:induction false} IndexOfIs<T>(s: seq<T>, p: T -> bool, i: nat)
    requires i <= |s| && (i < |s| ==> p(s[i]))
    requires forall j :: 0 <= j < i ==> !p(s[j])
    ensures IndexOf(s, p) == i
  {
    if i > 0 {
      assert !p(s[0]);
      IndexOfIs(s[1..], p, i - 1);
    }
  }

  /** An update after which the document still matches leaves it the first match. */
  lemma UpdateKeepsFirst<T>(s: seq<T>, p: T -> bool, f: T -> T)
    requires IndexOf(s, p) < |s| ==> p(f(s[IndexOf(s, p)]))
    ensures IndexOf(FindOneAndUpdate(s, p, f), p) == IndexOf(s, p)
  {
    var i, r := IndexOf(s, p), FindOneAndUpdate(s, p, f);
    forall j | 0 <= j < i ensures !p(r[j]) {
      assert r[j] == s[j];
    }
    IndexOfIs(r, p, i);
  }

  /** An update that keeps keys leaves the document it updated the first one with its key. */
  lemma UpdateByKeyKeepsFirst<T>(s: seq<T>, key: T -> Id, k: Id, f: T -> T)
    requires forall x :: key(f(x)) == key(x)
    ensures IndexOf(FindOneAndUpdate(s, HasKey(key, k), f), HasKey(key, k)) == IndexOf(s, HasKey(key, k))
  {
    var i := IndexOf(s, HasKey(key, k));
    if i < |s| {
      assert key(f(s[i])) == key(s[i]);
    }
    UpdateKeepsFirst(s, HasKey(key, k), f);
  }

  /** A second update that maps the new version back to the old one restores the collection. */
  lemma UpdateUndone<T>(s: seq<T>, p: T -> bool, f: T -> T, g: T -> T)
    requires IndexOf(s, p) < |s| ==> p(f(s[IndexOf(s, p)])) && g(f(s[IndexOf(s, p)])) == s[IndexOf(s, p)]
    ensures FindOneAndUpdate(FindOneAndUpdate(s, p, f), p, g) == s
  {
    UpdateKeepsFirst(s, p, f);
  }

  /** An update that leaves the document it hits as it was changes nothing. */
  lemma UpdateFixed<T>(s: seq<T>, p: T -> bool, f: T -> T)
    requires IndexOf(s, p) < |s| ==> f(s[IndexOf(s, p)]) == s[IndexOf(s, p)]
    ensures FindOneAndUpdate(s, p, f) == s
  {
    var r := FindOneAndUpdate(s, p, f);
    assert forall j :: 0 <= j < |s| ==> r[j] == s[j];
  }

  /** An update by key that keeps keys does not change what a find by any other key returns. */
  lemma UpdateLeavesOtherKeys<T(!new)>(s: seq<T>, key: T -> Id, k: Id, f: T -> T, k': Id)
    requires k' != k && forall x :: key(f(x)) == key(x)
    ensures Find(FindOneAndUpdate(s, HasKey(key, k), f), HasKey(key, k')) == Find(s, HasKey(key, k'))
  {
    var i := IndexOf(s, HasKey(key, k));
    if i < |s| {
      assert key(s[i]) == k && key(f(s[i])) == k;
    }
    FindAfterUpdate(s, HasKey(key, k), f, HasKey(key, k'));
  }

  /** A delete by key does not change what a find by any other key returns. */
  lemma DeleteLeavesOtherKeys<T(!new)>(s: seq<T>, key: T -> Id, k: Id, k': Id)
    requires k' != k
    ensures Find(FindOneAndDelete(s, HasKey(key, k)), HasKey(key, k')) == Find(s, HasKey(key, k'))
  {
    var i := IndexOf(s, HasKey(key, k));
    if i < |s| {
      assert key(s[i]) == k;
    }
    FindAfterDelete(s, HasKey(key, k), HasKey(key, k'));
  }

  /** Element-wise projection, the shape of `$addFields` applied to every document. */
  function Map<T, U>(s: seq<T>, f: T -> U): (r: seq<U>)
    ensures |r| == |s|
    ensures forall i :: 0 <= i < |s| ==> r[i] == f(s[i])
  {
    if s == [] then [] else [f(s[0])] + Map(s[1..], f)
  }

  lemma MapMember<T, U>(s: seq<T>, f: T -> U, y: U)
    ensures y in Map(s, f) <==> exists x :: x in s && y == f(x)
  {
    if y in Map(s, f) {
      var i :| 0 <= i < |s| && Map(s, f)[i] == y;
      assert s[i] in s;
    }
    if exists x :: x in s && y == f(x) {
      var x :| x in s && y == f(x);
      var i :| 0 <= i < |s| && s[i] == x;
      assert Map(s, f)[i] == y;
    }
  }

  /** `$addToSet`: append x unless it is already present. */
  function AddToSet<T(==,!new)>(s: seq<T>, x: T): (r: seq<T>)
    ensures x in r
    ensures forall y :: y in r <==> y in s || y == x
    ensures x in s ==> r == s
  {
    if x in s then s else s + [x]
  }

  /** `$pull`: remove every occurrence of x. */
  function Pull<T(==,!new)>(s: seq<T>, x: T): (r: seq<T>)
    ensures x !in r
    ensures forall y :: y in r <==> y in s && y != x
  {
    if s == [] then []
    else if s[0] == x then Pull(s[1..], x)
    else [s[0]] + Pull(s[1..], x)
  }

  /** How often x occurs in s. */
  function Occurrences<T(==)>(s: seq<T>, x: T): nat
  {
    multiset(s)[x]
  }

  /** A set-insert leaves exactly one copy of x in a sequence that held at most one. */
  lemma AddToSetOnce<T(!new)>(s: seq<T>, x: T)
    requires Occurrences(s, x) <= 1
    ensures Occurrences(AddToSet(s, x), x) == 1
  {
    if x !in s {
      assert multiset(s)[x] == 0;
      assert multiset(s + [x]) == multiset(s) + multiset{x};
    }
  }

  /** How many documents `.skip((page - 1) * limit)` passes over. */
  function Skipped(page: nat, limit: nat): nat
    requires page >= 1
  {
    (page - 1) * limit
  }

  /** `.skip((page - 1) * limit).limit(limit)` */
  function Page<T>(s: seq<T>, page: nat, limit: nat): (r: seq<T>)
    requires page >= 1 && limit >= 1
    ensures |r| <= limit
    ensures |r| == if Skipped(page, limit) >= |s| then 0
                   else if |s| - Skipped(page, limit) < limit then |s| - Skipped(page, limit)
                   else limit
    ensures forall i :: 0 <= i < |r| ==> Skipped(page, limit) + i < |s| && r[i] == s[Skipped(page, limit) + i]
  {
    var start := Skipped(page, limit);
    if start >= |s| then []
    else if start + limit <= |s| then s[start..start + limit]
    else s[start..]
  }

  /** `Math.ceil(count / limit)` for a positive limit. */
  function CeilDiv(count: nat, limit: nat): (q: nat)
    requires limit >= 1
    ensures q * limit >= count
    ensures count > 0 ==> (q - 1) * limit < count
    ensures count == 0 ==> q == 0
  {
    (count + limit - 1) / limit
  }

  /** Every position of a list lies on exactly one page: item i is item `i % limit` of page
      `i / limit + 1`, and that page is never beyond the last one. */
  lemma {:induction false} PageCovers<T>(s: seq<T>, limit: nat, i: nat)
    requires limit >= 1 && i < |s|
    ensures 1 <= i / limit + 1 <= CeilDiv(|s|, limit)
    ensures i % limit < |Page(s, i / limit + 1, limit)|
    ensures Page(s, i / limit + 1, limit)[i % limit] == s[i]
  {
    var q, r := i / limit, i % limit;
    assert i == q * limit + r;
    assert (q + 1 - 1) * limit == q * limit;
    var c := CeilDiv(|s|, limit);
    if c < q + 1 {
      assert c * limit <= q * limit by { MulMonotone(c, q, limit); }
    }
  }

  /** The last page holds the remainder of the count, or a full page when the count divides evenly. */
  lemma {:induction false} LastPageSize<T>(s: seq<T>, limit: nat)
    requires limit >= 1 && |s| > 0
    ensures CeilDiv(|s|, limit) >= 1
    ensures |Page(s, CeilDiv(|s|, limit), limit)| == if |s| % limit == 0 then limit else |s| % limit
  {
    var n, c := |s|, CeilDiv(|s|, limit);
    var start := (c - 1) * limit;
    var d := n - start;
    assert 1 <= d <= limit by {
      assert c * limit == start + limit;
    }
    assert |Page(s, c, limit)| == d;
    if d == limit {
      assert n == c * limit + 0;
      ModExact(c, 0, limit);
    } else {
      assert n == (c - 1) * limit + d;
      ModExact(c - 1, d, limit);
    }
  }

  lemma MulMonotone(a: nat, b: nat, m: nat)
    requires a <= b
    ensures a * m <= b * m
  {
  }

  /** A page past the last one skips every match. */
  lemma SkippedPastLastPage(n: nat, page: nat, limit: nat)
    requires limit >= 1 && page > CeilDiv(n, limit)
    ensures Skipped(page, limit) >= n
  {
    MulMonotone(CeilDiv(n, limit), page - 1, limit);
  }

  /** (q*m + k) / m == q and (q*m + k) % m == k for 0 <= k < m. */
  lemma ModExact(q: nat, k: nat, m: nat)
    requires m >= 1 && k < m
    ensures (q * m + k) / m == q && (q * m + k) % m == k
  {
    var n := q * m + k;
    var d := n / m;
    assert n == d * m + n % m;
    if d < q {
      assert d * m <= (q - 1) * m by { MulMonotone(d, q - 1, m); }
    } else if d > q {
      assert (q + 1) * m <= d * m by { MulMonotone(q + 1, d, m); }
    }
  }

  /** Documents carry pairwise-distinct keys, all below `bound` (the next key to be handed out). */
  ghost predicate Keyed<T>(s: seq<T>, key: T -> Id, bound: nat)
  {
    && (forall i :: 0 <= i < |s| ==> key(s[i]) < bound)
    && (forall i, j :: 0 <= i < j < |s| ==> key(s[i]) != key(s[j]))
  }

  lemma KeyedGrow<T>(s: seq<T>, key: T -> Id, bound: nat, bound': nat)
    requires Keyed(s, key, bound) && bound <= bound'
    ensures Keyed(s, key, bound')
  {
  }

  lemma KeyedAppend<T>(s: seq<T>, key: T -> Id, bound: nat, x: T)
    requires Keyed(s, key, bound) && key(x) == bound
    ensures Keyed(s + [x], key, bound + 1)
  {
  }

  lemma KeyedDelete<T>(s: seq<T>, key: T -> Id, bound: nat, p: T -> bool)
    requires Keyed(s, key, bound)
    ensures Keyed(FindOneAndDelete(s, p), key, bound)
  {
    var i := IndexOf(s, p);
    if i < |s| {
      var r := s[..i] + s[i + 1..];
      forall j, k | 0 <= j < k < |r| ensures key(r[j]) != key(r[k]) {
        var j', k' := if j < i then j else j + 1, if k < i then k else k + 1;
        assert r[j] == s[j'] && r[k] == s[k'];
      }
      forall j | 0 <= j < |r| ensures key(r[j]) < bound {
        assert r[j] == s[if j < i then j else j + 1];
      }
    }
  }

  lemma KeyedUpdate<T>(s: seq<T>, key: T -> Id, bound: nat, p: T -> bool, f: T -> T)
    requires Keyed(s, key, bound)
    requires forall x :: key(f(x)) == key(x)
    ensures Keyed(FindOneAndUpdate(s, p, f), key, bound)
  {
  }

  /** No document of s carries key k. */
  ghost predicate KeyAbsent<T>(s: seq<T>, key: T -> Id, k: Id)
  {
    forall x :: x in s ==> key(x) != k
  }

  lemma KeyedFresh<T>(s: seq<T>, key: T -> Id, bound: nat)
    requires Keyed(s, key, bound)
    ensures KeyAbsent(s, key, bound)
  {
  }

  /** The filter "key equals k". */
  function HasKey<T>(key: T -> Id, k: Id): T -> bool
  {
    x => key(x) == k
  }

  /** In a keyed collection, the first document with a given key is the only one. */
  lemma KeyedFirstIsOnly<T>(s: seq<T>, key: T -> Id, bound: nat, i: nat)
    requires Keyed(s, key, bound) && i < |s|
    ensures IndexOf(s, HasKey(key, key(s[i]))) == i
  {
    assert HasKey(key, key(s[i]))(s[i]);
  }

  /** In a keyed collection, after an update by key that keeps keys, every document with that key is
      the updated one. */
  lemma KeyedUpdateHit<T>(s: seq<T>, key: T -> Id, bound: nat, k: Id, f: T -> T)
    requires Keyed(s, key, bound) && IndexOf(s, HasKey(key, k)) < |s|
    requires forall x :: key(f(x)) == key(x)
    ensures forall x :: x in FindOneAndUpdate(s, HasKey(key, k), f) && key(x) == k ==> x == f(s[IndexOf(s, HasKey(key, k))])
  {
    var r := FindOneAndUpdate(s, HasKey(key, k), f);
    KeyedUpdate(s, key, bound, HasKey(key, k), f);
    UpdateByKeyKeepsFirst(s, key, k, f);
    forall x | x in r && key(x) == k ensures x == f(s[IndexOf(s, HasKey(key, k))]) {
      var i :| 0 <= i < |r| && r[i] == x;
      KeyedFirstIsOnly(r, key, bound, i);
    }
  }

  /** Deleting by its key the document just appended with a fresh key gives back the collection. */
  lemma DeleteAppended<T>(s: seq<T>, key: T -> Id, bound: nat, x: T)
    requires Keyed(s, key, bound) && key(x) == bound
    ensures FindOneAndDelete(s + [x], HasKey(key, bound)) == s
  {
    var t := s + [x];
    forall j | 0 <= j < |s| ensures !HasKey(key, bound)(t[j]) {
      assert t[j] == s[j];
    }
    IndexOfIs(t, HasKey(key, bound), |s|);
    assert t[..|s|] == s;
  }

  /** In a keyed collection a delete by key leaves no document with that key. */
  lemma DeleteRemovesKey<T>(s: seq<T>, key: T -> Id, bound: nat, k: Id)
    requires Keyed(s, key, bound)
    ensures KeyAbsent(FindOneAndDelete(s, HasKey(key, k)), key, k)
  {
    var i := IndexOf(s, HasKey(key, k));
    IndexOfNone(s, HasKey(key, k));
    if i < |s| {
      var r := FindOneAndDelete(s, HasKey(key, k));
      forall x | x in r ensures key(x) != k {
        var j :| 0 <= j < |r| && r[j] == x;
        assert r[j] == s[if j < i then j else j + 1];
      }
    } else {
      forall x | x in s ensures key(x) != k {
        assert !HasKey(key, k)(x);
      }
    }
  }
}
