/** The check-then-act toggle shared by likes and subscriptions: look the edge up; when there is
    none create one, otherwise delete the one found by its id. */
module Toggles {
  import opened Common
  import opened Query

  datatype Toggled<T> = Created(edge: T) | Removed(edge: T)

  /** Toggle the edge that `matches` describes; `edge` is the document created when none exists. */
  function Toggle<T(!new)>(s: seq<T>, matches: T -> bool, key: T -> Id, edge: T): (r: (Toggled<T>, seq<T>))
    ensures r.0.Created? <==> forall x :: x in s ==> !matches(x)
    ensures r.0.Created? ==> r.0.edge == edge && r.1 == s + [edge]
    ensures r.0.Removed? ==> r.0.edge in s && matches(r.0.edge)
    ensures r.0.Removed? ==> |r.1| == |s| - 1
  {
    match FindOne(s, matches)
    case None => (Created(edge), s + [edge])
    case Some(x) =>
      assert HasKey(key, key(x))(x);
      (Removed(x), FindOneAndDelete(s, HasKey(key, key(x))))
  }

  /** In a keyed collection the toggle deletes exactly the first matching edge. */
  lemma RemovesFirstMatch<T(!new)>(s: seq<T>, matches: T -> bool, key: T -> Id, edge: T, bound: nat)
    requires Keyed(s, key, bound)
    requires Toggle(s, matches, key, edge).0.Removed?
    ensures IndexOf(s, matches) < |s|
    ensures Toggle(s, matches, key, edge).1 == FindOneAndDelete(s, matches)
  {
    var i := IndexOf(s, matches);
    KeyedFirstIsOnly(s, key, bound, i);
  }

  /** A toggle flips the number of matching edges between 0 and 1. */
  lemma ToggleCount<T(!new)>(s: seq<T>, matches: T -> bool, key: T -> Id, edge: T, bound: nat)
    requires Keyed(s, key, bound) && matches(edge)
    requires |Find(s, matches)| <= 1
    ensures |Find(Toggle(s, matches, key, edge).1, matches)| == 1 - |Find(s, matches)|
  {
    var r := Toggle(s, matches, key, edge);
    if r.0.Created? {
      FindConcat(s, [edge], matches);
      FindSingleton(edge, matches);
      FindEmpty(s, matches);
    } else {
      RemovesFirstMatch(s, matches, key, edge, bound);
      FindAfterDeleteHit(s, matches, matches);
      FindEmpty(s, matches);
    }
  }

  /** Toggling twice, starting where no edge matches, gives back the very same collection: the
      first toggle appends the new edge and the second deletes it again. */
  lemma ToggleTwiceFromAbsent<T(!new)>(s: seq<T>, matches: T -> bool, key: T -> Id, edge: T, edge': T, bound: nat)
    requires Keyed(s, key, bound) && key(edge) == bound && matches(edge)
    requires forall x :: x in s ==> !matches(x)
    ensures Toggle(s, matches, key, edge) == (Created(edge), s + [edge])
    ensures Toggle(s + [edge], matches, key, edge') == (Removed(edge), s)
  {
    var t := s + [edge];
    var n := |s|;
    assert t[n] == edge;
    assert forall i :: 0 <= i < n ==> t[i] in s;
    assert IndexOf(t, matches) == n;
    KeyedFresh(s, key, bound);
    assert HasKey(key, bound)(t[n]);
    assert IndexOf(t, HasKey(key, bound)) == n;
    assert FindOne(t, matches) == Some(edge);
    assert t[..n] + t[n + 1..] == s;
  }

  /** A toggle leaves every find that cannot see the toggled pair exactly as it was. */
  lemma ToggleOthersUnchanged<T(!new)>(s: seq<T>, matches: T -> bool, key: T -> Id, edge: T, bound: nat, q: T -> bool)
    requires Keyed(s, key, bound) && matches(edge)
    requires forall x :: matches(x) ==> !q(x)
    ensures Find(Toggle(s, matches, key, edge).1, q) == Find(s, q)
  {
    var r := Toggle(s, matches, key, edge);
    if r.0.Created? {
      FindConcat(s, [edge], q);
      FindSingleton(edge, q);
    } else {
      RemovesFirstMatch(s, matches, key, edge, bound);
      FindAfterDelete(s, matches, q);
    }
  }

  /** A toggle never adds to a find that the new edge would not satisfy. */
  lemma ToggleNeverGrowsOthers<T(!new)>(s: seq<T>, matches: T -> bool, key: T -> Id, edge: T, bound: nat, q: T -> bool)
    requires Keyed(s, key, bound) && !q(edge)
    ensures |Find(Toggle(s, matches, key, edge).1, q)| <= |Find(s, q)|
  {
    var r := Toggle(s, matches, key, edge);
    if r.0.Created? {
      FindConcat(s, [edge], q);
      FindSingleton(edge, q);
    } else {
      RemovesFirstMatch(s, matches, key, edge, bound);
      var i := IndexOf(s, matches);
      if q(s[i]) {
        FindAfterDeleteHit(s, matches, q);
      } else {
        FindAfterDelete(s, matches, q);
      }
    }
  }

  /** The toggle keeps the collection keyed when the new edge carries the next fresh key. */
  lemma ToggleKeyed<T(!new)>(s: seq<T>, matches: T -> bool, key: T -> Id, edge: T, bound: nat)
    requires Keyed(s, key, bound) && key(edge) == bound
    ensures Keyed(Toggle(s, matches, key, edge).1, key, bound + 1)
  {
    var r := Toggle(s, matches, key, edge);
    if r.0.Created? {
      KeyedAppend(s, key, bound, edge);
    } else {
      KeyedDelete(s, key, bound, HasKey(key, key(r.0.edge)));
      KeyedGrow(r.1, key, bound, bound + 1);
    }
  }
}
