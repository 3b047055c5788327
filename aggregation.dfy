/** The query, update and aggregation operators the controllers use, stated
    once over sequences kept in a collection's natural order:
    `findOne` (FirstIndex), `$match`/`$lookup` (Filter), `$size` (|Filter|),
    `$first`/`$last`, `$sum`, `$in`, `$unwind` (FlatMap), `$addToSet` and
    `$pull`. */
module Aggregation {
  import opened Basics

  /** The position of the first document satisfying `p`, as `findOne`
      returns it, or None when no document does. */
  function FirstIndex<T>(s: seq<T>, p: T -> bool): (r: Option<nat>)
    ensures r.Some? ==> r.value < |s| && p(s[r.value])
    ensures r.Some? ==> forall j :: 0 <= j < r.value ==> !p(s[j])
    ensures r.None? <==> forall j :: 0 <= j < |s| ==> !p(s[j])
  {
    if s == [] then None
    else if p(s[0]) then Some(0)
    else match FirstIndex(s[1..], p)
      case None => None
      case Some(k) => Some(k + 1)
  }

  /** The collection without its document at position `i`. */
  function RemoveAt<T>(s: seq<T>, i: nat): (r: seq<T>)
    requires i < |s|
    ensures |r| == |s| - 1
    ensures forall j :: 0 <= j < i ==> r[j] == s[j]
    ensures forall j :: i <= j < |r| ==> r[j] == s[j + 1]
  {
    s[..i] + s[i + 1..]
  }

  /** The documents satisfying `p`, in their order. */
  function Filter<T>(s: seq<T>, p: T -> bool): (r: seq<T>)
    ensures |r| <= |s|
    ensures forall i :: 0 <= i < |r| ==> r[i] in s && p(r[i])
    ensures forall i :: 0 <= i < |s| && p(s[i]) ==> s[i] in r
  {
    if s == [] then []
    else if p(s[0]) then [s[0]] + Filter(s[1..], p)
    else Filter(s[1..], p)
  }

  /** Filtering distributes over concatenation: filtering keeps relative order. */
  lemma {:induction false} FilterConcat<T>(a: seq<T>, b: seq<T>, p: T -> bool)
    ensures Filter(a + b, p) == Filter(a, p) + Filter(b, p)
  {
    if a != [] {
      assert (a + b)[0] == a[0] && (a + b)[1..] == a[1..] + b;
      FilterConcat(a[1..], b, p);
    } else {
      assert a + b == b;
    }
  }

  /** Removing one document leaves the documents of every other kind, in
      order, and removes one of its own kind. */
  lemma FilterRemoveAt<T>(s: seq<T>, i: nat, p: T -> bool)
    requires i < |s|
    ensures !p(s[i]) ==> Filter(RemoveAt(s, i), p) == Filter(s, p)
    ensures p(s[i]) ==> |Filter(RemoveAt(s, i), p)| == |Filter(s, p)| - 1
  {
    assert s == s[..i] + ([s[i]] + s[i + 1..]);
    FilterConcat(s[..i], [s[i]] + s[i + 1..], p);
    FilterConcat([s[i]], s[i + 1..], p);
    FilterConcat(s[..i], s[i + 1..], p);
  }

  /** Where a selected document stands in the collection. */
  lemma FilterSource<T>(s: seq<T>, p: T -> bool, k: nat) returns (i: nat)
    requires k < |Filter(s, p)|
    ensures i < |s| && s[i] == Filter(s, p)[k] && p(s[i])
  {
    i :| 0 <= i < |s| && s[i] == Filter(s, p)[k];
  }

  /** A condition no document satisfies matches nothing. */
  lemma {:induction false} FilterNone<T>(s: seq<T>, p: T -> bool)
    requires forall i :: 0 <= i < |s| ==> !p(s[i])
    ensures Filter(s, p) == []
  {
    if s != [] {
      FilterNone(s[1..], p);
    }
  }

  /** Widening a condition by one document that it did not select adds
      exactly that document to the selection, wherever it stands. */
  lemma {:induction false} FilterWidenByOne<T>(s: seq<T>, p: T -> bool, q: T -> bool, i: nat, f: T -> nat)
    requires i < |s| && !p(s[i]) && q(s[i])
    requires forall j :: 0 <= j < |s| && j != i ==> q(s[j]) == p(s[j])
    ensures |Filter(s, q)| == |Filter(s, p)| + 1
    ensures Sum(Filter(s, q), f) == Sum(Filter(s, p), f) + f(s[i])
  {
    var t := s[1..];
    assert forall j :: 0 <= j < |t| && j + 1 != i ==> q(t[j]) == p(t[j]) by {
      forall j | 0 <= j < |t| && j + 1 != i ensures q(t[j]) == p(t[j]) {
        assert t[j] == s[j + 1];
      }
    }
    if i == 0 {
      FilterExt(t, p, q);
      assert Filter(s, q) == [s[0]] + Filter(t, q);
      assert Filter(s, p) == Filter(t, p);
      assert ([s[0]] + Filter(t, q))[1..] == Filter(t, q);
    } else {
      FilterWidenByOne(t, p, q, i - 1, f);
      if p(s[0]) {
        assert Filter(s, q) == [s[0]] + Filter(t, q);
        assert Filter(s, p) == [s[0]] + Filter(t, p);
        assert ([s[0]] + Filter(t, q))[1..] == Filter(t, q);
        assert ([s[0]] + Filter(t, p))[1..] == Filter(t, p);
      }
    }
  }

  /** Appending one document adds it to its own kind only. */
  lemma FilterAppend<T>(s: seq<T>, x: T, p: T -> bool)
    ensures Filter(s + [x], p) == Filter(s, p) + (if p(x) then [x] else [])
  {
    FilterConcat(s, [x], p);
  }

  /** No two documents share a key. */
  ghost predicate Unique<T>(s: seq<T>, key: T -> Id) {
    forall i, j :: 0 <= i < j < |s| ==> key(s[i]) != key(s[j])
  }

  ghost function KeysWhere<T>(s: seq<T>, p: T -> bool, key: T -> Id): set<Id> {
    set x | x in s && p(x) :: key(x)
  }

  /** When keys are unique, the `$size` of a join is the number of distinct
      keys of the documents that satisfy its condition. */
  lemma {:induction false} FilterSizeIsKeyCount<T>(s: seq<T>, p: T -> bool, key: T -> Id)
    requires Unique(s, key)
    ensures |Filter(s, p)| == |KeysWhere(s, p, key)|
  {
    if s != [] {
      var t := s[1..];
      assert Unique(t, key) by {
        forall i, j | 0 <= i < j < |t| ensures key(t[i]) != key(t[j]) {
          assert t[i] == s[i + 1] && t[j] == s[j + 1];
        }
      }
      FilterSizeIsKeyCount(t, p, key);
      assert key(s[0]) !in KeysWhere(t, p, key) by {
        forall x | x in t ensures key(x) != key(s[0]) {
          var k :| 0 <= k < |t| && t[k] == x;
          assert s[k + 1] == x;
        }
      }
      if p(s[0]) {
        assert KeysWhere(s, p, key) == {key(s[0])} + KeysWhere(t, p, key) by {
          assert forall x :: x in s <==> x == s[0] || x in t;
        }
      } else {
        assert KeysWhere(s, p, key) == KeysWhere(t, p, key) by {
          assert forall x :: x in s <==> x == s[0] || x in t;
        }
      }
    }
  }

  /** Applies `f` to every document. */
  function Map<A, B>(s: seq<A>, f: A -> B): (r: seq<B>)
    ensures |r| == |s|
    ensures forall i :: 0 <= i < |s| ==> r[i] == f(s[i])
  {
    seq(|s|, i requires 0 <= i < |s| => f(s[i]))
  }

  lemma MapContains<A, B>(s: seq<A>, f: A -> B, x: A)
    requires x in s
    ensures f(x) in Map(s, f)
  {
    var k :| 0 <= k < |s| && s[k] == x;
    assert Map(s, f)[k] == f(x);
  }

  /** Each image of a filtered collection comes from a matching document. */
  lemma MapFilterSource<A, B>(s: seq<A>, p: A -> bool, f: A -> B, k: nat) returns (i: nat)
    requires k < |Filter(s, p)|
    ensures i < |s| && p(s[i]) && Map(Filter(s, p), f)[k] == f(s[i])
  {
    i := FilterSource(s, p, k);
  }

  /** An image in a filtered collection is the image of a matching document. */
  lemma MapFilterMember<A, B>(s: seq<A>, p: A -> bool, f: A -> B, y: B) returns (i: nat)
    requires y in Map(Filter(s, p), f)
    ensures i < |s| && p(s[i]) && y == f(s[i])
  {
    var k :| 0 <= k < |Filter(s, p)| && Map(Filter(s, p), f)[k] == y;
    i := MapFilterSource(s, p, f, k);
  }

  /** Each matching document has its image in the filtered collection. */
  lemma MapFilterContains<A, B>(s: seq<A>, p: A -> bool, f: A -> B, i: nat)
    requires i < |s| && p(s[i])
    ensures f(s[i]) in Map(Filter(s, p), f)
  {
    MapContains(Filter(s, p), f, s[i]);
  }

  lemma MapConcat<A, B>(a: seq<A>, b: seq<A>, f: A -> B)
    ensures Map(a + b, f) == Map(a, f) + Map(b, f)
  {
  }

  /** Replacing the element at `i` by one with the same image, moved to the
      end, keeps the multiset of images. */
  lemma MapRemoveAppend<A, B>(s: seq<A>, i: nat, x: A, f: A -> B)
    requires i < |s| && f(x) == f(s[i])
    ensures multiset(Map(RemoveAt(s, i) + [x], f)) == multiset(Map(s, f))
  {
    var a, b := s[..i], s[i + 1..];
    assert RemoveAt(s, i) == a + b;
    assert s == a + [s[i]] + b;
    MapConcat(a + b, [x], f);
    MapConcat(a, b, f);
    MapConcat(a + [s[i]], b, f);
    MapConcat(a, [s[i]], f);
    assert Map([x], f) == Map([s[i]], f);
  }

  /** `$unwind` after a `$lookup`: one output row per joined document, so a
      base document whose join is empty produces no row. */
  function FlatMap<A, B>(s: seq<A>, f: A -> seq<B>): (r: seq<B>)
    ensures forall k :: 0 <= k < |r| ==> exists i :: 0 <= i < |s| && r[k] in f(s[i])
  {
    if s == [] then [] else f(s[0]) + FlatMap(s[1..], f)
  }

  /** When each document joins at most one row, unwinding keeps exactly the
      documents whose join is non-empty. */
  lemma {:induction false} FlatMapOfSingletons<A, B>(s: seq<A>, f: A -> seq<B>)
    requires forall x :: x in s ==> |f(x)| <= 1
    ensures |FlatMap(s, f)| == |Filter(s, x => f(x) != [])|
  {
    if s != [] {
      FlatMapOfSingletons(s[1..], f);
    }
  }

  /** Two conditions that agree on every document select the same ones. */
  lemma {:induction false} FilterExt<T>(s: seq<T>, p: T -> bool, q: T -> bool)
    requires forall i :: 0 <= i < |s| ==> p(s[i]) == q(s[i])
    ensures Filter(s, p) == Filter(s, q)
  {
    if s != [] {
      FilterExt(s[1..], p, q);
    }
  }

  /** The condition `foreignField == id`. */
  function KeyIs<T>(key: T -> Id, id: Id): T -> bool {
    (y: T) => key(y) == id
  }

  lemma KeyIsApply<T>(key: T -> Id, id: Id, y: T)
    ensures KeyIs(key, id)(y) == (key(y) == id)
  {
  }

  /** The documents of `t` a `$lookup` joins to `x`, unwound and shaped by `out`. */
  function LookupRows<A, B, C>(local: A -> Id, t: seq<B>, foreign: B -> Id, out: (A, B) -> C): A -> seq<C> {
    (x: A) => Map(Filter(t, KeyIs(foreign, local(x))), (y: B) => out(x, y))
  }

  /** `$lookup` of `t` on `localField`/`foreignField` followed by `$unwind` of
      the joined array: one row per joined pair, in the order of `s` and,
      within one document, in the order of `t`. */
  function Lookup<A, B, C>(s: seq<A>, local: A -> Id, t: seq<B>, foreign: B -> Id, out: (A, B) -> C): seq<C> {
    FlatMap(s, LookupRows(local, t, foreign, out))
  }

  /** Every row of a lookup comes from a pair whose keys agree. */
  lemma LookupMember<A, B, C>(s: seq<A>, local: A -> Id, t: seq<B>, foreign: B -> Id, out: (A, B) -> C, c: C)
    requires c in Lookup(s, local, t, foreign, out)
    ensures exists i, j :: 0 <= i < |s| && 0 <= j < |t| && foreign(t[j]) == local(s[i])
                           && c == out(s[i], t[j])
  {
    var rows := Lookup(s, local, t, foreign, out);
    var f := LookupRows(local, t, foreign, out);
    var k :| 0 <= k < |rows| && rows[k] == c;
    var i :| 0 <= i < |s| && rows[k] in f(s[i]);
    var x := s[i];
    var joined := Filter(t, KeyIs(foreign, local(x)));
    var made := Map(joined, (y: B) => out(x, y));
    assert made == f(x);
    var n :| 0 <= n < |made| && made[n] == c;
    var y := joined[n];
    var j :| 0 <= j < |t| && t[j] == y;
    assert c == out(s[i], t[j]);
  }

  /** Every pair whose keys agree produces a row of the lookup. */
  lemma LookupContains<A, B, C>(s: seq<A>, local: A -> Id, t: seq<B>, foreign: B -> Id, out: (A, B) -> C,
                                i: nat, j: nat)
    requires i < |s| && j < |t| && foreign(t[j]) == local(s[i])
    ensures out(s[i], t[j]) in Lookup(s, local, t, foreign, out)
  {
    var x := s[i];
    var f := LookupRows(local, t, foreign, out);
    var joined := Filter(t, KeyIs(foreign, local(x)));
    assert t[j] in joined;
    var n :| 0 <= n < |joined| && joined[n] == t[j];
    var made := Map(joined, (y: B) => out(x, y));
    assert made == f(x);
    assert made[n] == out(s[i], t[j]);
    FlatMapContains(s, f, i, out(s[i], t[j]));
  }

  /** Under unique keys, no other document shares the key of the one at `i`. */
  lemma UniqueKeyAt<T>(s: seq<T>, key: T -> Id, i: nat)
    requires Unique(s, key) && i < |s|
    ensures forall k :: 0 <= k < |s| && k != i ==> key(s[k]) != key(s[i])
  {
    forall k | 0 <= k < |s| && k != i ensures key(s[k]) != key(s[i]) {
      if k < i { assert key(s[k]) != key(s[i]); } else { assert key(s[i]) != key(s[k]); }
    }
  }

  /** A condition that fixes a unique key matches at most one document. */
  lemma UniqueKeyMatchesAtMostOne<T>(s: seq<T>, key: T -> Id, p: T -> bool, id: Id)
    requires Unique(s, key)
    requires forall i :: 0 <= i < |s| && p(s[i]) ==> key(s[i]) == id
    ensures |Filter(s, p)| <= 1
  {
    FilterSizeIsKeyCount(s, p, key);
    var ks := KeysWhere(s, p, key);
    assert ks <= {id} by {
      forall k | k in ks ensures k == id {
        var x :| x in s && p(x) && key(x) == k;
        var i :| 0 <= i < |s| && s[i] == x;
      }
    }
    assert ks == {} || ks == {id} by {
      if id in ks { assert ks == {id}; } else { assert ks == {}; }
    }
  }

  /** Whether some document of `t` carries the key `local(x)`. */
  function HasMatch<A, B>(local: A -> Id, t: seq<B>, foreign: B -> Id): A -> bool {
    (x: A) => exists j :: 0 <= j < |t| && foreign(t[j]) == local(x)
  }

  /** A lookup on a unique foreign key keeps one row per document that has a
      partner and drops every document that has none. */
  lemma LookupOnUniqueKeySize<A, B, C>(s: seq<A>, local: A -> Id, t: seq<B>, foreign: B -> Id, out: (A, B) -> C)
    requires Unique(t, foreign)
    ensures |Lookup(s, local, t, foreign, out)| == |Filter(s, HasMatch(local, t, foreign))|
  {
    var f := LookupRows(local, t, foreign, out);
    forall x | x in s ensures |f(x)| <= 1 {
      forall j | 0 <= j < |t| && KeyIs(foreign, local(x))(t[j]) ensures foreign(t[j]) == local(x) {
        KeyIsApply(foreign, local(x), t[j]);
      }
      UniqueKeyMatchesAtMostOne(t, foreign, KeyIs(foreign, local(x)), local(x));
    }
    FlatMapOfSingletons(s, f);
    forall i | 0 <= i < |s| ensures (f(s[i]) != []) == HasMatch(local, t, foreign)(s[i]) {
      var joined := Filter(t, KeyIs(foreign, local(s[i])));
      if HasMatch(local, t, foreign)(s[i]) {
        var j :| 0 <= j < |t| && foreign(t[j]) == local(s[i]);
        assert t[j] in joined;
      }
      if joined != [] {
        var j :| 0 <= j < |t| && t[j] == joined[0];
      }
    }
    FilterExt(s, x => f(x) != [], HasMatch(local, t, foreign));
  }

  /** `$first` of a lookup is the first joined document in collection order. */
  lemma {:induction false} FirstOfFilter<T>(s: seq<T>, p: T -> bool)
    requires Filter(s, p) != []
    ensures exists i :: 0 <= i < |s| && p(s[i]) && First(Filter(s, p)) == Some(s[i])
                        && forall j :: 0 <= j < i ==> !p(s[j])
  {
    if p(s[0]) {
      assert First(Filter(s, p)) == Some(s[0]);
    } else {
      var t := s[1..];
      assert Filter(s, p) == Filter(t, p);
      FirstOfFilter(t, p);
      var i :| 0 <= i < |t| && p(t[i]) && First(Filter(t, p)) == Some(t[i])
               && forall j :: 0 <= j < i ==> !p(t[j]);
      assert s[i + 1] == t[i];
      assert forall j :: 0 < j < i + 1 ==> s[j] == t[j - 1];
    }
  }

  /** The position of the last document satisfying `p`: `$last` of a lookup
      is the last joined document in collection order. */
  lemma {:induction false} LastOfFilter<T>(s: seq<T>, p: T -> bool)
    ensures Last(Filter(s, p)).None? <==> forall j :: 0 <= j < |s| ==> !p(s[j])
    ensures Last(Filter(s, p)).Some? ==>
              exists i :: 0 <= i < |s| && p(s[i]) && Last(Filter(s, p)) == Some(s[i])
                          && forall j :: i < j < |s| ==> !p(s[j])
  {
    if s != [] {
      LastOfFilter(s[1..], p);
      var t := s[1..];
      if Filter(t, p) == [] {
        if p(s[0]) {
          assert Filter(s, p) == [s[0]];
          assert forall j :: 0 < j < |s| ==> s[j] == t[j - 1];
        }
      } else {
        assert Last(Filter(s, p)) == Last(Filter(t, p));
        var i :| 0 <= i < |t| && p(t[i]) && Last(Filter(t, p)) == Some(t[i])
                 && forall j :: i < j < |t| ==> !p(t[j]);
        assert s[i + 1] == t[i];
        assert forall j :: i + 1 < j < |s| ==> s[j] == t[j - 1];
      }
    }
  }

  /** `$first` of an array: absent when the array is empty. */
  function First<T>(s: seq<T>): (r: Option<T>)
    ensures r.None? <==> s == []
    ensures r.Some? ==> r.value == s[0]
  {
    if s == [] then None else Some(s[0])
  }

  /** `$last` of an array: absent when the array is empty. */
  function Last<T>(s: seq<T>): (r: Option<T>)
    ensures r.None? <==> s == []
    ensures r.Some? ==> r.value == s[|s| - 1]
  {
    if s == [] then None else Some(s[|s| - 1])
  }

  /** `$in: [actor, ids]`: an absent actor is never a member. */
  function ActorIn(actor: Option<Id>, ids: seq<Id>): (r: bool)
    ensures r <==> exists i :: 0 <= i < |ids| && actor == Some(ids[i])
  {
    actor.Some? && actor.value in ids
  }

  /** `$in: [actor, ...]` over a field of the matching documents holds
      exactly when a matching document carries the actor's id. */
  lemma ActorInMapFilter<T>(s: seq<T>, p: T -> bool, f: T -> Id, actor: Option<Id>)
    ensures ActorIn(actor, Map(Filter(s, p), f)) <==>
              exists i :: 0 <= i < |s| && p(s[i]) && actor == Some(f(s[i]))
  {
    if ActorIn(actor, Map(Filter(s, p), f)) {
      var i := MapFilterMember(s, p, f, actor.value);
    }
    if exists i :: 0 <= i < |s| && p(s[i]) && actor == Some(f(s[i])) {
      var i :| 0 <= i < |s| && p(s[i]) && actor == Some(f(s[i]));
      MapFilterContains(s, p, f, i);
    }
  }

  predicate NoDuplicates<T(==)>(s: seq<T>) {
    forall i, j :: 0 <= i < j < |s| ==> s[i] != s[j]
  }

  /** `$addToSet`: appends `v` only when it is not already an element. */
  function AddToSet<T(==)>(s: seq<T>, v: T): (r: seq<T>)
    ensures v in r
    ensures forall i :: 0 <= i < |r| ==> r[i] in s || r[i] == v
    ensures NoDuplicates(s) ==> NoDuplicates(r)
    ensures |r| == |s| + (if v in s then 0 else 1)
    ensures r[..|s|] == s
  {
    if v in s then s else s + [v]
  }

  /** `$pull`: removes every element equal to `v`. */
  function Pull<T(==)>(s: seq<T>, v: T): seq<T> {
    Filter(s, x => x != v)
  }

  /** Inserting twice is inserting once. */
  lemma AddToSetIdempotent<T>(s: seq<T>, v: T)
    ensures AddToSet(AddToSet(s, v), v) == AddToSet(s, v)
  {
  }

  /** `$pull` removes every copy of `v` and keeps every other element with
      its multiplicity, in the same relative order. */
  lemma {:induction false} PullSpec<T>(s: seq<T>, v: T)
    ensures v !in Pull(s, v)
    ensures multiset(Pull(s, v)) == multiset(s)[v := 0]
    ensures forall a, b :: s == a + b ==> Pull(s, v) == Pull(a, v) + Pull(b, v)
  {
    if s != [] {
      PullSpec(s[1..], v);
      assert s == [s[0]] + s[1..];
      assert multiset(s) == multiset{s[0]} + multiset(s[1..]);
    }
    forall a, b | s == a + b ensures Pull(s, v) == Pull(a, v) + Pull(b, v) {
      FilterConcat(a, b, x => x != v);
    }
  }

  /** Removing after inserting is the same as removing. */
  lemma PullAfterAddToSet<T>(s: seq<T>, v: T)
    ensures Pull(AddToSet(s, v), v) == Pull(s, v)
  {
    if v !in s {
      FilterAppend(s, v, x => x != v);
    }
  }

  /** `$sum` of a field over an array; `sumOf` reads the field. */
  function Sum<T>(s: seq<T>, field: T -> nat): nat {
    if s == [] then 0 else field(s[0]) + Sum(s[1..], field)
  }

  lemma {:induction false} SumConcat<T>(a: seq<T>, b: seq<T>, field: T -> nat)
    ensures Sum(a + b, field) == Sum(a, field) + Sum(b, field)
  {
    if a != [] {
      assert (a + b)[0] == a[0] && (a + b)[1..] == a[1..] + b;
      SumConcat(a[1..], b, field);
    } else {
      assert a + b == b;
    }
  }

  /** Deleting a document keeps keys unique. */
  lemma UniqueRemoveAt<T>(s: seq<T>, i: nat, key: T -> Id)
    requires i < |s| && Unique(s, key)
    ensures Unique(RemoveAt(s, i), key)
  {
    var r := RemoveAt(s, i);
    forall a, b | 0 <= a < b < |r| ensures key(r[a]) != key(r[b]) {
      var a', b' := if a < i then a else a + 1, if b < i then b else b + 1;
      assert r[a] == s[a'] && r[b] == s[b'];
    }
  }

  /** Inserting a document with a fresh key keeps keys unique. */
  lemma UniqueAppend<T>(s: seq<T>, x: T, key: T -> Id)
    requires Unique(s, key)
    requires forall i :: 0 <= i < |s| ==> key(s[i]) != key(x)
    ensures Unique(s + [x], key)
  {
  }

  /** Replacing a document by one with the same key keeps keys unique. */
  lemma UniqueReplace<T>(s: seq<T>, i: nat, x: T, key: T -> Id)
    requires i < |s| && Unique(s, key) && key(x) == key(s[i])
    ensures Unique(s[i := x], key)
  {
  }

  /** Every joined row of every document appears in the unwound output. */
  lemma {:induction false} FlatMapContains<A, B>(s: seq<A>, f: A -> seq<B>, i: nat, y: B)
    requires i < |s| && y in f(s[i])
    ensures y in FlatMap(s, f)
  {
    if i > 0 {
      FlatMapContains(s[1..], f, i - 1, y);
    }
  }

  /** Every unwound row comes from the join of one document. */
  lemma FlatMapMember<A, B>(s: seq<A>, f: A -> seq<B>, y: B) returns (i: nat)
    requires y in FlatMap(s, f)
    ensures i < |s| && y in f(s[i])
  {
    var k :| 0 <= k < |FlatMap(s, f)| && FlatMap(s, f)[k] == y;
    i :| 0 <= i < |s| && FlatMap(s, f)[k] in f(s[i]);
  }

  ghost predicate SortedDesc<T>(s: seq<T>, key: T -> int) {
    forall i, j :: 0 <= i < j < |s| ==> key(s[i]) >= key(s[j])
  }

  /** Places `x` before the first element whose key is not larger. */
  function InsertDesc<T>(x: T, s: seq<T>, key: T -> int): (r: seq<T>)
    ensures multiset(r) == multiset(s) + multiset{x}
    ensures |r| == |s| + 1
  {
    if s == [] || key(s[0]) <= key(x) then [x] + s
    else
      assert s == [s[0]] + s[1..];
      [s[0]] + InsertDesc(x, s[1..], key)
  }

  lemma {:induction false} InsertDescBounded<T>(x: T, s: seq<T>, key: T -> int, bound: int)
    requires key(x) <= bound
    requires forall k :: 0 <= k < |s| ==> key(s[k]) <= bound
    ensures forall k :: 0 <= k < |s| + 1 ==> key(InsertDesc(x, s, key)[k]) <= bound
  {
    if s != [] && key(s[0]) > key(x) {
      InsertDescBounded(x, s[1..], key, bound);
    }
  }

  lemma {:induction false} InsertDescSorted<T>(x: T, s: seq<T>, key: T -> int)
    requires SortedDesc(s, key)
    ensures SortedDesc(InsertDesc(x, s, key), key)
  {
    if s != [] && key(s[0]) > key(x) {
      InsertDescSorted(x, s[1..], key);
      InsertDescBounded(x, s[1..], key, key(s[0]));
    }
  }

  /** `$sort` on a key, descending. */
  function SortDesc<T>(s: seq<T>, key: T -> int): (r: seq<T>)
    ensures multiset(r) == multiset(s)
    ensures SortedDesc(r, key)
  {
    if s == [] then []
    else
      assert s == [s[0]] + s[1..];
      InsertDescSorted(s[0], SortDesc(s[1..], key), key);
      InsertDesc(s[0], SortDesc(s[1..], key), key)
  }
}
