/** Documents of a document store, abstracted as sequences in natural (insertion)
    order, and the queries the server issues against them: `find` with a
    filter, `findOne` (the first match), `updateOne`/`deleteOne` (the first
    match only) and `deleteMany` (every match). */
module Documents {

  datatype Option<+T> = None | Some(value: T)

  /** A store-assigned document identifier (an ObjectId in the store). */
  type Id = nat

  /** A stored document: its `_id` and the body the client sent. */
  datatype Doc<+T> = Doc(id: Id, body: T)

  /** `find(filter)`: the elements satisfying `p`, in their stored order. */
  function Select<T(!new)>(s: seq<T>, p: T -> bool): (r: seq<T>)
    ensures |r| <= |s|
    ensures forall x :: x in r <==> x in s && p(x)
  {
    if s == [] then []
    else if p(s[0]) then [s[0]] + Select(s[1..], p)
    else Select(s[1..], p)
  }

  /** Filtering distributes over concatenation, so it keeps the stored order. */
  lemma {:induction false} SelectAppend<T(!new)>(a: seq<T>, b: seq<T>, p: T -> bool)
    ensures Select(a + b, p) == Select(a, p) + Select(b, p)
  {
    if a != [] {
      assert (a + b)[0] == a[0] && (a + b)[1..] == a[1..] + b;
      SelectAppend(a[1..], b, p);
    } else {
      assert a + b == b;
    }
  }

  /** A filter that every element passes leaves the sequence as it is. */
  lemma {:induction false} SelectAll<T(!new)>(s: seq<T>, p: T -> bool)
    requires forall x :: x in s ==> p(x)
    ensures Select(s, p) == s
  {
    if s != [] {
      SelectAll(s[1..], p);
    }
  }

  /** Position of the first element satisfying `p`, or `|s|` when there is none. */
  function IndexWhere<T>(s: seq<T>, p: T -> bool): (k: nat)
    ensures k <= |s|
    ensures k < |s| ==> p(s[k])
    ensures forall j :: 0 <= j < k ==> !p(s[j])
  {
    if s == [] then 0
    else if p(s[0]) then 0
    else 1 + IndexWhere(s[1..], p)
  }

  /** `findOne(filter)`: the first matching element, if any. */
  function FindFirst<T(!new)>(s: seq<T>, p: T -> bool): (r: Option<T>)
    ensures r.None? <==> forall x :: x in s ==> !p(x)
    ensures r.Some? ==> r.value in s && p(r.value)
  {
    var k := IndexWhere(s, p);
    if k < |s| then Some(s[k]) else None
  }

  /** `deleteOne(filter)`: drop the first matching element, if any. */
  function RemoveFirst<T(!new)>(s: seq<T>, p: T -> bool): (r: seq<T>)
    ensures |r| == if exists x :: x in s && p(x) then |s| - 1 else |s|
    ensures forall x :: x in r ==> x in s
  {
    if s == [] then []
    else if p(s[0]) then s[1..]
    else [s[0]] + RemoveFirst(s[1..], p)
  }

  /** `deleteOne` removes exactly the first match: the result is the input
      with the element at the first matching position cut out. */
  lemma {:induction false} RemoveFirstSplice<T(!new)>(s: seq<T>, p: T -> bool)
    ensures var k := IndexWhere(s, p);
      RemoveFirst(s, p) == if k < |s| then s[..k] + s[k + 1..] else s
  {
    if s != [] && !p(s[0]) {
      var t := s[1..];
      RemoveFirstSplice(t, p);
      var k := IndexWhere(t, p);
      assert IndexWhere(s, p) == k + 1;
      if k < |t| {
        assert s[..k + 1] == [s[0]] + t[..k];
        assert s[k + 2..] == t[k + 1..];
      } else {
        assert s == [s[0]] + t;
      }
    }
  }

  /** Every element that does not match survives `deleteOne`. */
  lemma RemoveFirstKeepsOthers<T(!new)>(s: seq<T>, p: T -> bool, x: T)
    requires x in s && !p(x)
    ensures x in RemoveFirst(s, p)
  {
    RemoveFirstSplice(s, p);
    var k := IndexWhere(s, p);
    var i :| 0 <= i < |s| && s[i] == x;
    if k < |s| {
      if i < k {
        assert s[..k][i] == x;
      } else {
        assert (s[k + 1..])[i - k - 1] == x;
      }
    }
  }

  /** Every `_id` in the collection is distinct (the store's primary key). */
  ghost predicate UniqueIds<T>(s: seq<Doc<T>>)
  {
    forall i, j :: 0 <= i < |s| && 0 <= j < |s| && s[i].id == s[j].id ==> i == j
  }

  /** Every `_id` in the collection is below `n`, so `n` is fresh. */
  ghost predicate IdsBelow<T>(s: seq<Doc<T>>, n: Id)
  {
    forall d :: d in s ==> d.id < n
  }

  /** Documents whose id is not in `ids`: `deleteMany({_id: {$in: ids}})`. */
  function WithoutIds<T(!new)>(s: seq<Doc<T>>, ids: seq<Id>): (r: seq<Doc<T>>)
    ensures forall d :: d in r <==> d in s && d.id !in ids
  {
    Select(s, (d: Doc<T>) => d.id !in ids)
  }

  /** Filtering keeps the primary key unique. */
  lemma {:induction false} SelectUniqueIds<T(!new)>(s: seq<Doc<T>>, p: Doc<T> -> bool)
    requires UniqueIds(s)
    ensures UniqueIds(Select(s, p))
  {
    if s != [] {
      var t := s[1..];
      assert UniqueIds(t) by {
        forall i, j | 0 <= i < |t| && 0 <= j < |t| && t[i].id == t[j].id
          ensures i == j
        {
          assert s[i + 1].id == s[j + 1].id;
        }
      }
      SelectUniqueIds(t, p);
      forall d | d in t ensures d.id != s[0].id {
        var k :| 0 <= k < |t| && t[k] == d;
        assert s[k + 1] == d;
      }
    }
  }

  /** With a unique primary key, deleting the first document with id `x`
      is deleting every document with that id. */
  lemma {:induction false} RemoveFirstById<T(!new)>(s: seq<Doc<T>>, x: Id)
    requires UniqueIds(s)
    ensures RemoveFirst(s, (d: Doc<T>) => d.id == x) == WithoutIds(s, [x])
  {
    if s != [] {
      var t := s[1..];
      var q := (d: Doc<T>) => d.id !in [x];
      forall d | d in t ensures d.id != s[0].id {
        var k :| 0 <= k < |t| && t[k] == d;
        assert s[k + 1] == d;
      }
      if s[0].id == x {
        SelectAll(t, q);
      } else {
        assert UniqueIds(t) by {
          forall i, j | 0 <= i < |t| && 0 <= j < |t| && t[i].id == t[j].id
            ensures i == j
          {
            assert s[i + 1].id == s[j + 1].id;
          }
        }
        RemoveFirstById(t, x);
      }
    }
  }

  /** Appending a document under a fresh id keeps the key unique and moves
      the fresh-id bound past it. */
  lemma AppendFresh<T>(s: seq<Doc<T>>, d: Doc<T>, n: Id)
    requires UniqueIds(s) && IdsBelow(s, n) && d.id == n
    ensures UniqueIds(s + [d]) && IdsBelow(s + [d], n + 1)
  {
    var r := s + [d];
    forall i, j | 0 <= i < |r| && 0 <= j < |r| && r[i].id == r[j].id ensures i == j {
      if i < |s| { assert s[i] in s; }
      if j < |s| { assert s[j] in s; }
    }
  }

  /** Deleting ids that no document has is a no-op. */
  lemma WithoutAbsentIds<T(!new)>(s: seq<Doc<T>>, ids: seq<Id>)
    requires forall d :: d in s ==> d.id !in ids
    ensures WithoutIds(s, ids) == s
  {
    SelectAll(s, (d: Doc<T>) => d.id !in ids);
  }

  /** Repeating a bulk delete changes nothing more. */
  lemma WithoutIdsIdempotent<T(!new)>(s: seq<Doc<T>>, ids: seq<Id>)
    ensures WithoutIds(WithoutIds(s, ids), ids) == WithoutIds(s, ids)
  {
    WithoutAbsentIds(WithoutIds(s, ids), ids);
  }

}
