/** The document store the controllers talk to, reduced to what they use: a
    collection of documents in natural (insertion) order, each under a unique
    id; `findOne` as the first match, `find` with a filter, `sort` on a date
    field in descending order, `create` and `save`. */
module Store {
  import opened Common

  datatype Doc<R> = Doc(id: Id, body: R)

  /** What a handler that may write one collection answers: a status code and
      the collection afterwards. */
  datatype Reply<R> = Reply(code: nat, docs: seq<Doc<R>>)

  predicate UniqueIds<R>(t: seq<Doc<R>>) {
    forall i, j :: 0 <= i < j < |t| ==> t[i].id != t[j].id
  }

  /** Position of the first document that satisfies p (findOne). */
  function FindFirst<R>(t: seq<Doc<R>>, p: Doc<R> -> bool): (r: Option<nat>)
    ensures r.Some? ==> r.value < |t| && p(t[r.value])
    ensures r.Some? ==> forall j :: 0 <= j < r.value ==> !p(t[j])
    ensures r.None? <==> forall j :: 0 <= j < |t| ==> !p(t[j])
  {
    if |t| == 0 then None
    else if p(t[0]) then Some(0)
    else match FindFirst(t[1..], p)
      case None => None
      case Some(k) => Some(k + 1)
  }

  /** Position of the document with the given id (findById). */
  function IndexOf<R>(t: seq<Doc<R>>, id: Id): (r: Option<nat>)
    ensures r.Some? ==> r.value < |t| && t[r.value].id == id
    ensures r.None? <==> forall j :: 0 <= j < |t| ==> t[j].id != id
    ensures r.Some? && UniqueIds(t) ==> forall j :: 0 <= j < |t| && t[j].id == id ==> j == r.value
  {
    FindFirst(t, (d: Doc<R>) => d.id == id)
  }

  /** Rewriting the body of one document does not move any document. */
  lemma {:induction false} FindFirstAfterSave<R>(t: seq<Doc<R>>, i: nat, b: R, p: Doc<R> -> bool)
    requires i < |t| && p(t[i]) && p(Doc(t[i].id, b))
    requires forall j :: 0 <= j < i ==> !p(t[j])
    ensures FindFirst(t[i := Doc(t[i].id, b)], p) == Some(i)
  {
    var t' := t[i := Doc(t[i].id, b)];
    if i > 0 {
      assert t'[1..] == t[1..][i - 1 := Doc(t[i].id, b)];
      FindFirstAfterSave(t[1..], i - 1, b, p);
    }
  }

  lemma IndexOfAfterSave<R>(t: seq<Doc<R>>, id: Id, b: R)
    requires IndexOf(t, id).Some?
    ensures var i := IndexOf(t, id).value;
      IndexOf(t[i := Doc(t[i].id, b)], id) == Some(i)
  {
    FindFirstAfterSave(t, IndexOf(t, id).value, b, (d: Doc<R>) => d.id == id);
  }

  function MaxIdLength<R>(t: seq<Doc<R>>): (m: nat)
    ensures forall i :: 0 <= i < |t| ==> |t[i].id| <= m
  {
    if |t| == 0 then 0
    else
      var rest := MaxIdLength(t[1..]);
      assert forall i :: 1 <= i < |t| ==> t[i] == t[1..][i - 1];
      if |t[0].id| > rest then |t[0].id| else rest
  }

  /** The id the store gives a new document: longer than every id in use, so
      unused. (Real ObjectIds are 24 hexadecimal digits; only their freshness
      matters to the controllers.) */
  function FreshId<R>(t: seq<Doc<R>>): (id: Id)
    ensures forall i :: 0 <= i < |t| ==> t[i].id != id
  {
    seq(MaxIdLength(t) + 1, _ => 'a')
  }

  lemma AppendFreshKeepsUniqueIds<R>(t: seq<Doc<R>>, b: R)
    requires UniqueIds(t)
    ensures UniqueIds(t + [Doc(FreshId(t), b)])
  {
  }

  lemma SaveKeepsUniqueIds<R>(t: seq<Doc<R>>, i: nat, b: R)
    requires UniqueIds(t) && i < |t|
    ensures UniqueIds(t[i := Doc(t[i].id, b)])
  {
  }

  /** find(filter): the documents whose body satisfies p, in natural order. */
  function Filter<R>(t: seq<Doc<R>>, p: R -> bool): (r: seq<Doc<R>>)
    ensures |r| <= |t|
    ensures (forall k :: 0 <= k < |t| ==> p(t[k].body)) ==> r == t
    ensures forall d :: d in r ==> d in t && p(d.body)
    ensures forall d :: d in t && p(d.body) ==> d in r
    ensures forall d :: d in t ==> multiset(r)[d] == if p(d.body) then multiset(t)[d] else 0
  {
    if |t| == 0 then []
    else
      assert t == [t[0]] + t[1..];
      if p(t[0].body) then [t[0]] + Filter(t[1..], p) else Filter(t[1..], p)
  }

  /** The order sort({ field: -1 }) puts two values of a date field in: later
      dates first, documents lacking the field last. */
  predicate KeyGe(a: Option<int>, b: Option<int>) {
    b.None? || (a.Some? && a.value >= b.value)
  }

  predicate SortedDesc<R>(s: seq<Doc<R>>, key: R -> Option<int>) {
    forall i, j :: 0 <= i < j < |s| ==> KeyGe(key(s[i].body), key(s[j].body))
  }

  lemma PrependSorted<R>(h: Doc<R>, rest: seq<Doc<R>>, key: R -> Option<int>)
    requires SortedDesc(rest, key)
    requires forall y :: y in rest ==> KeyGe(key(h.body), key(y.body))
    ensures SortedDesc([h] + rest, key)
  {
    var s := [h] + rest;
    forall i, j | 0 <= i < j < |s| ensures KeyGe(key(s[i].body), key(s[j].body)) {
      if i > 0 {
        assert s[i] == rest[i - 1] && s[j] == rest[j - 1];
      } else {
        assert s[j] in rest;
      }
    }
  }

  function Insert<R>(x: Doc<R>, s: seq<Doc<R>>, key: R -> Option<int>): (r: seq<Doc<R>>)
    requires SortedDesc(s, key)
    ensures SortedDesc(r, key)
    ensures multiset(r) == multiset(s) + multiset{x}
  {
    if |s| == 0 then [x]
    else if KeyGe(key(x.body), key(s[0].body)) then
      PrependSorted(x, s, key);
      [x] + s
    else
      var rest := Insert(x, s[1..], key);
      assert s == [s[0]] + s[1..];
      assert forall y :: y in rest ==> KeyGe(key(s[0].body), key(y.body)) by {
        forall y | y in rest ensures KeyGe(key(s[0].body), key(y.body)) {
          assert y in multiset(rest);
          if y != x {
            assert y in s[1..];
          }
        }
      }
      PrependSorted(s[0], rest, key);
      [s[0]] + rest
  }

  /** sort({ field: -1 }) over the documents, as a stable insertion sort. */
  function SortByDesc<R>(t: seq<Doc<R>>, key: R -> Option<int>): (r: seq<Doc<R>>)
    ensures SortedDesc(r, key)
    ensures multiset(r) == multiset(t)
    ensures |r| == |t|
    ensures forall d :: d in r ==> d in t
    ensures forall d :: d in t ==> d in r
  {
    if |t| == 0 then []
    else
      assert t == [t[0]] + t[1..];
      var r := Insert(t[0], SortByDesc(t[1..], key), key);
      assert forall d :: d in r ==> d in multiset(r);
      assert forall d :: d in t ==> d in multiset(t);
      r
  }

  /** Apply a projection to every document (the .map over a query result). */
  function MapRows<R, T>(s: seq<Doc<R>>, f: Doc<R> -> T): (r: seq<T>)
    ensures |r| == |s| && forall k :: 0 <= k < |s| ==> r[k] == f(s[k])
    ensures forall d :: d in s ==> f(d) in r
  {
    var r := seq(|s|, k requires 0 <= k < |s| => f(s[k]));
    assert forall d :: d in s ==> f(d) in r by {
      forall d | d in s ensures f(d) in r {
        var k :| 0 <= k < |s| && s[k] == d;
        assert r[k] == f(d);
      }
    }
    r
  }

  /** Apply a projection that can fail (a populated reference that came back
      null and was dereferenced) to every document: all rows, or None. */
  function ProjectAll<R, T>(s: seq<Doc<R>>, row: Doc<R> -> Option<T>): (r: Option<seq<T>>)
    ensures r.Some? <==> forall k :: 0 <= k < |s| ==> row(s[k]).Some?
    ensures r.None? <==> exists d :: d in s && row(d).None?
    ensures r.Some? ==> |r.value| == |s| && forall k :: 0 <= k < |s| ==> row(s[k]) == Some(r.value[k])
    ensures r.Some? ==> forall d :: d in s ==> row(d).Some? && row(d).value in r.value
  {
    if forall k :: 0 <= k < |s| ==> row(s[k]).Some? then
      var rows := seq(|s|, k requires 0 <= k < |s| => row(s[k]).value);
      forall d | d in s ensures row(d).Some? && row(d).value in rows {
        var k :| 0 <= k < |s| && s[k] == d;
        assert rows[k] == row(d).value;
      }
      Some(rows)
    else
      var k :| 0 <= k < |s| && row(s[k]).None?;
      assert s[k] in s;
      None
  }

  datatype QueryResult<R, T> = QueryResult(docs: seq<Doc<R>>, rows: Option<seq<T>>)

  /** find(filter).sort({ field: -1 }) and a projection of each result that
      can fail: the matching documents in sort order, and their rows, or None
      when some matching document has no row. */
  function Query<R, T>(t: seq<Doc<R>>, p: R -> bool, key: R -> Option<int>, row: Doc<R> -> Option<T>)
    : (r: QueryResult<R, T>)
    ensures SortedDesc(r.docs, key)
    ensures (forall k :: 0 <= k < |t| ==> p(t[k].body)) ==> |r.docs| == |t|
    ensures forall d :: d in r.docs ==> d in t && p(d.body)
    ensures forall d :: d in t && p(d.body) ==> d in r.docs
    ensures r.rows.None? <==> exists d :: d in t && p(d.body) && row(d).None?
    ensures r.rows.Some? ==>
      |r.rows.value| == |r.docs| && forall k :: 0 <= k < |r.docs| ==> row(r.docs[k]) == Some(r.rows.value[k])
  {
    var own := Filter(t, p);
    var s := SortByDesc(own, key);
    QueryResult(s, ProjectAll(s, row))
  }

  /** The documents of a query are the matching documents, each as often as
      it is stored, in some order. */
  lemma QueryPermutesMatches<R, T>(t: seq<Doc<R>>, p: R -> bool, key: R -> Option<int>,
                                  row: Doc<R> -> Option<T>)
    ensures multiset(Query(t, p, key, row).docs) == multiset(Filter(t, p))
  {
  }

  /** A matching document's row is among the rows of a query that
      succeeded. */
  lemma QueryCovers<R, T>(t: seq<Doc<R>>, p: R -> bool, key: R -> Option<int>, row: Doc<R> -> Option<T>,
                          d: Doc<R>)
    requires Query(t, p, key, row).rows.Some? && d in t && p(d.body)
    ensures row(d).Some? && row(d).value in Query(t, p, key, row).rows.value
  {
    var q := Query(t, p, key, row);
    var k :| 0 <= k < |q.docs| && q.docs[k] == d;
    assert row(q.docs[k]) == Some(q.rows.value[k]);
  }

  /** The k-th row of a query that succeeded is the row of the k-th document,
      which is a matching one. */
  lemma QueryRowComesFromMatch<R, T>(t: seq<Doc<R>>, p: R -> bool, key: R -> Option<int>,
                                     row: Doc<R> -> Option<T>, k: nat)
    requires Query(t, p, key, row).rows.Some? && k < |Query(t, p, key, row).rows.value|
    ensures var q := Query(t, p, key, row);
      q.docs[k] in t && p(q.docs[k].body) && row(q.docs[k]) == Some(q.rows.value[k])
  {
    var q := Query(t, p, key, row);
    assert q.docs[k] in q.docs;
  }

  /** One Mongo collection, updated in place by the handlers. */
  class Collection<R> {
    var docs: seq<Doc<R>>

    predicate Valid()
      reads this
    {
      UniqueIds(docs)
    }

    constructor ()
      ensures Valid() && docs == []
    {
      docs := [];
    }

    /** Model.create: store a new document under a fresh id. */
    method Create(body: R) returns (id: Id)
      requires Valid()
      modifies this
      ensures Valid()
      ensures id == FreshId(old(docs)) && docs == old(docs) + [Doc(id, body)]
    {
      id := FreshId(docs);
      AppendFreshKeepsUniqueIds(docs, body);
      docs := docs + [Doc(id, body)];
    }

    /** document.save() after changing fields of the document at position i. */
    method Save(i: nat, body: R)
      requires Valid() && i < |docs|
      modifies this
      ensures Valid()
      ensures docs == old(docs)[i := Doc(old(docs)[i].id, body)]
    {
      SaveKeepsUniqueIds(docs, i, body);
      docs := docs[i := Doc(docs[i].id, body)];
    }
  }
}
