/** The list queries shared by the two paginated admin endpoints
    (app/api/admin/notices/removed/route.ts, app/api/admin/blogs/route.ts):
    the `limit`/`page` defaults, `skip = (page - 1) * limit`, the
    newest-first ordering and the `skip`/`take` window of the store. */
module Paging {
  import opened Base

  /** A numeric query parameter, already converted by `Number(...)`, with
      the handler's default when the parameter is absent. */
  function ParamOr(param: Option<int>, default: int): (n: int)
    ensures param.None? ==> n == default
    ensures param.Some? ==> n == param.value
  {
    if param.Some? then param.value else default
  }

  /** `skip = (page - 1) * limit` */
  function Skip(page: int, limit: int): int {
    (page - 1) * limit
  }

  /** Descending order on a nullable sort key, with rows lacking the key last. */
  predicate KeyGe(a: Option<int>, b: Option<int>) {
    b.None? || (a.Some? && a.value >= b.value)
  }

  /** `s` is ordered newest first by `key`. */
  ghost predicate Descending<T>(s: seq<T>, key: T -> Option<int>) {
    forall i, j :: 0 <= i < j < |s| ==> KeyGe(key(s[i]), key(s[j]))
  }

  /** Places `x` in front of the first element it is not older than. */
  function Insert<T>(x: T, s: seq<T>, key: T -> Option<int>): (r: seq<T>)
    ensures multiset(r) == multiset(s) + multiset{x}
    ensures |r| == |s| + 1
  {
    if s == [] || KeyGe(key(x), key(s[0])) then [x] + s
    else
      assert s == [s[0]] + s[1..];
      [s[0]] + Insert(x, s[1..], key)
  }

  lemma {:induction false} InsertDescending<T>(x: T, s: seq<T>, key: T -> Option<int>)
    requires Descending(s, key)
    ensures Descending(Insert(x, s, key), key)
  {
    if s == [] || KeyGe(key(x), key(s[0])) {
      var r := [x] + s;
      forall i, j | 0 <= i < j < |r| ensures KeyGe(key(r[i]), key(r[j])) {
        if i == 0 {
          assert KeyGe(key(s[0]), key(s[j - 1]));
        }
      }
    } else {
      var tail := Insert(x, s[1..], key);
      InsertDescending(x, s[1..], key);
      var r := [s[0]] + tail;
      forall j | 0 <= j < |tail| ensures KeyGe(key(s[0]), key(tail[j])) {
        assert tail[j] in multiset(s[1..]) + multiset{x};
        if tail[j] in multiset(s[1..]) {
          var k :| 0 <= k < |s[1..]| && s[1..][k] == tail[j];
          assert s[k + 1] == tail[j];
        }
      }
      assert forall i, j :: 0 < i < j < |r| ==> r[i] == tail[i - 1] && r[j] == tail[j - 1];
    }
  }

  /** The store's `orderBy: { <key>: 'desc' }`: the rows newest first,
      rows with equal keys in their stored order. */
  function SortDesc<T>(s: seq<T>, key: T -> Option<int>): (r: seq<T>)
    ensures multiset(r) == multiset(s) && |r| == |s|
  {
    if s == [] then []
    else
      assert s == [s[0]] + s[1..];
      Insert(s[0], SortDesc(s[1..], key), key)
  }

  lemma {:induction false} SortDescDescending<T>(s: seq<T>, key: T -> Option<int>)
    ensures Descending(SortDesc(s, key), key)
  {
    if s != [] {
      SortDescDescending(s[1..], key);
      InsertDescending(s[0], SortDesc(s[1..], key), key);
    }
  }

  /** `skip`/`take` on an ordered result; `None` where the store refuses the
      arguments (a negative skip or take). */
  function Window<T>(s: seq<T>, skip: int, take: int): (r: Option<seq<T>>)
    ensures r.Some? <==> skip >= 0 && take >= 0
    ensures r.Some? ==> |r.value| <= take
    ensures r.Some? ==> forall i :: 0 <= i < |r.value| ==> skip + i < |s| && r.value[i] == s[skip + i]
    ensures r.Some? ==> |r.value| == if skip >= |s| then 0 else if |s| - skip < take then |s| - skip else take
  {
    if skip < 0 || take < 0 then None
    else if skip >= |s| then Some([])
    else if |s| - skip < take then Some(s[skip..])
    else Some(s[skip..skip + take])
  }

  /** The row of rank `k` is item `k % limit` of page `k / limit + 1`. */
  lemma RankOnPage<T>(s: seq<T>, limit: int, k: nat)
    requires limit > 0 && k < |s|
    ensures k / limit + 1 >= 1
    ensures Skip(k / limit + 1, limit) <= k < Skip(k / limit + 1, limit) + limit
    ensures var w := Window(s, Skip(k / limit + 1, limit), limit);
            w.Some? && k % limit < |w.value| && w.value[k % limit] == s[k]
  {
    var q := k / limit;
    assert Skip(q + 1, limit) == q * limit;
    assert k == q * limit + k % limit;
  }

  /** Distinct pages of the same size cover disjoint rank ranges
      `(page - 1) * limit` up to `page * limit - 1`. */
  lemma PagesDisjoint(limit: int, p: int, q: int)
    requires limit > 0 && 1 <= p < q
    ensures Skip(p, limit) + limit <= Skip(q, limit)
  {
    assert Skip(q, limit) - (Skip(p, limit) + limit) == (q - p - 1) * limit;
    assert (q - p - 1) * limit >= 0 by {
      assert q - p - 1 >= 0;
    }
  }

  /** A page number below one gives a negative skip, which the store refuses. */
  lemma PageZeroRefused<T>(s: seq<T>, page: int, limit: int)
    requires page < 1 && limit > 0
    ensures Window(s, Skip(page, limit), limit).None?
  {
    assert (page - 1) * limit < 0 by {
      assert page - 1 < 0;
    }
  }
}
