/** The notice board: POST /api/admin/notices (soft-delete every active
    notice and publish a new one, in one transaction), GET
    /api/admin/notices/active and GET /api/admin/notices/removed. A notice
    is never erased; removal marks it `removed` with who removed it and
    when. */
module Notices {
  import opened Base
  import opened Cookies
  import opened Tokens
  import opened Users
  import opened Http
  import opened Paging

  datatype Notice = Notice(id: string, text: string, addedBy: Option<string>, removed: bool,
                           removedBy: Option<string>, removedAt: Option<Date>,
                           createdAt: Date, updatedAt: Date)

  /** What `updateMany({ where: { removed: false }, data })` does to one row. */
  function SoftDeleted(n: Notice, caller: Option<string>, at: Date): (m: Notice)
    ensures m.removed && m.id == n.id && m.text == n.text && m.addedBy == n.addedBy
    ensures n.removed ==> m == n
  {
    if n.removed then n else n.(removed := true, removedBy := caller, removedAt := Some(at))
  }

  /** `updateMany` over the whole table. */
  function SoftDeleteAll(ns: seq<Notice>, caller: Option<string>, at: Date): (r: seq<Notice>)
    ensures |r| == |ns|
    ensures forall i :: 0 <= i < |ns| ==> r[i] == SoftDeleted(ns[i], caller, at)
  {
    seq(|ns|, i requires 0 <= i < |ns| => SoftDeleted(ns[i], caller, at))
  }

  /** The number of rows `updateMany` matches: the active notices. */
  function CountActive(ns: seq<Notice>): nat {
    if ns == [] then 0
    else CountActive(ns[..|ns| - 1]) + (if ns[|ns| - 1].removed then 0 else 1)
  }

  /** `removedPrevious` (`count > 0`) holds exactly when some notice was
      active before publishing. */
  lemma {:induction false} CountActivePositive(ns: seq<Notice>)
    ensures CountActive(ns) > 0 <==> exists i :: 0 <= i < |ns| && !ns[i].removed
  {
    if ns != [] {
      var init := ns[..|ns| - 1];
      CountActivePositive(init);
      if exists i :: 0 <= i < |init| && !init[i].removed {
        var i :| 0 <= i < |init| && !init[i].removed;
        assert !ns[i].removed;
      }
      if exists i :: 0 <= i < |ns| && !ns[i].removed {
        var i :| 0 <= i < |ns| && !ns[i].removed;
        if i < |init| { assert !init[i].removed; }
      }
    }
  }

  /** The row `create` appends: the trimmed text, the caller as author, active. */
  function NewNotice(id: string, text: string, caller: Option<string>, now: Date): (n: Notice)
    ensures !n.removed && n.text == Trim(text) && n.addedBy == caller && n.id == id
  {
    Notice(id, Trim(text), caller, false, None, None, now, now)
  }

  /** The table after the publishing transaction. */
  function AfterPublish(ns: seq<Notice>, caller: Option<string>, text: string, id: string, now: Date): seq<Notice> {
    SoftDeleteAll(ns, caller, now) + [NewNotice(id, text, caller, now)]
  }

  /** After publishing exactly one notice is active, the new one; every
      notice that was active is removed by the caller at that moment, and
      every notice already removed is untouched. */
  lemma PublishLeavesOneActive(ns: seq<Notice>, caller: Option<string>, text: string, id: string, now: Date)
    ensures var after := AfterPublish(ns, caller, text, id, now);
            |after| == |ns| + 1
            && (forall i :: 0 <= i < |after| ==> (!after[i].removed <==> i == |ns|))
            && after[|ns|] == NewNotice(id, text, caller, now)
            && (forall i :: 0 <= i < |ns| && !ns[i].removed ==>
                  after[i] == ns[i].(removed := true, removedBy := caller, removedAt := Some(now)))
            && (forall i :: 0 <= i < |ns| && ns[i].removed ==> after[i] == ns[i])
  {
  }

  /** The parsed JSON body; `None` when it is not a JSON object. */
  datatype NoticeBody = NoticeBody(text: Option<string>)

  datatype PublishReply = Published(notice: Notice, removedPrevious: bool) | PublishError(error: string)

  /** The claims of the request's session cookie, when present and valid. */
  function Claimed(c: Codec, env: Env, cookies: map<string, string>): Option<Claims> {
    if PresentToken(cookies).Some? then VerifyJwt(c, env, PresentToken(cookies).value) else None
  }

  /** `!text || !text.trim()` */
  predicate Blank(text: Option<string>) {
    !Truthy(text) || Trim(text.value) == ""
  }

  /** The notice table. */
  class NoticeBoard {
    var notices: seq<Notice>

    constructor (initial: seq<Notice>)
      ensures notices == initial
    {
      notices := initial;
    }

    /** `prisma.notice.updateMany(...)`: soft-deletes the active notices in
        place and returns how many it matched. */
    method SoftDeleteActive(caller: Option<string>, at: Date) returns (count: nat)
      modifies this
      ensures notices == SoftDeleteAll(old(notices), caller, at)
      ensures count == CountActive(old(notices))
    {
      count := 0;
      var i := 0;
      while i < |notices|
        invariant 0 <= i <= |notices| == |old(notices)|
        invariant forall j :: 0 <= j < i ==> notices[j] == SoftDeleted(old(notices)[j], caller, at)
        invariant forall j :: i <= j < |notices| ==> notices[j] == old(notices)[j]
        invariant count == CountActive(old(notices)[..i])
      {
        assert old(notices)[..i + 1][..i] == old(notices)[..i];
        if !notices[i].removed {
          count := count + 1;
          notices := notices[i := SoftDeleted(notices[i], caller, at)];
        }
        i := i + 1;
      }
      assert old(notices)[..i] == old(notices);
    }

    /** `POST(req)` at time `now`; `id` is the id the store gives the new
        notice, `fault` a failure of the transaction, which then writes
        nothing. */
    method Publish(c: Codec, env: Env, cookies: map<string, string>, body: Option<NoticeBody>,
                   id: string, now: Date, fault: bool)
      returns (r: Handled<Response<PublishReply>>)
      modifies this
      ensures PresentToken(cookies).None? ==>
                r == Returned(JsonWithStatus(PublishError("Not authenticated"), 401)) && notices == old(notices)
      ensures PresentToken(cookies).Some? && Claimed(c, env, cookies).None? ==>
                r.Threw? && notices == old(notices)
      ensures Claimed(c, env, cookies).Some? && body.None? ==> r.Threw? && notices == old(notices)
      ensures Claimed(c, env, cookies).Some? && body.Some? && Blank(body.value.text) ==>
                r == Returned(JsonWithStatus(PublishError("Text is required"), 400)) && notices == old(notices)
      ensures Claimed(c, env, cookies).Some? && body.Some? && !Blank(body.value.text) && fault ==>
                r.Threw? && notices == old(notices)
      ensures Claimed(c, env, cookies).Some? && body.Some? && !Blank(body.value.text) && !fault ==>
                var caller := UserIdOf(Claimed(c, env, cookies).value);
                notices == AfterPublish(old(notices), caller, body.value.text.value, id, now)
                && r == Returned(Json(Published(NewNotice(id, body.value.text.value, caller, now),
                                                CountActive(old(notices)) > 0)))
    {
      var token := PresentToken(cookies);
      if token.None? {
        return Returned(JsonWithStatus(PublishError("Not authenticated"), 401));
      }
      var claims := VerifyJwt(c, env, token.value);
      if claims.None? {
        return Threw;
      }
      var caller := UserIdOf(claims.value);
      if body.None? {
        return Threw;
      }
      var text := body.value.text;
      if Blank(text) {
        return Returned(JsonWithStatus(PublishError("Text is required"), 400));
      }
      if fault {
        return Threw;
      }
      var count := SoftDeleteActive(caller, now);
      var created := NewNotice(id, text.value, caller, now);
      notices := notices + [created];
      r := Returned(Json(Published(created, count > 0)));
    }
  }

  /** `user?.name ?? 'N/A'` for the user a notice refers to. */
  function NameOrNA(users: seq<User>, id: Option<string>): (r: string)
    ensures r != "N/A" ==> id.Some? && FindById(users, id.value).Some? && FindById(users, id.value).value.name == Some(r)
    ensures id.Some? && FindById(users, id.value).Some? && FindById(users, id.value).value.name.Some? ==>
              r == FindById(users, id.value).value.name.value
  {
    if id.Some? && FindById(users, id.value).Some? && FindById(users, id.value).value.name.Some?
    then FindById(users, id.value).value.name.value
    else "N/A"
  }

  /** The active notice with the latest `updatedAt`, if any. */
  function LatestActive(ns: seq<Notice>): (r: Option<Notice>)
    ensures r.Some? <==> exists i :: 0 <= i < |ns| && !ns[i].removed
    ensures r.Some? ==> r.value in ns && !r.value.removed
    ensures r.Some? ==> forall i :: 0 <= i < |ns| && !ns[i].removed ==> ns[i].updatedAt <= r.value.updatedAt
  {
    if ns == [] then None
    else
      var init := ns[..|ns| - 1];
      var last := ns[|ns| - 1];
      var best := LatestActive(init);
      assert forall i :: 0 <= i < |init| ==> init[i] == ns[i];
      if last.removed then best
      else if best.Some? && best.value.updatedAt >= last.updatedAt then best
      else Some(last)
  }

  /** The projection of the active notice. */
  datatype ActiveView = ActiveView(id: string, text: string, addedBy: string)

  /** GET /api/admin/notices/active (read-only). */
  function GetActive(ns: seq<Notice>, users: seq<User>): (r: Response<Option<ActiveView>>)
    ensures r.status == 200 && r.cookie.None?
    ensures r.body.None? <==> forall i :: 0 <= i < |ns| ==> ns[i].removed
    ensures r.body.Some? ==> exists i :: 0 <= i < |ns| && !ns[i].removed && ns[i].id == r.body.value.id
                                        && ns[i].text == r.body.value.text
                                        && NameOrNA(users, ns[i].addedBy) == r.body.value.addedBy
                                        && forall j :: 0 <= j < |ns| && !ns[j].removed ==> ns[j].updatedAt <= ns[i].updatedAt
  {
    match LatestActive(ns)
    case None => Json(None)
    case Some(n) => Json(Some(ActiveView(n.id, n.text, NameOrNA(users, n.addedBy))))
  }

  /** After a notice is published, the active endpoint shows it: its trimmed
      text and the publisher's name. */
  lemma {:induction false} ActiveShowsLatestPublished(ns: seq<Notice>, users: seq<User>, caller: Option<string>,
                                                      text: string, id: string, now: Date)
    ensures GetActive(AfterPublish(ns, caller, text, id, now), users).body
            == Some(ActiveView(id, Trim(text), NameOrNA(users, caller)))
  {
    var after := AfterPublish(ns, caller, text, id, now);
    PublishLeavesOneActive(ns, caller, text, id, now);
    var latest := LatestActive(after);
    var k :| 0 <= k < |after| && after[k] == latest.value;
    assert k == |ns|;
  }

  /** The removed notices, in stored order. */
  function RemovedOnly(ns: seq<Notice>): (r: seq<Notice>)
    ensures forall n :: n in r <==> n in ns && n.removed
  {
    if ns == [] then []
    else
      assert forall n :: n in ns <==> n in ns[..|ns| - 1] || n == ns[|ns| - 1];
      RemovedOnly(ns[..|ns| - 1]) + (if ns[|ns| - 1].removed then [ns[|ns| - 1]] else [])
  }

  /** The filter keeps each removed notice as many times as it is stored,
      and drops every other one: no notice is listed twice unless it is
      stored twice. */
  lemma {:induction false} RemovedOnlyCounts(ns: seq<Notice>)
    ensures forall n :: multiset(RemovedOnly(ns))[n] == if n.removed then multiset(ns)[n] else 0
  {
    if ns != [] {
      var init, last := ns[..|ns| - 1], ns[|ns| - 1];
      RemovedOnlyCounts(init);
      assert ns == init + [last];
      assert RemovedOnly(ns) == RemovedOnly(init) + (if last.removed then [last] else []);
    }
  }

  /** One item of the removed list. */
  datatype RemovedView = RemovedView(id: string, text: string, addedBy: string, removedBy: string,
                                     removedAt: Option<Date>)

  function RemovedViewOf(users: seq<User>, n: Notice): RemovedView {
    RemovedView(n.id, n.text, NameOrNA(users, n.addedBy), NameOrNA(users, n.removedBy), n.removedAt)
  }

  function RemovedAtKey(n: Notice): Option<Date> { n.removedAt }

  /** The removed notices newest first, the order the endpoint pages through. */
  function RemovedRanking(ns: seq<Notice>): seq<Notice> {
    SortDesc(RemovedOnly(ns), RemovedAtKey)
  }

  /** The views of a page of removed notices, item by item. */
  function RemovedViewsOf(users: seq<User>, w: seq<Notice>): (r: seq<RemovedView>)
    ensures |r| == |w|
    ensures forall i :: 0 <= i < |w| ==> r[i] == RemovedViewOf(users, w[i])
  {
    seq(|w|, i requires 0 <= i < |w| => RemovedViewOf(users, w[i]))
  }

  /** GET /api/admin/notices/removed with its `limit` and `page` parameters
      (defaults 20 and 1). A negative skip or take is refused by the store
      and escapes as an exception. Otherwise the page is the store's whole
      `skip`/`take` window of the ranking. */
  function GetRemoved(ns: seq<Notice>, users: seq<User>, limit: Option<int>, page: Option<int>)
    : (r: Handled<Response<seq<RemovedView>>>)
    ensures var l := ParamOr(limit, 20);
            var skip := Skip(ParamOr(page, 1), l);
            r.Returned? <==> skip >= 0 && l >= 0
    ensures r.Returned? ==> r.response.status == 200 && r.response.cookie.None?
    ensures var l := ParamOr(limit, 20);
            var skip := Skip(ParamOr(page, 1), l);
            var R := |RemovedRanking(ns)|;
            r.Returned? ==>
              |r.response.body| <= l
              && |r.response.body| == (if skip >= R then 0 else if R - skip < l then R - skip else l)
    ensures var l := ParamOr(limit, 20);
            var skip := Skip(ParamOr(page, 1), l);
            r.Returned? ==>
              forall i :: 0 <= i < |r.response.body| ==>
                skip + i < |RemovedRanking(ns)|
                && r.response.body[i] == RemovedViewOf(users, RemovedRanking(ns)[skip + i])
  {
    var l := ParamOr(limit, 20);
    var skip := Skip(ParamOr(page, 1), l);
    var ranking := RemovedRanking(ns);
    var w := Window(ranking, skip, l);
    if w.None? then Threw
    else
      var items := RemovedViewsOf(users, w.value);
      assert forall i :: 0 <= i < |items| ==> skip + i < |ranking| && items[i] == RemovedViewOf(users, ranking[skip + i]);
      Returned(Json(items))
  }

  /** The ranking holds only removed notices of the table. */
  lemma {:induction false} RankingHoldsRemoved(ns: seq<Notice>)
    ensures forall k :: 0 <= k < |RemovedRanking(ns)| ==> RemovedRanking(ns)[k] in ns && RemovedRanking(ns)[k].removed
  {
    var ranking := RemovedRanking(ns);
    forall k | 0 <= k < |ranking| ensures ranking[k] in ns && ranking[k].removed {
      assert ranking[k] in multiset(ranking);
      assert ranking[k] in RemovedOnly(ns);
    }
  }

  /** The views of every removed notice of the table. */
  function RemovedViews(ns: seq<Notice>, users: seq<User>): set<RemovedView> {
    set n | n in ns && n.removed :: RemovedViewOf(users, n)
  }

  /** Views taken from a ranking of removed notices are views of removed notices. */
  lemma {:induction false} ViewsOfRemoved(ns: seq<Notice>, ranking: seq<Notice>, items: seq<RemovedView>, skip: nat,
                                          users: seq<User>)
    requires forall k :: 0 <= k < |ranking| ==> ranking[k] in ns && ranking[k].removed
    requires forall i :: 0 <= i < |items| ==> skip + i < |ranking| && items[i] == RemovedViewOf(users, ranking[skip + i])
    ensures forall i :: 0 <= i < |items| ==> items[i] in RemovedViews(ns, users)
  {
    forall i | 0 <= i < |items| ensures items[i] in RemovedViews(ns, users) {
      var item := items[i];
      var n := ranking[skip + i];
      assert n in ns && n.removed && item == RemovedViewOf(users, n);
    }
  }

  /** Every item of the removed list shows a removed notice of the table. */
  lemma {:induction false} RemovedListHoldsRemoved(ns: seq<Notice>, users: seq<User>, limit: Option<int>, page: Option<int>)
    requires GetRemoved(ns, users, limit, page).Returned?
    ensures var items := GetRemoved(ns, users, limit, page).response.body;
            forall i :: 0 <= i < |items| ==> items[i] in RemovedViews(ns, users)
  {
    var skip := Skip(ParamOr(page, 1), ParamOr(limit, 20));
    RankingHoldsRemoved(ns);
    ViewsOfRemoved(ns, RemovedRanking(ns), GetRemoved(ns, users, limit, page).response.body, skip, users);
  }

  /** Views taken in rank order from a window of a newest-first ranking are
      newest first. */
  lemma {:induction false} ViewsOrdered(ranking: seq<Notice>, items: seq<RemovedView>, skip: nat, users: seq<User>)
    requires Descending(ranking, RemovedAtKey)
    requires forall i :: 0 <= i < |items| ==> skip + i < |ranking| && items[i] == RemovedViewOf(users, ranking[skip + i])
    ensures forall i, j :: 0 <= i < j < |items| ==> KeyGe(items[i].removedAt, items[j].removedAt)
  {
    forall i, j | 0 <= i < j < |items| ensures KeyGe(items[i].removedAt, items[j].removedAt) {
      var a, b := items[i], items[j];
      assert a == RemovedViewOf(users, ranking[skip + i]) && b == RemovedViewOf(users, ranking[skip + j]);
      assert KeyGe(RemovedAtKey(ranking[skip + i]), RemovedAtKey(ranking[skip + j]));
    }
  }

  /** The removed list is ordered newest `removedAt` first. */
  lemma {:induction false} RemovedListIsOrdered(ns: seq<Notice>, users: seq<User>, limit: Option<int>, page: Option<int>)
    requires GetRemoved(ns, users, limit, page).Returned?
    ensures var items := GetRemoved(ns, users, limit, page).response.body;
            forall i, j :: 0 <= i < j < |items| ==> KeyGe(items[i].removedAt, items[j].removedAt)
  {
    SortDescDescending(RemovedOnly(ns), RemovedAtKey);
    var skip := Skip(ParamOr(page, 1), ParamOr(limit, 20));
    ViewsOrdered(RemovedRanking(ns), GetRemoved(ns, users, limit, page).response.body, skip, users);
  }

  /** Paging reaches every rank: for any page size, the removed notice of
      rank `k` is item `k % limit` of page `k / limit + 1`. */
  lemma {:induction false} RemovedRankListed(ns: seq<Notice>, users: seq<User>, limit: int, k: nat)
    requires limit > 0 && k < |RemovedRanking(ns)|
    ensures var r := GetRemoved(ns, users, Some(limit), Some(k / limit + 1));
            k / limit + 1 >= 1 && r.Returned? && k % limit < |r.response.body|
            && r.response.body[k % limit] == RemovedViewOf(users, RemovedRanking(ns)[k])
  {
    RankOnPage(RemovedRanking(ns), limit, k);
  }

  /** Every removed notice of the table is listed on some page, whatever
      the page size. */
  lemma {:induction false} EveryRemovedNoticeListed(ns: seq<Notice>, users: seq<User>, limit: int, n: Notice)
    requires limit > 0 && n in ns && n.removed
    ensures exists p :: p >= 1 && GetRemoved(ns, users, Some(limit), Some(p)).Returned?
                        && RemovedViewOf(users, n) in GetRemoved(ns, users, Some(limit), Some(p)).response.body
  {
    var ranking := RemovedRanking(ns);
    RemovedOnlyCounts(ns);
    assert multiset(RemovedOnly(ns))[n] == multiset(ns)[n] > 0;
    assert n in multiset(ranking);
    var k :| 0 <= k < |ranking| && ranking[k] == n;
    RemovedRankListed(ns, users, limit, k);
    var p := k / limit + 1;
    var items := GetRemoved(ns, users, Some(limit), Some(p)).response.body;
    assert items[k % limit] == RemovedViewOf(users, n);
    assert RemovedViewOf(users, n) in items;
  }

  /** Every notice removed through the publishing transaction carries the
      time of its removal. */
  lemma PublishStampsRemovals(ns: seq<Notice>, caller: Option<string>, text: string, id: string, now: Date)
    requires forall i :: 0 <= i < |ns| && ns[i].removed ==> ns[i].removedAt.Some?
    ensures var after := AfterPublish(ns, caller, text, id, now);
            forall i :: 0 <= i < |after| && after[i].removed ==> after[i].removedAt.Some?
  {
  }
}
