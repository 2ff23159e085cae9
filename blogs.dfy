/** GET /api/admin/blogs (app/api/admin/blogs/route.ts): one page of blogs,
    newest first, each with a display name for its author, and the total
    number of blogs. Read-only. */
module Blogs {
  import opened Base
  import opened Users
  import opened Http
  import opened Paging

  datatype Blog = Blog(id: string, title: string, authorId: Option<string>, coverUrl: Option<string>,
                       content: string, createdAt: Date, updatedAt: Date)

  /** One item of the listing. */
  datatype BlogView = BlogView(id: string, title: string, authorName: string, createdAt: Date,
                               updatedAt: Date, coverUrl: Option<string>, content: string)

  /** `{ blogs, stats: { total } }` */
  datatype BlogPage = BlogPage(blogs: seq<BlogView>, total: int)

  /** The author shown for a blog: the user's name when non-empty, else the
      part of the user's e-mail before its first `@` when the e-mail is
      non-empty, else "Unknown" (also when the blog has no author row). */
  function AuthorName(users: seq<User>, authorId: Option<string>): (r: string)
    ensures var au := if authorId.Some? then FindById(users, authorId.value) else None;
            && (au.Some? && Truthy(au.value.name) ==> r == au.value.name.value)
            && (au.Some? && !Truthy(au.value.name) && au.value.email != "" ==> r == LocalPart(au.value.email))
            && (au.None? || (!Truthy(au.value.name) && au.value.email == "") ==> r == "Unknown")
  {
    var au := if authorId.Some? then FindById(users, authorId.value) else None;
    if au.Some? && Truthy(au.value.name) then au.value.name.value
    else if au.Some? && au.value.email != "" then LocalPart(au.value.email)
    else "Unknown"
  }

  /** An author without a name is shown by the local part of an address
      `local@domain`. */
  lemma AuthorWithoutNameShownByLocalPart(users: seq<User>, k: nat, local: string, domain: string)
    requires UniqueKeys(users) && k < |users|
    requires !Truthy(users[k].name) && users[k].email == local + "@" + domain && '@' !in local
    ensures AuthorName(users, Some(users[k].id)) == local
  {
    FindByIdUnique(users, k);
    LocalPartOfAddress(local, domain);
  }

  /** An address that starts with `@` gives an empty author name, not "Unknown". */
  lemma LeadingAtGivesEmptyName(users: seq<User>, k: nat, domain: string)
    requires UniqueKeys(users) && k < |users|
    requires !Truthy(users[k].name) && users[k].email == "@" + domain
    ensures AuthorName(users, Some(users[k].id)) == ""
  {
    FindByIdUnique(users, k);
  }

  function ViewOf(users: seq<User>, b: Blog): BlogView {
    BlogView(b.id, b.title, AuthorName(users, b.authorId), b.createdAt, b.updatedAt, b.coverUrl, b.content)
  }

  function CreatedAtKey(b: Blog): Option<Date> { Some(b.createdAt) }

  /** The blogs newest first, the order the endpoint pages through. */
  function Ranking(blogs: seq<Blog>): seq<Blog> {
    SortDesc(blogs, CreatedAtKey)
  }

  /** The views of a page of blogs, item by item. */
  function ViewsOf(users: seq<User>, w: seq<Blog>): (r: seq<BlogView>)
    ensures |r| == |w|
    ensures forall i :: 0 <= i < |w| ==> r[i] == ViewOf(users, w[i])
  {
    seq(|w|, i requires 0 <= i < |w| => ViewOf(users, w[i]))
  }

  /** The handler, with its `limit` and `page` parameters (defaults 10 and 1).
      A negative skip or take is refused by the store and escapes as an
      exception. Otherwise the page is the store's whole `skip`/`take`
      window of the ranking. */
  function GetBlogs(blogs: seq<Blog>, users: seq<User>, limit: Option<int>, page: Option<int>)
    : (r: Handled<Response<BlogPage>>)
    ensures var l := ParamOr(limit, 10);
            var skip := Skip(ParamOr(page, 1), l);
            r.Returned? <==> skip >= 0 && l >= 0
    ensures r.Returned? ==>
              r.response.status == 200 && r.response.cookie.None? && r.response.body.total == |blogs|
    ensures var l := ParamOr(limit, 10);
            var skip := Skip(ParamOr(page, 1), l);
            r.Returned? ==>
              |r.response.body.blogs| <= l
              && |r.response.body.blogs| == (if skip >= |blogs| then 0
                                             else if |blogs| - skip < l then |blogs| - skip else l)
    ensures var l := ParamOr(limit, 10);
            var skip := Skip(ParamOr(page, 1), l);
            r.Returned? ==>
              forall i :: 0 <= i < |r.response.body.blogs| ==>
                skip + i < |blogs| && r.response.body.blogs[i] == ViewOf(users, Ranking(blogs)[skip + i])
  {
    var l := ParamOr(limit, 10);
    var skip := Skip(ParamOr(page, 1), l);
    var ranking := Ranking(blogs);
    var w := Window(ranking, skip, l);
    if w.None? then Threw
    else
      var items := ViewsOf(users, w.value);
      assert forall i :: 0 <= i < |items| ==> skip + i < |blogs| && items[i] == ViewOf(users, ranking[skip + i]);
      Returned(Json(BlogPage(items, |blogs|)))
  }

  /** The views of every stored blog. */
  function StoredViews(blogs: seq<Blog>, users: seq<User>): set<BlogView> {
    set b | b in blogs :: ViewOf(users, b)
  }

  /** The ranking holds stored blogs only. */
  lemma {:induction false} RankingHoldsBlogs(blogs: seq<Blog>)
    ensures forall k :: 0 <= k < |Ranking(blogs)| ==> Ranking(blogs)[k] in blogs
  {
    var ranking := Ranking(blogs);
    forall k | 0 <= k < |ranking| ensures ranking[k] in blogs {
      assert ranking[k] in multiset(ranking);
    }
  }

  /** Views taken in rank order from a window of a ranking of stored blogs
      are views of stored blogs, newest first when the ranking is. */
  lemma {:induction false} WindowViews(blogs: seq<Blog>, ranking: seq<Blog>, items: seq<BlogView>, skip: nat,
                                       users: seq<User>)
    requires |ranking| == |blogs|
    requires forall k :: 0 <= k < |ranking| ==> ranking[k] in blogs
    requires Descending(ranking, CreatedAtKey)
    requires forall i :: 0 <= i < |items| ==> skip + i < |blogs| && items[i] == ViewOf(users, ranking[skip + i])
    ensures forall i :: 0 <= i < |items| ==> items[i] in StoredViews(blogs, users)
    ensures forall i, j :: 0 <= i < j < |items| ==> items[i].createdAt >= items[j].createdAt
  {
    forall i | 0 <= i < |items| ensures items[i] in StoredViews(blogs, users) {
      var item := items[i];
      var b := ranking[skip + i];
      assert b in blogs && item == ViewOf(users, b);
    }
    forall i, j | 0 <= i < j < |items| ensures items[i].createdAt >= items[j].createdAt {
      var a, b := items[i], items[j];
      assert a == ViewOf(users, ranking[skip + i]) && b == ViewOf(users, ranking[skip + j]);
      assert KeyGe(CreatedAtKey(ranking[skip + i]), CreatedAtKey(ranking[skip + j]));
    }
  }

  /** The listing is newest first, every item is the view of a stored blog
      (its own id, title, cover and content, with its author's display
      name), and the total does not depend on the page. */
  lemma {:induction false} BlogListing(blogs: seq<Blog>, users: seq<User>, limit: Option<int>, page: Option<int>,
                                       otherLimit: Option<int>, otherPage: Option<int>)
    requires GetBlogs(blogs, users, limit, page).Returned?
    requires GetBlogs(blogs, users, otherLimit, otherPage).Returned?
    ensures var items := GetBlogs(blogs, users, limit, page).response.body.blogs;
            && (forall i, j :: 0 <= i < j < |items| ==> items[i].createdAt >= items[j].createdAt)
            && (forall i :: 0 <= i < |items| ==> items[i] in StoredViews(blogs, users))
    ensures GetBlogs(blogs, users, limit, page).response.body.total
            == GetBlogs(blogs, users, otherLimit, otherPage).response.body.total
  {
    SortDescDescending(blogs, CreatedAtKey);
    RankingHoldsBlogs(blogs);
    var skip := Skip(ParamOr(page, 1), ParamOr(limit, 10));
    WindowViews(blogs, Ranking(blogs), GetBlogs(blogs, users, limit, page).response.body.blogs, skip, users);
  }

  /** Paging reaches every rank: for any page size, the blog of rank `k` is
      item `k % limit` of page `k / limit + 1`. */
  lemma {:induction false} RankedBlogListed(blogs: seq<Blog>, users: seq<User>, limit: int, k: nat)
    requires limit > 0 && k < |blogs|
    ensures var r := GetBlogs(blogs, users, Some(limit), Some(k / limit + 1));
            k / limit + 1 >= 1 && r.Returned? && k % limit < |r.response.body.blogs|
            && r.response.body.blogs[k % limit] == ViewOf(users, Ranking(blogs)[k])
  {
    RankOnPage(Ranking(blogs), limit, k);
  }

  /** Every stored blog is listed on some page, whatever the page size. */
  lemma {:induction false} EveryBlogListed(blogs: seq<Blog>, users: seq<User>, limit: int, b: Blog)
    requires limit > 0 && b in blogs
    ensures exists p :: p >= 1 && GetBlogs(blogs, users, Some(limit), Some(p)).Returned?
                        && ViewOf(users, b) in GetBlogs(blogs, users, Some(limit), Some(p)).response.body.blogs
  {
    var ranking := Ranking(blogs);
    assert b in multiset(ranking);
    var k :| 0 <= k < |ranking| && ranking[k] == b;
    RankedBlogListed(blogs, users, limit, k);
    var p := k / limit + 1;
    var items := GetBlogs(blogs, users, Some(limit), Some(p)).response.body.blogs;
    assert items[k % limit] == ViewOf(users, b);
    assert ViewOf(users, b) in items;
  }
}
