// The news views: the filtered and sorted listing, and the three AJAX
// endpoints that add, edit and delete a news item. The endpoints check that
// the caller is logged in (401), then that the caller is an admin (403),
// before they look at the form.
module News {
  import opened Common
  import opened Accounts
  import opened Http
  import opened Sorting

  datatype NewsItem = NewsItem(
    title: string,
    content: string,
    category: string,
    thumbnail: Option<string>,
    /** The author's primary key; None for news without an author. */
    author: Option<string>,
    /** published_at, an opaque ordered timestamp set when the item is created. */
    publishedAt: int)

  /** `strip_tags`, an oracle. The view hands it text; `str(None)` is "None". */
  type TagStripper = string -> string

  /** The stored news, keyed by their uuid primary key. */
  class NewsTable {
    var rows: map<string, NewsItem>

    constructor (initial: map<string, NewsItem>)
      ensures rows == initial
    {
      rows := initial;
    }
  }

  // ------------------------------------------------------------- listing

  /** The category and search filters of show_news_page; an empty value is no filter. */
  predicate NewsHit(category: string, search: string, n: NewsItem)
  {
    && (category == "" || n.category == category)
    && (search == "" || IContains(n.title, search) || IContains(n.content, search))
  }

  /** The "may come before" relation of each `sort` value. */
  function NewsOrder(sort: string): (le: (NewsItem, NewsItem) -> bool)
    ensures sort == "oldest" ==> forall a, b :: le(a, b) == (a.publishedAt <= b.publishedAt)
    ensures sort == "title_asc" ==> forall a, b :: le(a, b) == LexLe(a.title, b.title)
    ensures sort == "title_desc" ==> forall a, b :: le(a, b) == LexLe(b.title, a.title)
    ensures sort !in {"oldest", "title_asc", "title_desc"} ==> forall a, b :: le(a, b) == (a.publishedAt >= b.publishedAt)
  {
    if sort == "oldest" then (a: NewsItem, b: NewsItem) => a.publishedAt <= b.publishedAt
    else if sort == "title_asc" then (a: NewsItem, b: NewsItem) => LexLe(a.title, b.title)
    else if sort == "title_desc" then (a: NewsItem, b: NewsItem) => LexLe(b.title, a.title)
    else (a: NewsItem, b: NewsItem) => a.publishedAt >= b.publishedAt
  }

  /** Every sort order compares any two items and is transitive. */
  lemma NewsOrderIsOrder(sort: string)
    ensures Total(NewsOrder(sort)) && Transitive(NewsOrder(sort))
  {
    var le := NewsOrder(sort);
    forall a: NewsItem, b: NewsItem ensures le(a, b) || le(b, a) {
      LexTotal(a.title, b.title);
    }
    forall a: NewsItem, b: NewsItem, c: NewsItem | le(a, b) && le(b, c) ensures le(a, c) {
      if sort == "title_asc" {
        LexTransitive(a.title, b.title, c.title);
      } else if sort == "title_desc" {
        LexTransitive(c.title, b.title, a.title);
      }
    }
  }

  function SortKey(query: map<string, string>): string
  {
    GetOrDefault(query, "sort", "newest")
  }

  /** show_news_page's listing: the items both filters keep, in the order the
      `sort` parameter names (newest first by default). */
  function NewsListing(stored: seq<NewsItem>, query: map<string, string>): (r: seq<NewsItem>)
    ensures var category, search := GetOrDefault(query, "category", ""), GetOrDefault(query, "search", "");
      && (forall n :: n in r <==> n in stored && NewsHit(category, search, n))
      && multiset(r) == multiset(Filter(stored, (n: NewsItem) => NewsHit(category, search, n)))
    ensures OrderedPairwise(r, NewsOrder(SortKey(query)))
  {
    var category, search := GetOrDefault(query, "category", ""), GetOrDefault(query, "search", "");
    var found := Filter(stored, (n: NewsItem) => NewsHit(category, search, n));
    var le := NewsOrder(SortKey(query));
    NewsOrderIsOrder(SortKey(query));
    SortByOrdered(found, le);
    OrderedIsPairwise(SortBy(found, le), le);
    SortBy(found, le)
  }

  /** Sorted by title, items with different titles come in title order, and
      the newest-first listing is the default. */
  lemma ListingTitleOrder(stored: seq<NewsItem>, query: map<string, string>, i: nat, j: nat)
    requires SortKey(query) == "title_asc"
    requires i < j < |NewsListing(stored, query)|
    ensures LexLe(NewsListing(stored, query)[i].title, NewsListing(stored, query)[j].title)
    ensures NewsListing(stored, query)[i].title != NewsListing(stored, query)[j].title ==>
              !LexLe(NewsListing(stored, query)[j].title, NewsListing(stored, query)[i].title)
  {
    var r := NewsListing(stored, query);
    assert NewsOrder("title_asc")(r[i], r[j]);
    if LexLe(r[j].title, r[i].title) {
      LexAntisymmetric(r[i].title, r[j].title);
    }
  }

  // ------------------------------------------------------------- add

  const NotAuthenticated: map<string, Json> := ErrorBody("User not authenticated")

  /** The body of the 500 answer a caught exception gets; the exception's text is not modelled. */
  const CaughtError: map<string, Json> := map["status" := JStr("error")]

  /** The four values add_news_entry_ajax takes from the form, after trimming
      and tag stripping; a blank thumbnail is None. */
  datatype NewsForm = NewsForm(title: string, content: string, category: string, thumbnail: Option<string>)

  function AddForm(post: map<string, string>, stripTags: TagStripper): (f: NewsForm)
    ensures f.title == stripTags(Trim(GetOrDefault(post, "title", "")))
    ensures f.content == stripTags(Trim(GetOrDefault(post, "content", "")))
    ensures f.category == Trim(GetOrDefault(post, "category", ""))
    ensures f.thumbnail.None? <==> Trim(GetOrDefault(post, "thumbnail", "")) == ""
    ensures f.thumbnail.Some? ==> f.thumbnail.value == Trim(post["thumbnail"]) && Stripped(f.thumbnail.value)
  {
    var thumbnail := Trim(GetOrDefault(post, "thumbnail", ""));
    NewsForm(stripTags(Trim(GetOrDefault(post, "title", ""))), stripTags(Trim(GetOrDefault(post, "content", ""))),
             Trim(GetOrDefault(post, "category", "")), if thumbnail == "" then None else Some(thumbnail))
  }

  /** The first required field that is empty, in the order title, content, category. */
  function MissingField(f: NewsForm): (r: Option<string>)
    ensures r.None? <==> f.title != "" && f.content != "" && f.category != ""
    ensures f.title == "" ==> r == Some("Title is required")
    ensures f.title != "" && f.content == "" ==> r == Some("Content is required")
    ensures f.title != "" && f.content != "" && f.category == "" ==> r == Some("Category is required")
  {
    if f.title == "" then Some("Title is required")
    else if f.content == "" then Some("Content is required")
    else if f.category == "" then Some("Category is required")
    else None
  }

  /** The gate of the three endpoints: None lets an admin through. A None
      request.user makes `is_authenticated` raise. */
  function AdminGate(u: Identity, forbidden: string): (r: Option<Response>)
    ensures r.None? <==> u.Authenticated? && u.user.role == AdminRole
    ensures u.NoneUser? ==> r == Some(ServerError)
    ensures u.Anonymous? ==> r == Some(Status(401, NotAuthenticated))
    ensures u.Authenticated? && u.user.role != AdminRole ==> r == Some(Status(403, ErrorBody(forbidden)))
  {
    match IsAuthenticated(u)
    case None => Some(ServerError)
    case Some(false) => Some(Status(401, NotAuthenticated))
    case Some(true) => if RoleOf(u) != AdminRole then Some(Status(403, ErrorBody(forbidden))) else None
  }

  /** add_news_entry_ajax: 405 for a non-POST; then 401, then 403, then 400 for
      the first empty required field; otherwise exactly one item is added under
      the new uuid, written by the caller, and the answer is 201. Inside the
      view's try block a None user becomes a caught 500. */
  method AddNews(request: Request, news: NewsTable, stripTags: TagStripper, freshId: string, now: int)
    returns (response: Response)
    requires freshId !in news.rows
    modifies news
    ensures request.verb != POST ==> response == Status(405, map[]) && news.rows == old(news.rows)
    ensures request.verb == POST && request.user.NoneUser? ==>
              response == Status(500, CaughtError) && news.rows == old(news.rows)
    ensures request.verb == POST && !request.user.NoneUser? &&
            AdminGate(request.user, "Only admin users can create news").Some? ==>
              response == AdminGate(request.user, "Only admin users can create news").value && news.rows == old(news.rows)
    ensures request.verb == POST && AdminGate(request.user, "Only admin users can create news").None? ==>
              var f := AddForm(request.post, stripTags);
              && (MissingField(f).Some? ==>
                    response == Status(400, ErrorBody(MissingField(f).value)) && news.rows == old(news.rows))
              && (MissingField(f).None? ==>
                    && news.rows == old(news.rows)[freshId := NewsItem(f.title, f.content, f.category, f.thumbnail,
                                                                      Some(request.user.user.id), now)]
                    && response == Status(201, map["status" := JStr("success"),
                                                   "message" := JStr("News created successfully"),
                                                   "news_id" := JStr(freshId)]))
  {
    if request.verb != POST {
      return Status(405, map[]);
    }
    if request.user.NoneUser? {
      return Status(500, CaughtError);
    }
    var refused := AdminGate(request.user, "Only admin users can create news");
    if refused.Some? {
      return refused.value;
    }
    response := StoreForm(news, AddForm(request.post, stripTags), request.user.user.id, freshId, now);
  }

  /** The end of add_news_entry_ajax, once the gate has passed: a form with an
      empty required field gets 400 and adds nothing; otherwise the item is
      added under the new uuid and the answer is 201. */
  method StoreForm(news: NewsTable, f: NewsForm, author: string, freshId: string, now: int)
    returns (response: Response)
    requires freshId !in news.rows
    modifies news
    ensures MissingField(f).Some? ==>
              response == Status(400, ErrorBody(MissingField(f).value)) && news.rows == old(news.rows)
    ensures MissingField(f).None? ==>
              && news.rows == old(news.rows)[freshId := NewsItem(f.title, f.content, f.category, f.thumbnail,
                                                                Some(author), now)]
              && response == Status(201, map["status" := JStr("success"),
                                             "message" := JStr("News created successfully"),
                                             "news_id" := JStr(freshId)])
  {
    var missing := MissingField(f);
    if missing.Some? {
      return Status(400, ErrorBody(missing.value));
    }
    news.rows := news.rows[freshId := NewsItem(f.title, f.content, f.category, f.thumbnail, Some(author), now)];
    response := Status(201, map["status" := JStr("success"), "message" := JStr("News created successfully"),
                                "news_id" := JStr(freshId)]);
  }

  // ------------------------------------------------------------- edit

  /** The item after edit_news_entry_ajax's POST: the four posted fields
      replace the stored ones, with no trimming or emptiness check; an absent
      title or content becomes the stripped text "None", an absent thumbnail
      None. An absent category is a NULL in a NOT NULL column: the save raises. */
  function EditedNews(stored: NewsItem, post: map<string, string>, stripTags: TagStripper): (r: Option<NewsItem>)
    ensures r.Some? <==> "category" in post
    ensures r.Some? ==>
              && r.value.title == stripTags(GetOrDefault(post, "title", "None"))
              && r.value.content == stripTags(GetOrDefault(post, "content", "None"))
              && r.value.category == post["category"]
              && r.value.thumbnail == Get(post, "thumbnail")
              && r.value.author == stored.author && r.value.publishedAt == stored.publishedAt
  {
    if "category" !in post then None
    else Some(stored.(title := stripTags(GetOrDefault(post, "title", "None")),
                      content := stripTags(GetOrDefault(post, "content", "None")),
                      category := post["category"], thumbnail := Get(post, "thumbnail")))
  }

  /** An edit keeps who wrote the item and when; everything else comes from the form. */
  lemma EditKeepsProvenance(a: NewsItem, b: NewsItem, post: map<string, string>, stripTags: TagStripper)
    requires "category" in post
    requires a.author == b.author && a.publishedAt == b.publishedAt
    ensures EditedNews(a, post, stripTags) == EditedNews(b, post, stripTags)
    ensures EditedNews(EditedNews(a, post, stripTags).value, post, stripTags) == EditedNews(a, post, stripTags)
  {
  }

  /** edit_news_entry_ajax: 401, then 403, then 405 for a non-POST (a None user
      raises before the try block: 500 page). Inside the try block a missing
      item (the 404 is caught) and a missing category become a caught 500 with
      nothing changed; otherwise the item is overwritten. */
  method EditNews(request: Request, news: NewsTable, id: string, stripTags: TagStripper) returns (response: Response)
    modifies news
    ensures AdminGate(request.user, "Only admin can edit news").Some? ==>
              response == AdminGate(request.user, "Only admin can edit news").value && news.rows == old(news.rows)
    ensures AdminGate(request.user, "Only admin can edit news").None? && request.verb != POST ==>
              response == Status(405, ErrorBody("Invalid method")) && news.rows == old(news.rows)
    ensures AdminGate(request.user, "Only admin can edit news").None? && request.verb == POST ==>
              && (id !in old(news.rows) ==> response == Status(500, CaughtError) && news.rows == old(news.rows))
              && (id in old(news.rows) ==>
                    var n := EditedNews(old(news.rows)[id], request.post, stripTags);
                    && (n.None? ==> response == Status(500, CaughtError) && news.rows == old(news.rows))
                    && (n.Some? ==>
                          response == Status(200, map["status" := JStr("success"),
                                                      "message" := JStr("News updated successfully")]) &&
                          news.rows == old(news.rows)[id := n.value]))
  {
    var refused := AdminGate(request.user, "Only admin can edit news");
    if refused.Some? {
      return refused.value;
    }
    if request.verb != POST {
      return Status(405, ErrorBody("Invalid method"));
    }
    if id !in news.rows {
      return Status(500, CaughtError);
    }
    var n := EditedNews(news.rows[id], request.post, stripTags);
    if n.None? {
      return Status(500, CaughtError);
    }
    news.rows := news.rows[id := n.value];
    response := Status(200, map["status" := JStr("success"), "message" := JStr("News updated successfully")]);
  }

  // ------------------------------------------------------------- delete

  /** delete_news: 405 for a non-POST, then 401 and 403 (a None user raises:
      500 page), then a missing item is a caught 500; an admin's POST removes
      exactly that item. */
  method DeleteNews(request: Request, news: NewsTable, id: string) returns (response: Response)
    modifies news
    ensures request.verb != POST ==> response == Status(405, map[]) && news.rows == old(news.rows)
    ensures request.verb == POST && AdminGate(request.user, "Only admin can delete news").Some? ==>
              response == AdminGate(request.user, "Only admin can delete news").value && news.rows == old(news.rows)
    ensures request.verb == POST && AdminGate(request.user, "Only admin can delete news").None? ==>
              && (id !in old(news.rows) ==> response == Status(500, CaughtError) && news.rows == old(news.rows))
              && (id in old(news.rows) ==>
                    response == Status(200, map["status" := JStr("success"),
                                                "message" := JStr("News deleted successfully")]) &&
                    news.rows == old(news.rows) - {id})
  {
    if request.verb != POST {
      return Status(405, map[]);
    }
    var refused := AdminGate(request.user, "Only admin can delete news");
    if refused.Some? {
      return refused.value;
    }
    if id !in news.rows {
      return Status(500, CaughtError);
    }
    news.rows := news.rows - {id};
    response := Status(200, map["status" := JStr("success"), "message" := JStr("News deleted successfully")]);
  }

  /** No caller but an admin gets past the gate, and the gate answers in the
      order 401 before 403. */
  lemma GateOrder(u: User)
    ensures AdminGate(Anonymous, "x") == Some(Status(401, NotAuthenticated))
    ensures u.role != AdminRole ==> AdminGate(Authenticated(u), "x").value.code == 403
    ensures u.role == AdminRole ==> AdminGate(Authenticated(u), "x").None?
  {
  }

  // ------------------------------------------------------------- JSON

  /** One entry of show_json: the item's id, its author's id or null, and its
      text fields. The timestamp is not modelled. */
  function NewsJson(id: string, n: NewsItem): (r: map<string, Json>)
    ensures "user_id" in r && (r["user_id"] == JNull <==> n.author.None?)
    ensures n.author.Some? ==> r["user_id"] == JStr(n.author.value)
    ensures "id" in r && r["id"] == JStr(id)
  {
    map["id" := JStr(id),
        "user_id" := if n.author.Some? then JStr(n.author.value) else JNull,
        "title" := JStr(n.title), "content" := JStr(n.content), "category" := JStr(n.category),
        "thumbnail" := if n.thumbnail.Some? then JStr(n.thumbnail.value) else JNull]
  }
}
