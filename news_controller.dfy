/** The news handlers (src/controllers/newsController.js): creation with
    its `published` default, the public listing filter, and the author-only
    update and delete. */
module NewsController {
  import opened Common
  import opened Users
  import opened ResponseHelper

  /** A row of the News table. */
  datatype Article = Article(id: string, title: string, content: string, imageUrl: Option<string>,
                             category: Option<string>, published: bool, authorId: UserId, createdAt: int)

  class NewsTable {
    var rows: seq<Article>

    constructor (rows: seq<Article>)
      ensures this.rows == rows
    {
      this.rows := rows;
    }
  }

  /** `createNews`. `published` is `None` when the body leaves it out.
      `title` and `content` are required columns: without them the store
      refuses the row with its validation message `rejection`. */
  method CreateNews(table: NewsTable, me: UserId, title: Option<string>, content: Option<string>,
                    imageUrl: Option<string>, category: Option<string>, published: Option<bool>,
                    newId: string, now: int, rejection: string) returns (reply: Envelope<Article>)
    modifies table
    ensures title.None? || content.None? ==> reply == Error(rejection, Some(500)) && table.rows == old(table.rows)
    ensures title.Some? && content.Some? ==>
      var article := Article(newId, title.value, content.value, imageUrl, category,
                             if published.Some? then published.value else true, me, now);
      table.rows == old(table.rows) + [article]
      && reply == Success("News created successfully", Some(article), Some(201))
  {
    if title.None? || content.None? {
      return Error(rejection, Some(500));
    }
    var article := Article(newId, title.value, content.value, imageUrl, category,
                           if published.Some? then published.value else true, me, now);
    table.rows := table.rows + [article];
    reply := Success("News created successfully", Some(article), Some(201));
  }

  /** The `where` object of the listing: published, in the category when one
      is given, with the search text in the title when one is given. */
  predicate Listed(a: Article, category: Option<string>, search: Option<string>) {
    a.published
    && (Truthy(category) ==> a.category == category)
    && (Truthy(search) ==> Includes(a.title, search.value))
  }

  /** `getAllNews`: the listed articles, newest first. */
  function GetAllNews(rows: seq<Article>, category: Option<string>, search: Option<string>): (r: seq<Article>)
    ensures forall a :: a in r <==> a in rows && Listed(a, category, search)
    ensures forall a :: a in r ==> a.published
    ensures multiset(r) == multiset(Filter(rows, (a: Article) => Listed(a, category, search)))
    ensures SortedDesc(r, (a: Article) => a.createdAt)
  {
    SortDesc(Filter(rows, (a: Article) => Listed(a, category, search)), (a: Article) => a.createdAt)
  }

  /** An article created without a `published` field shows in the unfiltered
      listing; one created with `published: false` does not. */
  lemma PublishedDefault(rows: seq<Article>, a: Article)
    requires a in rows
    ensures a.published ==> a in GetAllNews(rows, None, None)
    ensures !a.published ==> a !in GetAllNews(rows, None, None)
  {
  }

  /** The article after an update by its author: text fields change only
      when truthy, `published` whenever it is given. */
  function NewsUpdated(a: Article, title: Option<string>, content: Option<string>, imageUrl: Option<string>,
                       category: Option<string>, published: Option<bool>): (r: Article)
    ensures r.title == if Truthy(title) then title.value else a.title
    ensures r.content == if Truthy(content) then content.value else a.content
    ensures r.imageUrl == if Truthy(imageUrl) then imageUrl else a.imageUrl
    ensures r.category == if Truthy(category) then category else a.category
    ensures r.published == if published.Some? then published.value else a.published
    ensures r.id == a.id && r.authorId == a.authorId && r.createdAt == a.createdAt
  {
    a.(title := if Truthy(title) then title.value else a.title,
       content := if Truthy(content) then content.value else a.content,
       imageUrl := if Truthy(imageUrl) then imageUrl else a.imageUrl,
       category := if Truthy(category) then category else a.category,
       published := if published.Some? then published.value else a.published)
  }

  /** `updateNews`: only the author may change an article. */
  method UpdateNews(table: NewsTable, me: UserId, id: string, title: Option<string>, content: Option<string>,
                    imageUrl: Option<string>, category: Option<string>, published: Option<bool>)
    returns (reply: Envelope<Article>)
    modifies table
    ensures FindIndex(old(table.rows), (a: Article) => a.id == id).None? ==>
      reply == Error("News not found", Some(404)) && table.rows == old(table.rows)
    ensures FindIndex(old(table.rows), (a: Article) => a.id == id).Some? ==>
      var k := FindIndex(old(table.rows), (a: Article) => a.id == id).value;
      (old(table.rows)[k].authorId != me ==>
         reply == Error("Unauthorized to update this news", Some(403)) && table.rows == old(table.rows))
      && (old(table.rows)[k].authorId == me ==>
         var a := NewsUpdated(old(table.rows)[k], title, content, imageUrl, category, published);
         table.rows == old(table.rows)[k := a] && reply == Success("News updated successfully", Some(a)))
  {
    var found := FindIndex(table.rows, (a: Article) => a.id == id);
    if found.None? {
      return Error("News not found", Some(404));
    }
    var k := found.value;
    var news := table.rows[k];
    if news.authorId != me {
      return Error("Unauthorized to update this news", Some(403));
    }
    if Truthy(title) { news := news.(title := title.value); }
    if Truthy(content) { news := news.(content := content.value); }
    if Truthy(imageUrl) { news := news.(imageUrl := imageUrl); }
    if Truthy(category) { news := news.(category := category); }
    if published.Some? { news := news.(published := published.value); }
    table.rows := table.rows[k := news];
    reply := Success("News updated successfully", Some(news));
  }

  /** `deleteNews`: only the author may delete an article. */
  method DeleteNews(table: NewsTable, me: UserId, id: string) returns (reply: Envelope<Article>)
    modifies table
    ensures FindIndex(old(table.rows), (a: Article) => a.id == id).None? ==>
      reply == Error("News not found", Some(404)) && table.rows == old(table.rows)
    ensures FindIndex(old(table.rows), (a: Article) => a.id == id).Some? ==>
      var k := FindIndex(old(table.rows), (a: Article) => a.id == id).value;
      (old(table.rows)[k].authorId != me ==>
         reply == Error("Unauthorized to delete this news", Some(403)) && table.rows == old(table.rows))
      && (old(table.rows)[k].authorId == me ==>
         table.rows == old(table.rows)[..k] + old(table.rows)[k + 1..]
         && reply == Success("News deleted successfully"))
    ensures forall a :: a in old(table.rows) && a.authorId != me ==> a in table.rows
  {
    var found := FindIndex(table.rows, (a: Article) => a.id == id);
    if found.None? {
      return Error("News not found", Some(404));
    }
    var k := found.value;
    if table.rows[k].authorId != me {
      return Error("Unauthorized to delete this news", Some(403));
    }
    var before := table.rows;
    table.rows := before[..k] + before[k + 1..];
    forall a | a in before && a.authorId != me ensures a in table.rows {
      var j :| 0 <= j < |before| && before[j] == a;
      if j < k { assert table.rows[j] == a; } else { assert table.rows[j - 1] == a; }
    }
    reply := Success("News deleted successfully");
  }
}
