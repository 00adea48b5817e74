/** The content crawler: feed items become articles, articles are deduplicated
    by a content hash against the `articles` table and persisted with
    `INSERT OR IGNORE`; plus the two read-only queries over the store. */
module Crawler {
  import opened Common
  import opened Text
  import opened Store

  /** A JavaScript `Date`: a time in milliseconds, or "Invalid Date". */
  datatype Timestamp = At(ms: int) | InvalidDate

  predicate IsHexDigit(c: char) {
    '0' <= c <= '9' || 'a' <= c <= 'f'
  }

  /** An md5 digest as `digest('hex')` writes it. */
  type Digest = s: string | |s| == 32 && forall i :: 0 <= i < |s| ==> IsHexDigit(s[i])
    witness "00000000000000000000000000000000"

  /** A value of `crypto.randomUUID()`. */
  type Uuid = s: string | |s| == 36 witness "00000000-0000-0000-0000-000000000000"

  /** An article. Optional text fields hold "" when absent: every place that
      reads them tests them with `||`, where undefined and '' behave alike. */
  datatype Article = Article(
    id: string,
    title: string,
    url: string,
    author: string,
    publishTime: Timestamp,
    summary: string,
    content: string,
    coverImage: string,
    hash: string)

  /** A raw item as the feed parser returns it ("" for a missing field), with
      the UUID that `randomUUID` would return if this item needs one. */
  datatype FeedItem = FeedItem(
    guid: string,
    link: string,
    title: string,
    author: string,
    creator: string,
    pubDate: string,
    contentSnippet: string,
    content: string,
    enclosureUrl: string,
    image: string,
    drawnId: Uuid)

  datatype Feed = Feed(title: string, items: seq<FeedItem>)

  /** What `parser.parseURL` yields: a feed, or any network or parse failure. */
  datatype FetchOutcome = Fetched(feed: Feed) | FetchFailed

  datatype RssSource = RssSource(name: string, url: string, enabled: Option<bool>)

  /** The collaborators a fetch uses: the feed reader, the current time, the
      `Date` parser and md5. */
  datatype FetchEnv = FetchEnv(
    fetch: string -> FetchOutcome,
    now: int,
    parseDate: string -> Timestamp,
    md5: string -> Digest)

  const UntitledTitle: string := "无标题"
  const UnknownAuthor: string := "Unknown"

  /** JavaScript's `a || b` on strings. */
  function Or(a: string, b: string): string {
    if a != "" then a else b
  }

  /** The dedup key: md5 over the title followed by the first 100 characters of the summary. */
  function CalculateHash(title: string, summary: string, md5: string -> Digest): Digest {
    md5(title + Take(summary, 100))
  }

  /** Equal titles and equal 100-character summary prefixes give equal hashes. */
  lemma HashDependsOnTitleAndPrefix(t1: string, s1: string, t2: string, s2: string, md5: string -> Digest)
    requires t1 == t2 && Take(s1, 100) == Take(s2, 100)
    ensures CalculateHash(t1, s1, md5) == CalculateHash(t2, s2, md5)
  {
  }

  /** Title and summary are joined without a separator, so moving characters
      from the end of the title to the start of a short summary keeps the hash. */
  lemma HashIgnoresTitleBoundary(t: string, u: string, s: string, md5: string -> Digest)
    requires |u| + |s| <= 100
    ensures CalculateHash(t + u, s, md5) == CalculateHash(t, u + s, md5)
  {
    assert (t + u) + Take(s, 100) == t + Take(u + s, 100);
  }

  /** One feed item as an article (the object literal in `fetchFromRSS`). */
  function Normalise(item: FeedItem, feedTitle: string, env: FetchEnv): (a: Article)
    ensures a.id != "" && a.title != "" && a.author != "" && a.hash != ""
    ensures a.hash == CalculateHash(a.title, a.summary, env.md5)
    ensures a.id == (if item.guid != "" then item.guid else if item.link != "" then item.link else item.drawnId)
    ensures a.title == (if item.title != "" then item.title else UntitledTitle)
    ensures a.url == item.link && a.content == item.content
    ensures a.author == (if item.author != "" then item.author
                         else if item.creator != "" then item.creator
                         else if feedTitle != "" then feedTitle else UnknownAuthor)
    ensures a.summary == (if item.contentSnippet != "" then item.contentSnippet else Take(item.content, 200))
    ensures a.publishTime == (if item.pubDate != "" then env.parseDate(item.pubDate) else At(env.now))
  {
    var title := Or(item.title, UntitledTitle);
    var summary := Or(item.contentSnippet, Or(Take(item.content, 200), ""));
    Article(
      Or(item.guid, Or(item.link, item.drawnId)),
      title,
      Or(item.link, ""),
      Or(item.author, Or(item.creator, Or(feedTitle, UnknownAuthor))),
      if item.pubDate != "" then env.parseDate(item.pubDate) else At(env.now),
      summary,
      item.content,
      Or(item.enclosureUrl, Or(item.image, "")),
      CalculateHash(title, summary, env.md5))
  }

  /** What `fetchFromRSS(url)` returns: every item normalised, in feed order,
      or nothing when the fetch fails. */
  function FeedArticles(url: string, env: FetchEnv): seq<Article> {
    match env.fetch(url)
    case FetchFailed => []
    case Fetched(feed) =>
      seq(|feed.items|, k requires 0 <= k < |feed.items| => Normalise(feed.items[k], feed.title, env))
  }

  method FetchFromRss(url: string, env: FetchEnv) returns (articles: seq<Article>)
    ensures articles == FeedArticles(url, env)
  {
    match env.fetch(url)
    case FetchFailed =>
      articles := [];
    case Fetched(feed) =>
      articles := [];
      for i := 0 to |feed.items|
        invariant |articles| == i
        invariant forall k :: 0 <= k < i ==> articles[k] == Normalise(feed.items[k], feed.title, env)
      {
        var article := Normalise(feed.items[i], feed.title, env);
        articles := articles + [article];
      }
  }

  /** `source.enabled !== false`: a source without the flag is enabled. */
  predicate Enabled(source: RssSource) {
    source.enabled != Some(false)
  }

  /** What one source contributes to `fetchFromMultipleSources`. */
  function SourceArticles(env: FetchEnv): RssSource -> seq<Article> {
    source => if Enabled(source) then FeedArticles(source.url, env) else []
  }

  /** What `fetchFromMultipleSources` returns: the articles of the enabled
      sources, concatenated in source order. */
  function FetchAll(sources: seq<RssSource>, env: FetchEnv): seq<Article> {
    FlatMap(sources, SourceArticles(env))
  }

  method FetchFromMultipleSources(sources: seq<RssSource>, env: FetchEnv) returns (all: seq<Article>)
    ensures all == FetchAll(sources, env)
  {
    all := [];
    for i := 0 to |sources|
      invariant all == FetchAll(sources[..i], env)
    {
      var source := sources[i];
      if Enabled(source) {
        var articles := FetchFromRss(source.url, env);
        all := all + articles;
      }
      PrefixSnoc(sources, i);
    }
    WholePrefix(sources);
  }

  /** Each source contributes its own articles at its own place: one that is
      disabled or whose fetch fails contributes nothing and leaves the sources
      after it untouched. */
  lemma {:induction false} FetchAllIsolatesSources(a: seq<RssSource>, source: RssSource, b: seq<RssSource>, env: FetchEnv)
    ensures FetchAll(a + [source] + b, env) ==
            FetchAll(a, env) + (if Enabled(source) then FeedArticles(source.url, env) else []) + FetchAll(b, env)
    ensures !Enabled(source) || env.fetch(source.url) == FetchFailed ==>
            FetchAll(a + [source] + b, env) == FetchAll(a, env) + FetchAll(b, env)
  {
    var f := SourceArticles(env);
    var c := if Enabled(source) then FeedArticles(source.url, env) else [];
    FlatMapAppend(a + [source], b, f);
    FlatMapAppend(a, [source], f);
    assert [source][..0] == [];
    assert FlatMap([source], f) == f(source) == c;
    if !Enabled(source) || env.fetch(source.url) == FetchFailed {
      assert c == [];
      assert FetchAll(a, env) + c == FetchAll(a, env);
    }
  }

  // Deduplication

  function StoredHashes(rows: seq<ArticleRow>): set<string> {
    set r | r in rows :: r.hash
  }

  /** The test inside `filterNewArticles`: the article has a hash and no stored row has that hash. */
  predicate IsNew(a: Article, rows: seq<ArticleRow>) {
    a.hash != "" && a.hash !in StoredHashes(rows)
  }

  function IsNewIn(rows: seq<ArticleRow>): Article -> bool {
    a => IsNew(a, rows)
  }

  /** `filterNewArticles`: the new articles of the batch, in batch order. Every
      occurrence of a new article is kept, so two articles of one batch that
      share a hash are both kept. */
  function FilterNewArticles(articles: seq<Article>, rows: seq<ArticleRow>): (r: seq<Article>)
    ensures IsSubsequence(r, articles)
    ensures forall a :: a in r ==> IsNew(a, rows)
    ensures forall a :: multiset(r)[a] == if IsNew(a, rows) then multiset(articles)[a] else 0
  {
    FilterIsSubsequence(articles, IsNewIn(rows));
    FilterCounts(articles, IsNewIn(rows));
    Filter(articles, IsNewIn(rows))
  }

  lemma SameHashBothKept(a: Article, b: Article, rows: seq<ArticleRow>)
    requires a.hash == b.hash && IsNew(a, rows)
    ensures IsNew(b, rows)
    ensures FilterNewArticles([a, b], rows) == [a, b]
  {
    FilterAllKept([a, b], IsNewIn(rows));
  }

  // Persistence

  function PublishMillis(t: Timestamp): Option<int> {
    match t
    case At(ms) => Some(ms)
    case InvalidDate => None
  }

  /** The values `saveArticles` binds for one article. */
  function RowOf(a: Article): ArticleRow {
    ArticleRow(a.id, a.url, a.title, a.author, PublishMillis(a.publishTime), Or(a.content, ""), a.hash)
  }

  /** The `articles` table after `saveArticles(articles)`: each article that
      has a hash is offered to `INSERT OR IGNORE`, in order, so a row inserted
      earlier in the batch can block a later one. */
  function SaveAll(rows: seq<ArticleRow>, articles: seq<Article>): (r: seq<ArticleRow>)
    ensures |rows| <= |r| <= |rows| + |articles|
    ensures r[..|rows|] == rows
    ensures UniqueKeys(rows) ==> UniqueKeys(r)
  {
    if articles == [] then rows
    else
      var before := SaveAll(rows, articles[..|articles| - 1]);
      var a := articles[|articles| - 1];
      if a.hash != "" then InsertOrIgnore(before, RowOf(a)) else before
  }

  method SaveArticles(db: Database, articles: seq<Article>) returns (saved: nat)
    requires db.Valid()
    modifies db
    ensures db.Valid()
    ensures db.articles == SaveAll(old(db.articles), articles)
    ensures saved == |db.articles| - |old(db.articles)| && saved <= |articles|
    ensures db.sendLogs == old(db.sendLogs) && db.config == old(db.config)
  {
    if |articles| == 0 {
      return 0;
    }
    saved := 0;
    for i := 0 to |articles|
      invariant db.Valid()
      invariant db.articles == SaveAll(old(db.articles), articles[..i])
      invariant saved == |db.articles| - |old(db.articles)|
      invariant db.sendLogs == old(db.sendLogs) && db.config == old(db.config)
    {
      var article := articles[i];
      if article.hash != "" {
        var changes := db.InsertArticleOrIgnore(RowOf(article));
        if changes > 0 {
          saved := saved + 1;
        }
      }
      PrefixSnoc(articles, i);
    }
    WholePrefix(articles);
  }

  /** After a save, every article of the batch that has a hash is blocked from
      a second insert: its id or its url is in the table. */
  lemma {:induction false} SaveAllCovers(rows: seq<ArticleRow>, articles: seq<Article>)
    ensures forall a :: a in articles && a.hash != "" ==>
      a.id in Ids(SaveAll(rows, articles)) || a.url in Urls(SaveAll(rows, articles))
  {
    if articles != [] {
      var init := articles[..|articles| - 1];
      SaveAllCovers(rows, init);
      var before := SaveAll(rows, init);
      var after := SaveAll(rows, articles);
      assert Ids(before) <= Ids(after) && Urls(before) <= Urls(after) by {
        assert after == before || after == before + [RowOf(articles[|articles| - 1])];
      }
      assert articles == init + [articles[|articles| - 1]];
    }
  }

  /** Offering articles that are all blocked changes nothing. */
  lemma {:induction false} SaveAllBlocked(rows: seq<ArticleRow>, articles: seq<Article>)
    requires forall a :: a in articles && a.hash != "" ==> a.id in Ids(rows) || a.url in Urls(rows)
    ensures SaveAll(rows, articles) == rows
  {
    if articles != [] {
      SaveAllBlocked(rows, articles[..|articles| - 1]);
    }
  }

  /** `saveArticles` is idempotent: saving the same batch again adds no row (and so returns 0). */
  lemma SaveAllIdempotent(rows: seq<ArticleRow>, articles: seq<Article>)
    ensures SaveAll(SaveAll(rows, articles), articles) == SaveAll(rows, articles)
  {
    SaveAllCovers(rows, articles);
    SaveAllBlocked(SaveAll(rows, articles), articles);
  }

  /** When every article of the batch was inserted, each one's row is in the table. */
  lemma {:induction false} SaveAllComplete(rows: seq<ArticleRow>, articles: seq<Article>)
    requires |SaveAll(rows, articles)| == |rows| + |articles|
    ensures forall a :: a in articles ==> a.hash != "" && RowOf(a) in SaveAll(rows, articles)
  {
    if articles != [] {
      var init := articles[..|articles| - 1];
      var last := articles[|articles| - 1];
      var before := SaveAll(rows, init);
      var after := SaveAll(rows, articles);
      assert |before| == |rows| + |init|;
      SaveAllComplete(rows, init);
      assert last.hash != "" && after == InsertOrIgnore(before, RowOf(last));
      assert after == before + [RowOf(last)];
      forall a | a in articles ensures a.hash != "" && RowOf(a) in after {
        InInitOrLast(articles, a);
      }
    }
  }

  /** Once a whole batch has been inserted, filtering it again finds nothing new. */
  lemma SavedBatchIsNotNew(rows: seq<ArticleRow>, articles: seq<Article>)
    requires |SaveAll(rows, articles)| == |rows| + |articles|
    ensures FilterNewArticles(articles, SaveAll(rows, articles)) == []
  {
    var after := SaveAll(rows, articles);
    SaveAllComplete(rows, articles);
    forall a | a in articles ensures !IsNew(a, after) {
      assert RowOf(a).hash == a.hash;
    }
    FilterNoneKept(articles, IsNewIn(after));
  }

  /** An article republished under a stored id or url but with a new hash (an
      edited title, say) passes the filter, is ignored by the insert, and so
      leaves the table as it was and passes the filter again on every later cycle. */
  lemma EditedArticleStaysNew(rows: seq<ArticleRow>, a: Article)
    requires IsNew(a, rows) && (a.id in Ids(rows) || a.url in Urls(rows))
    ensures FilterNewArticles([a], rows) == [a]
    ensures SaveAll(rows, [a]) == rows
    ensures FilterNewArticles([a], SaveAll(rows, [a])) == [a]
  {
    FilterAllKept([a], IsNewIn(rows));
    assert SaveAll(rows, [a]) == InsertOrIgnore(SaveAll(rows, []), RowOf(a));
  }

  // Queries

  predicate SentRecord(l: SendLogRow, articleId: string, targetId: string) {
    l.articleId == articleId && l.targetId == targetId && l.status == "success"
  }

  /** `isArticleSent`: some send log row records a successful send of the article to the target. */
  function IsArticleSent(logs: seq<SendLogRow>, articleId: string, targetId: string): (r: bool)
    ensures r <==> exists i :: 0 <= i < |logs| && SentRecord(logs[i], articleId, targetId)
  {
    if logs == [] then false
    else
      var l := logs[|logs| - 1];
      var init := logs[..|logs| - 1];
      var found := IsArticleSent(init, articleId, targetId);
      assert forall i :: 0 <= i < |init| ==> init[i] == logs[i];
      found || SentRecord(l, articleId, targetId)
  }

  /** `ORDER BY publish_time DESC` puts `a` no later than `b`: SQLite sorts NULL below every number. */
  predicate NewerOrEqual(a: ArticleRow, b: ArticleRow) {
    match b.publishTime
    case None => true
    case Some(t) => a.publishTime.Some? && a.publishTime.value >= t
  }

  ghost predicate NewestFirst(s: seq<ArticleRow>) {
    forall i, j :: 0 <= i < j < |s| ==> NewerOrEqual(s[i], s[j])
  }

  function InsertByTime(x: ArticleRow, s: seq<ArticleRow>): (r: seq<ArticleRow>)
    requires NewestFirst(s)
    ensures NewestFirst(r)
    ensures multiset(r) == multiset(s) + multiset{x}
    ensures |r| == |s| + 1 && (r[0] == x || (s != [] && r[0] == s[0]))
  {
    if s == [] then [x]
    else if NewerOrEqual(x, s[0]) then [x] + s
    else
      var tail := InsertByTime(x, s[1..]);
      assert s == [s[0]] + s[1..];
      [s[0]] + tail
  }

  function SortNewestFirst(s: seq<ArticleRow>): (r: seq<ArticleRow>)
    ensures NewestFirst(r) && multiset(r) == multiset(s)
  {
    if s == [] then []
    else
      assert s == [s[0]] + s[1..];
      InsertByTime(s[0], SortNewestFirst(s[1..]))
  }

  lemma NewestFirstPrefix(s: seq<ArticleRow>, n: nat)
    requires n <= |s| && NewestFirst(s)
    ensures NewestFirst(s[..n])
  {
    forall i, j | 0 <= i < j < n ensures NewerOrEqual(s[..n][i], s[..n][j]) {
      assert s[..n][i] == s[i] && s[..n][j] == s[j];
    }
  }

  /** The rows `SELECT * FROM articles ORDER BY publish_time DESC LIMIT limit`
      returns; SQLite reads a negative limit as no limit. Rows with equal
      times may come in any order; the model picks one. */
  function RecentRows(rows: seq<ArticleRow>, limit: int): (r: seq<ArticleRow>)
    ensures |r| == if limit < 0 || limit > |rows| then |rows| else limit
    ensures NewestFirst(r)
    ensures multiset(r) <= multiset(rows)
  {
    var sorted := SortNewestFirst(rows);
    var n := if limit < 0 || limit > |rows| then |rows| else limit;
    PrefixIncluded(sorted, n);
    NewestFirstPrefix(sorted, n);
    sorted[..n]
  }

  /** No row left out by the limit is newer than a row that was returned. */
  lemma RecentRowsAreNewest(rows: seq<ArticleRow>, limit: int, x: ArticleRow, y: ArticleRow)
    requires x in RecentRows(rows, limit) && y in multiset(rows) - multiset(RecentRows(rows, limit))
    ensures NewerOrEqual(x, y)
  {
    var sorted := SortNewestFirst(rows);
    var r := RecentRows(rows, limit);
    assert r == sorted[..|r|];
    var i :| 0 <= i < |r| && r[i] == x;
    var j := PrefixRemainder(sorted, |r|, y);
    assert sorted[i] == x;
  }

  /** A stored row read back as an article: `new Date(NULL)` is time 0, the
      summary is the first 200 characters of the content, and neither a cover
      image nor a hash is read back. */
  function ArticleOfRow(row: ArticleRow): Article {
    Article(row.id, row.title, row.url, row.author,
            At(match row.publishTime case Some(t) => t case None => 0),
            Or(Take(row.content, 200), ""), row.content, "", "")
  }

  /** `getRecentArticles(limit)`: the newest `limit` stored articles, newest
      first (a call without an argument passes 50). */
  function GetRecentArticles(rows: seq<ArticleRow>, limit: int): (r: seq<Article>)
    ensures |r| == |RecentRows(rows, limit)|
    ensures forall i :: 0 <= i < |r| ==> r[i] == ArticleOfRow(RecentRows(rows, limit)[i])
  {
    var recent := RecentRows(rows, limit);
    seq(|recent|, i requires 0 <= i < |recent| => ArticleOfRow(recent[i]))
  }
}
