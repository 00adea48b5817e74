/** The SQLite database of the bot, as in-memory tables: `articles` (id is the
    primary key, url is unique), `send_logs` (article_id references
    articles(id), foreign keys switched on) and the `config` key-value table. */
module Store {
  import opened Common

  /** A row of `articles`. `publishTime` is None when a NaN time was bound
      (SQLite stores it as NULL). `cover_image` is never written, `fetched_at`
      is a database default; neither is modelled. */
  datatype ArticleRow = ArticleRow(
    id: string,
    url: string,
    title: string,
    author: string,
    publishTime: Option<int>,
    content: string,
    hash: string)

  /** A row of `send_logs`; the autoincrement id and `sent_at` are left out. */
  datatype SendLogRow = SendLogRow(articleId: string, targetId: string, targetType: string, status: string)

  function Ids(rows: seq<ArticleRow>): set<string> {
    set r | r in rows :: r.id
  }

  function Urls(rows: seq<ArticleRow>): set<string> {
    set r | r in rows :: r.url
  }

  /** The PRIMARY KEY on id and the UNIQUE constraint on url. */
  ghost predicate UniqueKeys(rows: seq<ArticleRow>) {
    forall i, j :: 0 <= i < j < |rows| ==> rows[i].id != rows[j].id && rows[i].url != rows[j].url
  }

  /** `INSERT OR IGNORE INTO articles`: the row is added unless its id or its url
      is already present; otherwise the table is left as it was. */
  function InsertOrIgnore(rows: seq<ArticleRow>, row: ArticleRow): (r: seq<ArticleRow>)
    ensures UniqueKeys(rows) ==> UniqueKeys(r)
    ensures r == rows || r == rows + [row]
    ensures r == rows + [row] <==> row.id !in Ids(rows) && row.url !in Urls(rows)
    ensures Ids(r) == Ids(rows) + (if r == rows then {} else {row.id})
  {
    if row.id in Ids(rows) || row.url in Urls(rows) then rows
    else
      var r := rows + [row];
      assert forall i :: 0 <= i < |rows| ==> rows[i] in rows;
      assert Ids(r) == Ids(rows) + {row.id};
      r
  }

  class Database {
    var articles: seq<ArticleRow>
    var sendLogs: seq<SendLogRow>
    var config: map<string, string>

    /** The table constraints: unique keys, and every send log refers to a stored article. */
    ghost predicate Valid()
      reads this
    {
      UniqueKeys(articles) &&
      forall l :: l in sendLogs ==> l.articleId in Ids(articles)
    }

    constructor (config: map<string, string>)
      ensures Valid()
      ensures articles == [] && sendLogs == [] && this.config == config
    {
      articles := [];
      sendLogs := [];
      this.config := config;
    }

    /** Runs one `INSERT OR IGNORE` and reports `result.changes`. */
    method InsertArticleOrIgnore(row: ArticleRow) returns (changes: nat)
      requires Valid()
      modifies this
      ensures Valid()
      ensures articles == InsertOrIgnore(old(articles), row)
      ensures changes == |articles| - |old(articles)|
      ensures sendLogs == old(sendLogs) && config == old(config)
    {
      var before := |articles|;
      articles := InsertOrIgnore(articles, row);
      changes := |articles| - before;
    }

    /** Runs one `INSERT INTO send_logs`; it fails (and adds nothing) when the
        article id violates the foreign key. */
    method InsertSendLog(row: SendLogRow) returns (ok: bool)
      requires Valid()
      modifies this
      ensures Valid()
      ensures ok <==> row.articleId in Ids(articles)
      ensures sendLogs == old(sendLogs) + (if ok then [row] else [])
      ensures articles == old(articles) && config == old(config)
    {
      ok := row.articleId in Ids(articles);
      if ok {
        sendLogs := sendLogs + [row];
      }
    }
  }
}
