/** `FeishuMessenger`'s sending side: the message each send puts on the wire,
    what the transport's answer does, and the `send_logs` rows written after
    a delivered morning brief. The SDK client is the `transport` parameter:
    it answers true when `client.im.message.create` resolves and false when
    it rejects. */
module FeishuMessenger {
  import opened Common
  import opened Store
  import opened Crawler
  import opened FeishuRender

  datatype ChatType = Group | User

  /** A target chat. `type` and `enabled` are optional in the configuration. */
  datatype TargetChat = TargetChat(id: string, name: string, kind: Option<ChatType>, enabled: Option<bool>)

  /** The string the chat type is written as, which `logSend` stores as `target_type`. */
  function TypeName(t: ChatType): string {
    match t
    case Group => "group"
    case User => "user"
  }

  /** The `receive_id_type` parameter: users are addressed by open id, groups by chat id. */
  function ReceiveIdType(t: ChatType): (r: string)
    ensures r == "open_id" <==> t == User
    ensures t == Group ==> r == "chat_id"
  {
    if t == User then "open_id" else "chat_id"
  }

  /** The body of a message: an interactive card, or `{ text }` of `msg_type` text. */
  datatype Payload = Interactive(card: Card) | TextContent(text: string)

  /** One `client.im.message.create` request. */
  datatype Message = Message(receiveIdType: string, receiveId: string, payload: Payload)

  datatype DeliveryError = SendFailed(receiveId: string)

  const NoNewArticlesLine: string := "暂时没有新文章，请稍后再查看"
  const MonitoringLine: string := "将继续监控 RSS 源，有新文章时会及时推送"

  /** The grey card `sendNoNewArticlesNotice` sends. */
  function NoticeCard(today: DateParts): Card {
    Card(true, Header(BriefTitle, "grey"),
         [Div(LarkMd, "**日期**: " + FormatDate(today)),
          Hr,
          Div(LarkMd, NoNewArticlesLine),
          Div(PlainText, MonitoringLine)])
  }

  function CardMessage(chatId: string, chatType: ChatType, card: Card): Message {
    Message(ReceiveIdType(chatType), chatId, Interactive(card))
  }

  /** The message `sendMorningBrief` sends: the notice when there is nothing
      to report, the morning card otherwise. */
  function BriefMessage(chatId: string, articles: seq<Article>, chatType: ChatType, clock: Clock): Message {
    if articles == [] then CardMessage(chatId, chatType, NoticeCard(clock.today))
    else CardMessage(chatId, chatType, MorningCard(articles, clock))
  }

  /** The row `logSend` tries to insert for one article, kept when the
      article's id is stored (the foreign key on `article_id`). */
  function LogRowOf(ids: set<string>, targetId: string, targetType: string): Article -> seq<SendLogRow> {
    (a: Article) => if a.id in ids then [SendLogRow(a.id, targetId, targetType, "success")] else []
  }

  /** The rows `logSend` adds, in article order, when `ids` are the stored article ids. */
  function LogRows(ids: set<string>, articles: seq<Article>, targetId: string, targetType: string): seq<SendLogRow> {
    FlatMap(articles, LogRowOf(ids, targetId, targetType))
  }

  /** The rows a `sendMorningBrief` call adds: only a delivered brief (not the
      notice, not a failed send) is logged. */
  function LogsOnSend(ids: set<string>, articles: seq<Article>, chatId: string, chatType: ChatType, delivered: bool)
    : seq<SendLogRow>
  {
    if articles != [] && delivered then LogRows(ids, articles, chatId, TypeName(chatType)) else []
  }

  // Sending

  /** `sendMorningBrief`: sends the notice when `articles` is empty and the
      morning card otherwise; a delivered card is then logged, and a failed
      send is reported (rethrown) with nothing logged. */
  method SendMorningBrief(db: Database, chatId: string, articles: seq<Article>, chatType: ChatType, clock: Clock,
                          transport: Message -> bool)
    returns (sent: Message, r: Outcome<DeliveryError>)
    requires db.Valid()
    modifies db
    ensures db.Valid()
    ensures sent == BriefMessage(chatId, articles, chatType, clock)
    ensures r == if transport(sent) then Pass else Fail(SendFailed(chatId))
    ensures db.sendLogs == old(db.sendLogs) + LogsOnSend(Ids(old(db.articles)), articles, chatId, chatType, transport(sent))
    ensures db.articles == old(db.articles) && db.config == old(db.config)
  {
    if |articles| == 0 {
      sent, r := SendNoNewArticlesNotice(chatId, chatType, clock, transport);
      return;
    }
    var card := BuildMorningCard(articles, clock);
    sent, r := SendLoggedCard(db, chatId, card, articles, chatType, transport);
  }

  /** The `try` block of `sendMorningBrief`: sends the card and, once it is
      delivered, logs the articles; a failed send logs nothing. */
  method SendLoggedCard(db: Database, chatId: string, card: Card, articles: seq<Article>, chatType: ChatType,
                        transport: Message -> bool)
    returns (sent: Message, r: Outcome<DeliveryError>)
    requires db.Valid()
    modifies db
    ensures db.Valid()
    ensures sent == CardMessage(chatId, chatType, card)
    ensures r == if transport(sent) then Pass else Fail(SendFailed(chatId))
    ensures db.sendLogs == old(db.sendLogs) +
      (if transport(sent) then LogRows(Ids(old(db.articles)), articles, chatId, TypeName(chatType)) else [])
    ensures db.articles == old(db.articles) && db.config == old(db.config)
  {
    sent := CardMessage(chatId, chatType, card);
    if transport(sent) {
      LogSend(db, articles, chatId, TypeName(chatType));
      r := Pass;
    } else {
      r := Fail(SendFailed(chatId));
    }
  }

  /** `sendNoNewArticlesNotice`. */
  method SendNoNewArticlesNotice(chatId: string, chatType: ChatType, clock: Clock, transport: Message -> bool)
    returns (sent: Message, r: Outcome<DeliveryError>)
    ensures sent == CardMessage(chatId, chatType, NoticeCard(clock.today))
    ensures r == if transport(sent) then Pass else Fail(SendFailed(chatId))
  {
    sent := CardMessage(chatId, chatType, NoticeCard(clock.today));
    r := if transport(sent) then Pass else Fail(SendFailed(chatId));
  }

  /** `sendTextMessage`: a plain `text` message; a failed send propagates. */
  method SendTextMessage(chatId: string, text: string, chatType: ChatType, transport: Message -> bool)
    returns (sent: Message, r: Outcome<DeliveryError>)
    ensures sent.receiveIdType == ReceiveIdType(chatType) && sent.receiveId == chatId
    ensures sent.payload == TextContent(text)
    ensures r.Pass? <==> transport(sent)
  {
    sent := Message(ReceiveIdType(chatType), chatId, TextContent(text));
    r := if transport(sent) then Pass else Fail(SendFailed(chatId));
  }

  /** `logSend`: one `success` row per article, inside one transaction; a row
      whose insert fails is skipped and the rest are still written. */
  method LogSend(db: Database, articles: seq<Article>, targetId: string, targetType: string)
    requires db.Valid()
    modifies db
    ensures db.Valid()
    ensures db.sendLogs == old(db.sendLogs) + LogRows(Ids(old(db.articles)), articles, targetId, targetType)
    ensures db.articles == old(db.articles) && db.config == old(db.config)
  {
    ghost var ids := Ids(db.articles);
    ghost var logs := db.sendLogs;
    ghost var rowOf := LogRowOf(ids, targetId, targetType);
    for i := 0 to |articles|
      invariant db.Valid()
      invariant db.articles == old(db.articles) && db.config == old(db.config)
      invariant db.sendLogs == logs + FlatMap(articles[..i], rowOf)
    {
      var article := articles[i];
      FlatMapPush(logs, articles, i, rowOf);
      var ok := db.InsertSendLog(SendLogRow(article.id, targetId, targetType, "success"));
    }
    WholePrefix(articles);
  }

  // Properties

  /** The addressing of every send: the chat id, by open id exactly for users;
      the notice card is grey with its four fixed elements, the brief card
      turquoise. */
  lemma BriefMessageShape(chatId: string, articles: seq<Article>, chatType: ChatType, clock: Clock)
    ensures var m := BriefMessage(chatId, articles, chatType, clock);
      m.receiveId == chatId && (m.receiveIdType == "open_id" <==> chatType == User) &&
      m.payload.Interactive? && m.payload.card.header.title == BriefTitle &&
      (m.payload.card.header.template == "grey" <==> articles == []) &&
      (articles == [] ==>
        |m.payload.card.elements| == 4 &&
        m.payload.card.elements[0] == Div(LarkMd, "**日期**: " + FormatDate(clock.today)) &&
        m.payload.card.elements[1] == Hr &&
        m.payload.card.elements[2] == Div(LarkMd, NoNewArticlesLine) &&
        m.payload.card.elements[3] == Div(PlainText, MonitoringLine)) &&
      (articles != [] ==> m.payload.card == MorningCard(articles, clock))
  {
    if articles == [] {
      NoticeCardShape(clock.today);
    }
  }

  /** The notice card: the date line, a divider, the no-new-articles line and
      the monitoring line, under the grey header. */
  lemma NoticeCardShape(today: DateParts)
    ensures var c := NoticeCard(today);
      c.header == Header(BriefTitle, "grey") && |c.elements| == 4 &&
      c.elements[0] == Div(LarkMd, "**日期**: " + FormatDate(today)) &&
      c.elements[1] == Hr &&
      c.elements[2] == Div(LarkMd, NoNewArticlesLine) &&
      c.elements[3] == Div(PlainText, MonitoringLine)
  {
  }

  /** The rows logged for a batch whose every article is stored: one `success`
      row per article, in article order, for the given target. */
  lemma {:induction false} LogRowsAllStored(ids: set<string>, articles: seq<Article>, targetId: string, targetType: string)
    requires forall a :: a in articles ==> a.id in ids
    ensures |LogRows(ids, articles, targetId, targetType)| == |articles|
    ensures forall i :: 0 <= i < |articles| ==>
      LogRows(ids, articles, targetId, targetType)[i] == SendLogRow(articles[i].id, targetId, targetType, "success")
  {
    if articles != [] {
      var init := articles[..|articles| - 1];
      assert forall a :: a in init ==> a in articles;
      LogRowsAllStored(ids, init, targetId, targetType);
    }
  }

  /** A logged row is a `success` row for the target and a batch article whose id is stored, and every such article has one. */
  lemma {:induction false} LogRowsMembers(ids: set<string>, articles: seq<Article>, targetId: string, targetType: string, l: SendLogRow)
    ensures l in LogRows(ids, articles, targetId, targetType) <==>
      l.targetId == targetId && l.targetType == targetType && l.status == "success" &&
      l.articleId in ids && exists a :: a in articles && a.id == l.articleId
  {
    if articles != [] {
      var init := articles[..|articles| - 1];
      var last := articles[|articles| - 1];
      LogRowsMembers(ids, init, targetId, targetType, l);
      assert forall a :: a in articles <==> a in init || a == last by {
        forall a | a in articles ensures a in init || a == last {
          InInitOrLast(articles, a);
        }
      }
    }
  }

  /** After logging a batch for `targetId`, `isArticleSent(x, u)` holds exactly
      when it held before, or `u` is that target and `x` the stored id of an
      article of the batch. */
  lemma LoggedArticlesAreSent(logs: seq<SendLogRow>, ids: set<string>, articles: seq<Article>,
                              targetId: string, targetType: string, x: string, u: string)
    ensures IsArticleSent(logs + LogRows(ids, articles, targetId, targetType), x, u) <==>
      IsArticleSent(logs, x, u) || (u == targetId && x in ids && exists a :: a in articles && a.id == x)
  {
    var rows := LogRows(ids, articles, targetId, targetType);
    var all := logs + rows;
    if IsArticleSent(all, x, u) {
      var i :| 0 <= i < |all| && SentRecord(all[i], x, u);
      if i >= |logs| {
        assert all[i] == rows[i - |logs|];
        LogRowsMembers(ids, articles, targetId, targetType, all[i]);
      } else {
        assert all[i] == logs[i];
      }
    }
    if u == targetId && x in ids && exists a :: a in articles && a.id == x {
      var row := SendLogRow(x, targetId, targetType, "success");
      LogRowsMembers(ids, articles, targetId, targetType, row);
      var k :| 0 <= k < |rows| && rows[k] == row;
      assert all[|logs| + k] == row;
    }
    if IsArticleSent(logs, x, u) {
      var i :| 0 <= i < |logs| && SentRecord(logs[i], x, u);
      assert all[i] == logs[i];
    }
  }

  /** Only a delivered, non-empty brief is logged, and what is logged never
      outnumbers the batch. */
  lemma {:induction false} LogsOnSendCases(ids: set<string>, articles: seq<Article>, chatId: string, chatType: ChatType, delivered: bool)
    ensures articles == [] || !delivered ==> LogsOnSend(ids, articles, chatId, chatType, delivered) == []
    ensures |LogsOnSend(ids, articles, chatId, chatType, delivered)| <= |articles|
    decreases |articles|
  {
    if articles != [] && delivered {
      var init := articles[..|articles| - 1];
      LogsOnSendCases(ids, init, chatId, chatType, delivered);
      if init == [] {
        assert LogRows(ids, init, chatId, TypeName(chatType)) == [];
      }
    }
  }
}
