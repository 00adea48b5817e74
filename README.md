# feishu-morning-bot, modelled in Dafny

The bot runs a fixed cycle:

1. It reads a list of RSS sources and a list of Feishu (Lark) target chats. Each list comes from the `config` table, or else from the environment.
2. It fetches every enabled feed and turns each item into an article.
3. It drops articles whose content hash is already stored.
4. It saves the rest with `INSERT OR IGNORE`.
5. It sends each enabled target a "morning brief" interactive card and logs one `send_logs` row per stored article after a delivered send.

A cron task table (`Scheduler`) registers and stops the cycle.

The model covers these parts of the code:

- **FeishuRender** (`render.dfy`): grouping articles by source label, the one-sentence summary, date and time formatting, `escapeMarkdown`, and the element layout of the card. `groupBySource` and `buildMorningCard` are loops that push into a dictionary and an array. They are modelled as methods and proved against the functions `SourceLabels`, `Members` and `MorningElements`.
- **FeishuMessenger** (`messenger.dfy`): `sendMorningBrief`, `sendNoNewArticlesNotice`, `sendTextMessage` and `logSend`, over a `Database` object.
  - The SDK client becomes a `transport: Message -> bool` parameter: true means the request resolved, false means it rejected.
  - A rejected send becomes a `Fail(SendFailed(chatId))` outcome.
- **Crawler** (`crawler.dfy`):
  - item normalisation, with its chain of `||` defaults;
  - the dedup hash, with md5 as an uninterpreted `md5` parameter;
  - `fetchFromMultipleSources`, `filterNewArticles` and `saveArticles`;
  - the two queries `isArticleSent` and `getRecentArticles`.
- **Store** (`store.dfy`): the SQLite tables as an in-memory `Database` class.
  - `articles` has `id` as PRIMARY KEY and `url` as UNIQUE.
  - `send_logs.article_id` references `articles(id)`, with foreign keys switched on.
  - `config` is a key–value map.
- **SchedulerService** (`scheduler.dfy`): the `Scheduler` class.
  - Its `tasks` Map is a sequence of entries in insertion order.
  - It has `addTask`, `stopTask`, `stopAllTasks`, `startMorningBrief`, `executeMorningBrief` with its early exits and its delivery loop, `triggerNow`, the config loaders and `getTasksStatus`.
  - `cron.validate` is a `cronValid` predicate. `JSON.parse` is a `parse` function that may fail. `task.getStatus()` is a `statusOf` function.
- **Text** and **Common** (`text.dfy`, `common.dfy`): the JavaScript string operations the summary uses (`trim`, `substring`, `split`, the three regular-expression replacements, `String(n)`, `padStart`). Also the generic sequence tools: filter, flat-map, group-by-key and the numbered run with separators.

### Where the code and the documentation differ

In each case below the model follows the code.

- With more than one group, the card puts a divider after every group, including the last one (`src/services/feishu.ts:107-109`). `MorningEndsWithDivider` proves that the card ends in a divider exactly when there are several groups.
- `escapeMarkdown` changes nothing. In a JavaScript string literal, `'\['` is just `'['`, so each `.replace` puts back the character it found (`EscapeMarkdown` ensures `r == text`).
- An unparseable `pubDate` gives an Invalid Date, not the current time. `formatTime` then prints `NaN:NaN`, and the row stores a NULL `publish_time`.
- `filterNewArticles` does not deduplicate within a batch: two articles with the same hash are both kept (`SameHashBothKept`). A kept article can still be refused by the insert because of its id or its url. Such an article passes the filter again on every later cycle (`EditedArticleStaysNew`).
- `generateShortSummary` cuts to 40 characters before it tests for more than 50, so its `...` branch is never taken (`ShortSummaryShape`).

## Model

| member | source | states |
|---|---|---|
| FeishuRender.SourceLabel | src/services/feishu.ts:129 | an article's group label is its author when the author is non-empty and `未知来源` when it is empty, so it is never empty |
| FeishuRender.GroupBySource | src/services/feishu.ts:125-137 | the dictionary filled in the loop has exactly the labels of the input as keys, in first-occurrence order, and maps each label to that label's articles in input order |
| FeishuRender.GroupsPartition | src/services/feishu.ts:125-137 | every article lands in the group of its own label, with all of its occurrences, and in no other group; each group is a subsequence of the input; each article's label is a key |
| FeishuRender.MembersNonEmpty | src/services/feishu.ts:130-133 | every key of the dictionary has at least one article |
| FeishuRender.GroupSizesSum | src/services/feishu.ts:125-137 | the group sizes add up to the number of input articles |
| FeishuRender.OccurrencesOfDistinct | src/services/feishu.ts:130-132 | a key list without repeats holds each label once or not at all |
| FeishuRender.GroupSizesCover | src/services/feishu.ts:125-137 | over distinct labels that cover every article, the group sizes sum to the batch length |
| FeishuRender.GroupSizesStep | src/services/feishu.ts:133 | one more article adds, to the summed sizes of a label list, the number of times its own label occurs in that list |
| FeishuRender.GroupSizesEmpty | src/services/feishu.ts:126 | with no articles every group is empty |
| FeishuRender.StrippedTextShape | src/services/feishu.ts:182 | the plain text after tag removal, newline replacement and trim has no line break and no `<` followed later by `>` |
| FeishuRender.CondensedShape | src/services/feishu.ts:185-191 | the cut and collapsed first sentence has at most 40 characters, no `。？！` or newline, and no tag pair |
| FeishuRender.Finish | src/services/feishu.ts:193-199 | the result is never empty; an empty summary gives the placeholder `点击查看详情`; a non-empty summary of at most 50 characters is returned unchanged; a longer one is its first 50 characters followed by `...`, 53 in all |
| FeishuRender.ShortSummaryShape | src/services/feishu.ts:177-200 | the summary is the placeholder `点击查看详情` exactly when the condensed sentence is empty (or is that text itself); otherwise it is that sentence, at most 40 characters, with no terminator, line break or tag, so the 50-character branch is unreachable |
| FeishuRender.EscapeMarkdown | src/services/feishu.ts:205-213 | the six replacements together leave every string unchanged |
| FeishuRender.FormatDateShape | src/services/feishu.ts:218-227 | for a four-digit year the date is `YYYY-MM-DD` followed by a space and the weekday name from the table: 13 characters, dashes at 4 and 7, zero-padded month and day |
| FeishuRender.FourDigitYear | src/services/feishu.ts:220 | `String(year)` has four characters for a year from 1000 to 9999 |
| FeishuRender.FormatTime | src/services/feishu.ts:232-236 | for a valid time, five characters `HH:MM` with zero-padded local hours and minutes and `:` at index 2; for an Invalid Date, `NaN:NaN` |
| FeishuRender.ArticleLines | src/services/feishu.ts:142-154 | an article renders as three elements; the first is `index. [title](url)` with the title unchanged |
| FeishuRender.ArticleSummaryAndTime | src/services/feishu.ts:155-171 | the second element is the non-empty short summary in lark_md; the third is two spaces and the formatted time in plain text |
| FeishuRender.ArticleRendererShape | src/services/feishu.ts:146-171 | every article renders as exactly three elements, the last of them not a divider |
| FeishuRender.MorningElements | src/services/feishu.ts:73-82 | the card starts with the date and count header div, then a divider |
| FeishuRender.BuildMorningCard | src/services/feishu.ts:67-120 | the card pushed by the nested loops is the wide-screen turquoise card titled `金融科技早报` whose elements are the preamble followed by the sections of the groups in key order |
| FeishuRender.PushGroups | src/services/feishu.ts:85-110 | the outer loop appends the sections of the keys, in key order, to what was already pushed |
| FeishuRender.PushGroup | src/services/feishu.ts:86-109 | one outer pass appends the group's title, its article run and, when there are several groups, a divider |
| FeishuRender.PushRun | src/services/feishu.ts:96-104 | the inner loop appends each item rendered with its 1-based index, and a divider after every item but the last |
| FeishuRender.ArticleRunLayout | src/services/feishu.ts:96-104 | in a group's run, article `k` sits at elements `4k .. 4k+2` and is numbered `k+1`, so numbering restarts per group; a divider follows every article but the last; the run is `4n-1` long and does not end with a divider |
| FeishuRender.SectionLength | src/services/feishu.ts:86-109 | a group of `n` articles takes `4n` elements, plus one when there are several groups |
| FeishuRender.SectionsLength | src/services/feishu.ts:85-110 | all sections together take four elements per article, plus one per group when there are several groups |
| FeishuRender.MorningLength | src/services/feishu.ts:67-120 | the card has `2 + 4 × articles` elements, plus one per group when there is more than one group |
| FeishuRender.SectionEnd | src/services/feishu.ts:101-109 | a group's section ends with a divider exactly when there are several groups |
| FeishuRender.MorningEndsWithDivider | src/services/feishu.ts:107-109 | a non-empty card ends with a divider exactly when there is more than one group |
| FeishuMessenger.ReceiveIdType | src/services/feishu.ts:43 | `receive_id_type` is `open_id` exactly for users and `chat_id` for groups |
| FeishuMessenger.SendMorningBrief | src/services/feishu.ts:32-62 | an empty list sends only the notice and logs nothing; otherwise the morning card is sent, logged on success, and on failure the error is reported and nothing is logged; articles and config are unchanged |
| FeishuMessenger.SendLoggedCard | src/services/feishu.ts:41-61 | the card message goes to the chat; only a delivered send runs `logSend`; a rejected one is rethrown as `SendFailed` |
| FeishuMessenger.SendNoNewArticlesNotice | src/services/feishu.ts:263-313 | the grey notice card is sent to the chat, and a rejected send is rethrown |
| FeishuMessenger.SendTextMessage | src/services/feishu.ts:318-329 | a `text` message carrying the text is addressed to the chat by its type; the outcome is success exactly when the transport accepts |
| FeishuMessenger.LogSend | src/services/feishu.ts:241-258 | the loop appends, in article order, one `success` row for the target per article whose id is stored; a row refused by the foreign key is skipped and the loop goes on; nothing else changes |
| FeishuMessenger.BriefMessageShape | src/services/feishu.ts:32-52 | cross-checks over every send: the message is addressed to the chat id, by `open_id` exactly for users; the notice (grey, four elements: date div, divider, message div, monitoring line) goes out exactly when there are no articles; otherwise the card is the morning card |
| FeishuMessenger.NoticeCardShape | src/services/feishu.ts:264-294 | the notice card has the grey header and exactly four elements: the date line, a divider, `暂时没有新文章，请稍后再查看` and the plain-text monitoring line |
| FeishuMessenger.LogRowsAllStored | src/services/feishu.ts:247-255 | when every article is stored, `logSend` adds exactly one row per article, in order, with the target, its type and `success` |
| FeishuMessenger.LogRowsMembers | src/services/feishu.ts:248-250 | a row is logged iff it is a `success` row for the target whose article id is stored and belongs to a batch article |
| FeishuMessenger.LoggedArticlesAreSent | src/services/feishu.ts:241-258 | after logging, `isArticleSent(x, u)` holds iff it held before, or `u` is the target and `x` is the stored id of a batch article |
| FeishuMessenger.LogsOnSendCases | src/services/feishu.ts:32-62 | an empty or undelivered brief logs nothing; a brief never logs more rows than it has articles |
| Crawler.Normalise | src/services/crawler.ts:47-59 | id is guid, else link, else a fresh UUID; title defaults to `无标题`; url is the link; author is author, else creator, else feed title, else `Unknown`, and is never empty; summary is contentSnippet, else the first 200 characters of content; publish time is the parsed pubDate, else now; the hash is taken over the final title and summary |
| Crawler.FetchFromRss | src/services/crawler.ts:41-69 | a fetched feed gives its items normalised in feed order; a failed fetch gives nothing |
| Crawler.FetchFromMultipleSources | src/services/crawler.ts:74-85 | the loop returns the concatenation, in source order, of what each enabled source yields |
| Crawler.FetchAllIsolatesSources | src/services/crawler.ts:65-82 | each source contributes its own articles in its own place; a disabled or failing source contributes nothing and does not affect the sources after it |
| Crawler.HashDependsOnTitleAndPrefix | src/services/crawler.ts:90-93 | equal titles and equal first 100 summary characters give equal hashes |
| Crawler.HashIgnoresTitleBoundary | src/services/crawler.ts:91 | title and summary are joined without a separator: moving the end `u` of a title to the front of a summary `s` keeps the hash whenever `u` and `s` together have at most 100 characters |
| Crawler.FilterNewArticles | src/services/crawler.ts:98-115 | the result is an order-preserving subsequence of the batch holding exactly the articles that have a hash not in the store, with every occurrence kept |
| Crawler.SameHashBothKept | src/services/crawler.ts:101-114 | two new articles of one batch that share a hash are both kept |
| Crawler.SaveArticles | src/services/crawler.ts:120-148 | the loop offers each article that has a hash to `INSERT OR IGNORE`, in order; the count returned is the number of rows added and at most the batch length; an empty batch returns 0 |
| Crawler.SaveAll | src/services/crawler.ts:128-145 | the table only grows, by at most the batch length, keeps its old rows as a prefix and keeps its keys unique |
| Crawler.SaveAllCovers | src/services/crawler.ts:130-142 | after a save, each article of the batch that has a hash has its id or url in the table |
| Crawler.SaveAllBlocked | src/services/crawler.ts:124 | offering only articles whose id or url is already stored changes nothing |
| Crawler.SaveAllIdempotent | src/services/crawler.ts:120-148 | saving the same batch a second time adds no row, so it returns 0 |
| Crawler.SaveAllComplete | src/services/crawler.ts:130-142 | when the whole batch was inserted, each article has a hash and its row is stored |
| Crawler.SavedBatchIsNotNew | src/services/crawler.ts:98-148 | once a whole batch is saved, filtering it again finds nothing new |
| Crawler.EditedArticleStaysNew | src/services/crawler.ts:98-148 | every article whose hash is new but whose id or url is already stored passes the filter, is refused by the insert so the table is unchanged, and therefore passes the filter again on every later cycle |
| Crawler.IsArticleSent | src/services/crawler.ts:153-159 | true iff some send log row has that article id, that target and status `success` |
| Crawler.InsertByTime | src/services/crawler.ts:167 | inserting a row into a newest-first list keeps it newest-first and adds just that row |
| Crawler.SortNewestFirst | src/services/crawler.ts:167 | the sorted rows are newest first (NULL times last) and a permutation of the table |
| Crawler.NewestFirstPrefix | src/services/crawler.ts:167-168 | a prefix of a newest-first list is newest first |
| Crawler.RecentRows | src/services/crawler.ts:164-171 | `LIMIT n` returns `n` rows, or all rows when `n` is negative or larger than the table; they are newest first and drawn from the table |
| Crawler.RecentRowsAreNewest | src/services/crawler.ts:165-169 | no row left out by the limit is newer than a returned row |
| Crawler.GetRecentArticles | src/services/crawler.ts:164-182 | one article per recent row, in the same order, read back from the row |
| Store.InsertOrIgnore | src/repository/database.ts:21-22 | a row is added iff neither its id nor its url is present; otherwise the table is unchanged; unique keys are kept |
| Store.Database.InsertArticleOrIgnore | src/services/crawler.ts:132-141 | one insert applies `INSERT OR IGNORE` to the table and reports the rows changed; the other tables are untouched |
| Store.Database.InsertSendLog | src/repository/database.ts:35 | a send log insert succeeds, and appends its row, iff the article id is stored |
| Store.Database.constructor | src/repository/database.ts:18-46 | a fresh database has empty tables, the given config and valid constraints |
| SchedulerService.Lookup | src/services/scheduler.ts:51 | `tasks.get(name)` finds a task iff some entry has that name, and returns that entry's task |
| SchedulerService.DeleteLookup | src/services/scheduler.ts:54 | after `tasks.delete(name)`, `name` is absent and every other name maps as before |
| SchedulerService.DeleteUnique | src/services/scheduler.ts:54 | deleting keeps at most one entry per name |
| SchedulerService.DeleteAbsent | src/services/scheduler.ts:51-52 | deleting an absent name changes nothing |
| SchedulerService.DeleteIdempotent | src/services/scheduler.ts:50-57 | deleting twice is deleting once |
| SchedulerService.DeleteFirst | src/services/scheduler.ts:63-64 | deleting the first entry's name removes exactly that entry |
| SchedulerService.UniqueAppend | src/services/scheduler.ts:43 | appending an entry for an absent name keeps names unique |
| SchedulerService.AddedLookup | src/services/scheduler.ts:30-43 | after stop-then-set, the table maps the name to the new task and every other name as before, with names unique |
| SchedulerService.Names | src/services/scheduler.ts:63 | the names the Map iterates, in table order |
| SchedulerService.TasksOf | src/services/scheduler.ts:62-66 | the tasks of the table, in table order |
| SchedulerService.TasksOfStep | src/services/scheduler.ts:63-65 | one more entry adds its task at the end of the stopped list |
| SchedulerService.TasksStatus | src/services/scheduler.ts:227-232 | one status per entry, in table order, with its name, running iff the task reports `scheduled` |
| SchedulerService.StatusNamesAreTaskNames | src/services/scheduler.ts:227-232 | the statuses name exactly the registered names, each once |
| SchedulerService.LoadListPrecedence | src/services/scheduler.ts:171-222 | a stored row wins over the environment even when it does not parse, and then gives `[]`; without a row a non-empty environment value is parsed, and gives `[]` when it does not parse; without either the result is `[]` |
| SchedulerService.DeliveriesIsolated | src/services/scheduler.ts:125-137 | each target's send neither depends on nor affects the others' sends; a target contributes a send iff it is enabled |
| SchedulerService.DeliveriesFollowEnabledTargets | src/services/scheduler.ts:125-137 | exactly one send per enabled target, in list order, with the target's type or `group` |
| SchedulerService.DeliverAll | src/services/scheduler.ts:125-137 | the loop calls `sendMorningBrief` for each enabled target; a failure is caught and later targets still run; the logs grow by each target's own rows |
| SchedulerService.Scheduler.constructor | src/services/scheduler.ts:11-19 | a new scheduler has an empty task table |
| SchedulerService.Scheduler.GetTasksStatus | src/services/scheduler.ts:227-232 | one entry per registered task, in table order, so `[]` for an empty table; the entries name exactly the registered names, each once, and each is running iff the task registered under its name reports `scheduled` |
| SchedulerService.Scheduler.StopTask | src/services/scheduler.ts:50-57 | stops the named task, if any, and removes only its entry; a no-op for an absent name |
| SchedulerService.Scheduler.AddTask | src/services/scheduler.ts:24-45 | a rejected expression throws and leaves the table untouched; otherwise the old task of that name is stopped and the name is mapped to the new task at the end of the Map, with other entries unchanged |
| SchedulerService.Scheduler.StopAllTasks | src/services/scheduler.ts:62-66 | every task is stopped, in table order, and the table becomes empty, so `getTasksStatus` then returns `[]` |
| SchedulerService.Scheduler.StartMorningBrief | src/services/scheduler.ts:71-80 | `enabled === false` registers nothing; otherwise `morning-brief` is added with the configured schedule, or `0 8 * * *` without a configuration |
| SchedulerService.Scheduler.ExecuteMorningBrief | src/services/scheduler.ts:85-140 | returns early, with no save and no send, when there are no sources, nothing was fetched or nothing is new; otherwise saves the new articles before the targets are read, so they are saved even when there are no targets, and then delivers to every enabled target |
| SchedulerService.Scheduler.SaveAndDeliver | src/services/scheduler.ts:113-137 | saves the new articles, then reads the targets and, unless there are none, delivers to each enabled one |
| SchedulerService.Scheduler.TriggerNow | src/services/scheduler.ts:145-166 | fails before the cycle, with nothing saved or logged, when the sources or the targets are empty; succeeds whenever both are non-empty, after running the cycle (saving the new articles and logging their deliveries), and returns the full list lengths, disabled entries included, with count 0 |
| Text.Take | src/services/feishu.ts:188 | `substring(0, n)` is the prefix of length `min(n, length)` |
| Text.Trim | src/services/feishu.ts:182 | the trimmed text is a contiguous slice of the input with only white space before and after it, and it neither starts nor ends with white space |
| Text.TrimStartSuffix | src/services/feishu.ts:182 | trimming the start keeps a suffix of the text |
| Text.FirstSentence | src/services/feishu.ts:185 | the text before the first `。？！` or newline: a prefix without a terminator, followed by a terminator unless it is the whole text |
| Text.StripTags | src/services/feishu.ts:182 | the result is no longer than the input, uses only its characters and leaves no `<` followed later by `>`; a text without such a pair is returned unchanged |
| Text.StripTagsKeepsText | src/services/feishu.ts:182 | text before the first `<` is kept as it is, and removal goes on after it |
| Text.StripTagsDropsTag | src/services/feishu.ts:182 | a `<`, everything up to the first `>` after it, and that `>` are deleted together |
| Text.CollapseSpaces | src/services/feishu.ts:191 | the non-space text is kept in order, no two white-space characters are adjacent in the result, its only white space is the plain space, and the length does not grow |
| Text.CollapseRun | src/services/feishu.ts:191 | a whole white-space run, however long, becomes exactly one space |
| Text.CollapseKeeps | src/services/feishu.ts:191 | a non-space character is kept and collapsing goes on after it |
| Text.ReplaceCharBySelf | src/services/feishu.ts:207-212 | replacing a character by itself changes nothing |
| Text.ReplaceChar | src/services/feishu.ts:182 | a one-character replacement keeps the length and changes exactly the matching positions |
| Text.NatToString | src/services/feishu.ts:77 | `String(n)` is a numeral of decimal digits without a leading zero, one digit long exactly below 10 |
| Text.NatToStringRoundTrip | src/services/feishu.ts:77 | the numeral of `n` denotes `n` |
| Text.PadStart2 | src/services/feishu.ts:221-222 | `padStart(2, '0')` gives at least two characters, the input at the end and zeros before it |
| Text.TwoDigitsBelowHundred | src/services/feishu.ts:221-234 | below 100, the padded numeral is the tens digit followed by the units digit |

## Left out

- Network and SDK I/O are parameters: the RSS reader (`fetch`), the Feishu client (`transport`), md5 (`md5`), `Date` parsing (`parseDate`), the local clock (`Clock`) and `randomUUID` (a `drawnId` per item). The transport is a function of the message, so resending the same message to the same chat gives the same answer.
- The `FeishuMessenger` constructor's credential check (`src/services/feishu.ts:15-27`) and `testConnection`: SDK set-up and network only.
- `async`/`await` interleavings, cron firing and timing, and the handler wrapper's try/catch logging: each operation is sequential, and a registered task records only its schedule and job.
- Console logging, and `JSON.stringify` of cards: the model keeps the card as a value.
- `JSON.parse` is the `parse` parameter. Its exceptions, and database read errors, give `None` and so `[]`.
- `Object.entries` lists integer-like keys (an author such as `"2024"`) before the others, and keys named like `Object.prototype` members behave differently. The model assumes insertion order for all labels.
- Strings are sequences of characters (Unicode code points), while JavaScript's `length` and `substring` count UTF-16 code units. For text outside the Basic Multilingual Plane three cuts therefore differ from the code: the 40-character summary cut (`src/services/feishu.ts:188`), the 100-character hash prefix (`src/services/crawler.ts:91`) and the 200-character content cut (`src/services/crawler.ts:53`); JavaScript can also split a surrogate pair at those cuts. `\s` is a fixed white-space predicate.
- `target.type` is modelled as `group` or `user`. Any other string in the configuration is not modelled.
- One clock reading (`world.clock`) dates every target's card in a cycle. The code calls `formatDate()`, and so `new Date()`, once per `sendMorningBrief` (`src/services/feishu.ts:77`).
- One time reading (`now` of the fetch collaborators) stamps every undated item of every feed in a cycle. The code calls `new Date()` once per item (`src/services/crawler.ts:52`).
- `parse` returns either nothing or a well-typed list. In the code a stored or environment value that parses to something else, such as `null` or `{}`, throws later: at `parsed.length` in the loaders, at `sources.length` (`src/services/scheduler.ts:88`) or in the `for…of` of `fetchFromMultipleSources`.
- Database faults are not modelled. In the code a failing hash query in `filterNewArticles` drops that article (`src/services/crawler.ts:110-113`), and a throwing `saveArticles` transaction aborts the cycle before any delivery.
- `FeishuRender.FormatDateShape`: stated only for four-digit years. For other years the date string still has the same parts, but their positions shift.
- `Crawler.RecentRows`: SQLite leaves the order of rows with equal `publish_time` unspecified. The model picks one order.
- `Crawler.GetRecentArticles`: `cover_image` is never written by `saveArticles`, so it reads back as absent, and no hash is read back.
- `Store.Database.constructor`: the schema creation, indexes and `fetched_at`/`sent_at` defaults of `src/repository/database.ts` are not modelled.
