/** The scheduler: a table of named cron tasks, the morning-brief pipeline it
    runs, the manual trigger, and the loading of the source and target lists
    from the `config` table or the environment. `node-cron` survives only as
    the `cronValid` predicate; firing a task is not modelled. */
module SchedulerService {
  import opened Common
  import opened Store
  import opened Crawler
  import opened FeishuRender
  import opened FeishuMessenger

  /** What a task runs when it fires. */
  datatype Job = MorningBriefJob | CustomJob(description: string)

  /** A task `cron.schedule` returned: its expression and its handler. */
  datatype CronTask = CronTask(schedule: string, job: Job)

  /** An entry of the `tasks` Map. */
  datatype TaskEntry = TaskEntry(name: string, task: CronTask)

  datatype SchedulerError = InvalidCron(schedule: string) | NoRssSources | NoTargetChats

  /** `SchedulerConfig`: a cron expression and an optional `enabled` flag. */
  datatype SchedulerConfig = SchedulerConfig(schedule: string, enabled: Option<bool>)

  const DefaultConfig: SchedulerConfig := SchedulerConfig("0 8 * * *", None)
  const MorningBriefName: string := "morning-brief"

  // The task table: a Map, whose entries iterate in insertion order

  function Names(tasks: seq<TaskEntry>): (r: seq<string>)
    ensures |r| == |tasks| && forall i :: 0 <= i < |tasks| ==> r[i] == tasks[i].name
  {
    seq(|tasks|, i requires 0 <= i < |tasks| => tasks[i].name)
  }

  function TasksOf(entries: seq<TaskEntry>): (r: seq<CronTask>)
    ensures |r| == |entries| && forall i :: 0 <= i < |entries| ==> r[i] == entries[i].task
  {
    seq(|entries|, i requires 0 <= i < |entries| => entries[i].task)
  }

  lemma TasksOfStep(entries: seq<TaskEntry>, i: nat)
    requires i < |entries|
    ensures TasksOf(entries[..i + 1]) == TasksOf(entries[..i]) + [entries[i].task]
  {
    assert TasksOf(entries[..i + 1]) == TasksOf(entries[..i]) + [entries[i].task];
  }

  /** A Map holds at most one entry per key. */
  ghost predicate UniqueNames(tasks: seq<TaskEntry>) {
    forall i, j :: 0 <= i < j < |tasks| ==> tasks[i].name != tasks[j].name
  }

  /** `tasks.get(name)`. */
  function Lookup(tasks: seq<TaskEntry>, name: string): (r: Option<CronTask>)
    ensures r.Some? <==> exists i :: 0 <= i < |tasks| && tasks[i].name == name
    ensures r.Some? ==> exists i :: 0 <= i < |tasks| && tasks[i] == TaskEntry(name, r.value)
  {
    if tasks == [] then None
    else
      var init := tasks[..|tasks| - 1];
      var last := tasks[|tasks| - 1];
      assert forall i :: 0 <= i < |init| ==> init[i] == tasks[i];
      if last.name == name then Some(last.task) else Lookup(init, name)
  }

  function NotNamed(name: string): TaskEntry -> bool {
    (e: TaskEntry) => e.name != name
  }

  /** `tasks.delete(name)`: the other entries, in their order. */
  function Delete(tasks: seq<TaskEntry>, name: string): seq<TaskEntry> {
    Filter(tasks, NotNamed(name))
  }

  /** `stopTask(name)` calls `stop()` on the task registered under `name`, if any. */
  function StoppedBy(tasks: seq<TaskEntry>, name: string): seq<CronTask> {
    match Lookup(tasks, name)
    case Some(task) => [task]
    case None => []
  }

  lemma UniqueAppend(tasks: seq<TaskEntry>, e: TaskEntry)
    requires UniqueNames(tasks) && Lookup(tasks, e.name) == None
    ensures UniqueNames(tasks + [e])
  {
  }

  /** Deleting `name` removes exactly the entry of `name` and leaves every
      other lookup as it was. */
  lemma {:induction false} DeleteLookup(tasks: seq<TaskEntry>, name: string, m: string)
    ensures Lookup(Delete(tasks, name), m) == if m == name then None else Lookup(tasks, m)
  {
    if tasks != [] {
      var init := tasks[..|tasks| - 1];
      var last := tasks[|tasks| - 1];
      DeleteLookup(init, name, m);
      if last.name != name {
        SnocInit(Delete(init, name), last);
      }
    }
  }

  /** Deleting keeps the table a Map. */
  lemma {:induction false} DeleteUnique(tasks: seq<TaskEntry>, name: string)
    requires UniqueNames(tasks)
    ensures UniqueNames(Delete(tasks, name))
  {
    if tasks != [] {
      var init := tasks[..|tasks| - 1];
      var last := tasks[|tasks| - 1];
      assert forall i :: 0 <= i < |init| ==> init[i] == tasks[i];
      DeleteUnique(init, name);
      if last.name != name {
        DeleteLookup(init, name, last.name);
        assert Lookup(init, last.name) == None;
        UniqueAppend(Delete(init, name), last);
      }
    }
  }

  /** Deleting an absent name changes nothing, and deleting twice is deleting once. */
  lemma {:induction false} DeleteAbsent(tasks: seq<TaskEntry>, name: string)
    requires Lookup(tasks, name) == None
    ensures Delete(tasks, name) == tasks
  {
    FilterAllKept(tasks, NotNamed(name));
  }

  lemma DeleteIdempotent(tasks: seq<TaskEntry>, name: string)
    ensures Delete(Delete(tasks, name), name) == Delete(tasks, name)
  {
    DeleteLookup(tasks, name, name);
    DeleteAbsent(Delete(tasks, name), name);
  }

  /** Deleting the first entry's name removes just that entry. */
  lemma DeleteFirst(tasks: seq<TaskEntry>)
    requires UniqueNames(tasks) && tasks != []
    ensures Delete(tasks, tasks[0].name) == tasks[1..]
    ensures Lookup(tasks, tasks[0].name) == Some(tasks[0].task)
  {
    FilterDropsFirst(tasks, NotNamed(tasks[0].name));
  }

  /** After `addTask(name, …)` the table is a Map that holds the new task under
      `name`, and every other name keeps its task. */
  lemma AddedLookup(tasks: seq<TaskEntry>, name: string, task: CronTask, m: string)
    requires UniqueNames(tasks)
    ensures UniqueNames(Delete(tasks, name) + [TaskEntry(name, task)])
    ensures Lookup(Delete(tasks, name) + [TaskEntry(name, task)], m) == if m == name then Some(task) else Lookup(tasks, m)
  {
    var rest := Delete(tasks, name);
    DeleteUnique(tasks, name);
    DeleteLookup(tasks, name, name);
    DeleteLookup(tasks, name, m);
    UniqueAppend(rest, TaskEntry(name, task));
    SnocInit(rest, TaskEntry(name, task));
  }

  // Task status

  datatype TaskStatus = TaskStatus(name: string, running: bool)

  /** `getTasksStatus`, given what `task.getStatus()` reports for each task. */
  function TasksStatus(tasks: seq<TaskEntry>, statusOf: CronTask -> string): (r: seq<TaskStatus>)
    ensures |r| == |tasks|
    ensures forall i :: 0 <= i < |tasks| ==>
      r[i].name == tasks[i].name && (r[i].running <==> statusOf(tasks[i].task) == "scheduled")
  {
    seq(|tasks|, i requires 0 <= i < |tasks| => TaskStatus(tasks[i].name, statusOf(tasks[i].task) == "scheduled"))
  }

  /** One status entry per registered name, each name once. */
  lemma StatusNamesAreTaskNames(tasks: seq<TaskEntry>, statusOf: CronTask -> string)
    requires UniqueNames(tasks)
    ensures var r := TasksStatus(tasks, statusOf);
      (forall n :: (exists i :: 0 <= i < |r| && r[i].name == n) <==> Lookup(tasks, n).Some?) &&
      (forall i, j :: 0 <= i < j < |r| ==> r[i].name != r[j].name)
  {
    var r := TasksStatus(tasks, statusOf);
    forall n ensures (exists i :: 0 <= i < |r| && r[i].name == n) <==> Lookup(tasks, n).Some? {
      if Lookup(tasks, n).Some? {
        var i :| 0 <= i < |tasks| && tasks[i].name == n;
        assert r[i].name == n;
      }
    }
  }

  /** With unique names, looking up an entry's name finds that entry's task. */
  lemma LookupEach(tasks: seq<TaskEntry>)
    requires UniqueNames(tasks)
    ensures forall i :: 0 <= i < |tasks| ==> Lookup(tasks, tasks[i].name) == Some(tasks[i].task)
  {
    forall i | 0 <= i < |tasks| ensures Lookup(tasks, tasks[i].name) == Some(tasks[i].task) {
      var t := Lookup(tasks, tasks[i].name);
      var j :| 0 <= j < |tasks| && tasks[j] == TaskEntry(tasks[i].name, t.value);
      assert i == j;
    }
  }

  // Configuration

  /** A `SELECT value FROM config WHERE key = ?` lookup. */
  function StoredValue(config: map<string, string>, key: string): Option<string> {
    if key in config then Some(config[key]) else None
  }

  /** A `process.env` lookup. */
  function EnvValue(environment: map<string, string>, key: string): Option<string> {
    if key in environment then Some(environment[key]) else None
  }

  function ParsedOrEmpty<T>(parsed: Option<seq<T>>): seq<T> {
    match parsed
    case Some(xs) => xs
    case None => []
  }

  /** `getRSSSources` and `getTargetChats`: the stored value if there is a row,
      else a non-empty environment value, else nothing; a value that does not
      parse (the `catch`) gives nothing. */
  function LoadList<T>(stored: Option<string>, env: Option<string>, parse: string -> Option<seq<T>>): seq<T> {
    match stored
    case Some(value) => ParsedOrEmpty(parse(value))
    case None =>
      if env.Some? && env.value != "" then ParsedOrEmpty(parse(env.value)) else []
  }

  /** A stored row wins whatever the environment says, even when it does not
      parse; only without a row does the environment count, and only when it
      is non-empty. */
  lemma LoadListPrecedence<T>(value: string, env: Option<string>, env': Option<string>, parse: string -> Option<seq<T>>)
    ensures LoadList(Some(value), env, parse) == LoadList(Some(value), env', parse)
    ensures parse(value) == None ==> LoadList(Some(value), env, parse) == []
    ensures parse(value).Some? ==> LoadList(Some(value), env, parse) == parse(value).value
    ensures env == None || env == Some("") ==> LoadList(None, env, parse) == []
    ensures env.Some? && env.value != "" && parse(env.value).Some? ==> LoadList(None, env, parse) == parse(env.value).value
    ensures env.Some? && env.value != "" && parse(env.value) == None ==> LoadList(None, env, parse) == []
  {
  }

  // Delivery

  /** `target.enabled !== false`. */
  predicate TargetEnabled(t: TargetChat) {
    t.enabled != Some(false)
  }

  /** `target.type || 'group'`. */
  function KindOf(t: TargetChat): ChatType {
    match t.kind
    case Some(k) => k
    case None => Group
  }

  /** One `sendMorningBrief` call of the delivery loop and how it ended. */
  datatype Delivery = Delivery(targetId: string, kind: ChatType, outcome: Outcome<DeliveryError>)

  function SendResult(delivered: bool, chatId: string): Outcome<DeliveryError> {
    if delivered then Pass else Fail(SendFailed(chatId))
  }

  /** What a target adds to the delivery record: a disabled target nothing, an
      enabled one the outcome of its own send. */
  function DeliveryOf(articles: seq<Article>, clock: Clock, transport: Message -> bool): TargetChat -> seq<Delivery> {
    (t: TargetChat) => if TargetEnabled(t) then
           [Delivery(t.id, KindOf(t), SendResult(transport(BriefMessage(t.id, articles, KindOf(t), clock)), t.id))]
         else []
  }

  function Deliveries(targets: seq<TargetChat>, articles: seq<Article>, clock: Clock, transport: Message -> bool): seq<Delivery> {
    FlatMap(targets, DeliveryOf(articles, clock, transport))
  }

  /** What a target adds to `send_logs` when `ids` are the stored article ids. */
  function LogsOf(ids: set<string>, articles: seq<Article>, clock: Clock, transport: Message -> bool): TargetChat -> seq<SendLogRow> {
    (t: TargetChat) => if TargetEnabled(t) then
           LogsOnSend(ids, articles, t.id, KindOf(t), transport(BriefMessage(t.id, articles, KindOf(t), clock)))
         else []
  }

  function DeliveryLogs(ids: set<string>, targets: seq<TargetChat>, articles: seq<Article>, clock: Clock, transport: Message -> bool)
    : seq<SendLogRow>
  {
    FlatMap(targets, LogsOf(ids, articles, clock, transport))
  }

  /** A target's send neither depends on nor affects the others: the record of
      `a + [t] + b` is the record of `a`, then `t`'s own, then `b`'s. */
  lemma DeliveriesIsolated(a: seq<TargetChat>, t: TargetChat, b: seq<TargetChat>, articles: seq<Article>, clock: Clock,
                           transport: Message -> bool)
    ensures Deliveries(a + [t] + b, articles, clock, transport) ==
      Deliveries(a, articles, clock, transport) + DeliveryOf(articles, clock, transport)(t) + Deliveries(b, articles, clock, transport)
    ensures DeliveryOf(articles, clock, transport)(t) == [] <==> !TargetEnabled(t)
  {
    var f := DeliveryOf(articles, clock, transport);
    FlatMapAppend(a + [t], b, f);
    FlatMapAppend(a, [t], f);
    assert [t][..0] == [];
  }

  /** The loop sends once to each enabled target, in list order, with the
      target's type or `group`. */
  lemma {:induction false} DeliveriesFollowEnabledTargets(targets: seq<TargetChat>, articles: seq<Article>, clock: Clock,
                                                          transport: Message -> bool)
    ensures var d := Deliveries(targets, articles, clock, transport);
      var enabled := Filter(targets, TargetEnabled);
      |d| == |enabled| &&
      forall i :: 0 <= i < |d| ==> d[i].targetId == enabled[i].id && d[i].kind == KindOf(enabled[i])
  {
    if targets != [] {
      DeliveriesFollowEnabledTargets(targets[..|targets| - 1], articles, clock, transport);
    }
  }

  // The end of a morning-brief cycle

  /** The collaborators a cycle uses: the feed reader and md5, the clock, and the Feishu transport. */
  datatype World = World(fetch: FetchEnv, clock: Clock, transport: Message -> bool)

  /** How `executeMorningBrief` ended: at one of its early returns, or after
      the delivery loop. */
  datatype CycleReport =
    | NoSources
    | NothingFetched
    | NothingNew
    | NoTargets(saved: nat)
    | Delivered(saved: nat, deliveries: seq<Delivery>)

  /** The counts `triggerNow` returns. */
  datatype TriggerCounts = TriggerCounts(count: nat, sources: nat, targets: nat)

  /** The articles of a cycle that are new against the stored rows. */
  function FreshArticles(rows: seq<ArticleRow>, sources: seq<RssSource>, fetch: FetchEnv): seq<Article> {
    FilterNewArticles(FetchAll(sources, fetch), rows)
  }

  class Scheduler {
    var tasks: seq<TaskEntry>
    /** The tasks whose `stop()` has been called, in call order. */
    var stopped: seq<CronTask>
    const db: Database
    const cronValid: string -> bool
    const environment: map<string, string>
    const parseSources: string -> Option<seq<RssSource>>
    const parseTargets: string -> Option<seq<TargetChat>>

    ghost predicate Valid()
      reads this, db
    {
      UniqueNames(tasks) && db.Valid()
    }

    constructor (db: Database, cronValid: string -> bool, environment: map<string, string>,
                 parseSources: string -> Option<seq<RssSource>>, parseTargets: string -> Option<seq<TargetChat>>)
      requires db.Valid()
      ensures Valid()
      ensures tasks == [] && stopped == []
      ensures this.db == db && this.cronValid == cronValid && this.environment == environment
      ensures this.parseSources == parseSources && this.parseTargets == parseTargets
    {
      tasks := [];
      stopped := [];
      this.db := db;
      this.cronValid := cronValid;
      this.environment := environment;
      this.parseSources := parseSources;
      this.parseTargets := parseTargets;
    }

    /** `getRSSSources`. */
    function RssSources(): seq<RssSource>
      reads db
    {
      LoadList(StoredValue(db.config, "rss_sources"), EnvValue(environment, "RSS_SOURCES"), parseSources)
    }

    /** `getTargetChats`. */
    function TargetChats(): seq<TargetChat>
      reads db
    {
      LoadList(StoredValue(db.config, "target_chats"), EnvValue(environment, "TARGET_CHATS"), parseTargets)
    }

    /** `getTasksStatus`: one entry per registered name, each name once, telling
        whether the task registered under that name reports `scheduled`. */
    function GetTasksStatus(statusOf: CronTask -> string): (r: seq<TaskStatus>)
      requires Valid()
      reads this, db
      ensures |r| == |tasks|
      ensures tasks == [] ==> r == []
      ensures forall i :: 0 <= i < |r| ==> r[i].name == tasks[i].name
      ensures forall n :: (exists i :: 0 <= i < |r| && r[i].name == n) <==> Lookup(tasks, n).Some?
      ensures forall i, j :: 0 <= i < j < |r| ==> r[i].name != r[j].name
      ensures forall i :: 0 <= i < |r| ==>
        Lookup(tasks, r[i].name) == Some(tasks[i].task) && (r[i].running <==> statusOf(tasks[i].task) == "scheduled")
    {
      StatusNamesAreTaskNames(tasks, statusOf);
      LookupEach(tasks);
      TasksStatus(tasks, statusOf)
    }

    /** `stopTask`: stops and removes the task of `name`; nothing happens when there is none. */
    method StopTask(name: string)
      requires Valid()
      modifies this
      ensures Valid()
      ensures tasks == Delete(old(tasks), name)
      ensures stopped == old(stopped) + StoppedBy(old(tasks), name)
    {
      var task := Lookup(tasks, name);
      DeleteUnique(tasks, name);
      DeleteLookup(tasks, name, name);
      if task.Some? {
        stopped := stopped + [task.value];
        tasks := Delete(tasks, name);
      } else {
        DeleteAbsent(tasks, name);
      }
    }

    /** `addTask`: a rejected expression throws before anything is touched;
        otherwise a task of the same name is stopped and replaced. */
    method AddTask(name: string, schedule: string, job: Job) returns (r: Outcome<SchedulerError>)
      requires Valid()
      modifies this
      ensures Valid()
      ensures !cronValid(schedule) ==> r == Fail(InvalidCron(schedule)) && tasks == old(tasks) && stopped == old(stopped)
      ensures cronValid(schedule) ==>
        r == Pass &&
        tasks == Delete(old(tasks), name) + [TaskEntry(name, CronTask(schedule, job))] &&
        stopped == old(stopped) + StoppedBy(old(tasks), name)
    {
      if !cronValid(schedule) {
        return Fail(InvalidCron(schedule));
      }
      ghost var before := tasks;
      StopTask(name);
      AddedLookup(before, name, CronTask(schedule, job), name);
      tasks := tasks + [TaskEntry(name, CronTask(schedule, job))];
      r := Pass;
    }

    /** `stopAllTasks`: stops every task, in table order, and empties the table. */
    method StopAllTasks()
      requires Valid()
      modifies this
      ensures Valid()
      ensures tasks == [] && stopped == old(stopped) + TasksOf(old(tasks))
    {
      var names := Names(tasks);
      ghost var all := tasks;
      for i := 0 to |names|
        invariant Valid()
        invariant tasks == all[i..]
        invariant stopped == old(stopped) + TasksOf(all[..i])
      {
        DeleteFirst(tasks);
        assert tasks[0].name == names[i];
        StopTask(names[i]);
        assert all[i..][1..] == all[i + 1..];
        TasksOfStep(all, i);
      }
      WholePrefix(all);
    }

    /** `startMorningBrief`: registers `morning-brief` with the configured
        schedule (by default `0 8 * * *`), unless the configuration disables it. */
    method StartMorningBrief(config: Option<SchedulerConfig>) returns (r: Outcome<SchedulerError>)
      requires Valid()
      modifies this
      ensures Valid()
      ensures var c := if config.Some? then config.value else DefaultConfig;
        if c.enabled == Some(false) || !cronValid(c.schedule) then
          tasks == old(tasks) && stopped == old(stopped) &&
          r == (if c.enabled == Some(false) then Pass else Fail(InvalidCron(c.schedule)))
        else
          r == Pass &&
          tasks == Delete(old(tasks), MorningBriefName) + [TaskEntry(MorningBriefName, CronTask(c.schedule, MorningBriefJob))] &&
          stopped == old(stopped) + StoppedBy(old(tasks), MorningBriefName)
    {
      var c := if config.Some? then config.value else DefaultConfig;
      if c.enabled == Some(false) {
        return Pass;
      }
      r := AddTask(MorningBriefName, c.schedule, MorningBriefJob);
    }

    /** `executeMorningBrief`: stops early when there are no sources, nothing
        was fetched or nothing is new; otherwise saves the new articles, and
        then, unless there are no targets, sends them to every enabled target. */
    method ExecuteMorningBrief(world: World) returns (report: CycleReport)
      requires Valid()
      modifies db
      ensures Valid()
      ensures var newArticles := FreshArticles(old(db.articles), old(RssSources()), world.fetch);
        db.articles == SaveAll(old(db.articles), newArticles) &&
        db.sendLogs == old(db.sendLogs) +
          (if newArticles == [] then [] else DeliveryLogs(Ids(db.articles), old(TargetChats()), newArticles, world.clock, world.transport))
      ensures db.config == old(db.config)
      ensures var sources := old(RssSources());
        var newArticles := FreshArticles(old(db.articles), sources, world.fetch);
        var targets := old(TargetChats());
        var saved := |db.articles| - |old(db.articles)|;
        report == if sources == [] then NoSources
          else if FetchAll(sources, world.fetch) == [] then NothingFetched
          else if newArticles == [] then NothingNew
          else if targets == [] then NoTargets(saved)
          else Delivered(saved, Deliveries(targets, newArticles, world.clock, world.transport))
    {
      var sources := RssSources();
      if |sources| == 0 {
        return NoSources;
      }
      var all := FetchFromMultipleSources(sources, world.fetch);
      if |all| == 0 {
        return NothingFetched;
      }
      var newArticles := FilterNewArticles(all, db.articles);
      if |newArticles| == 0 {
        return NothingNew;
      }
      report := SaveAndDeliver(world, newArticles);
    }

    /** The second half of `executeMorningBrief`: save the new articles, then
        deliver them to the enabled targets, if any are configured. */
    method SaveAndDeliver(world: World, newArticles: seq<Article>) returns (report: CycleReport)
      requires Valid() && newArticles != []
      modifies db
      ensures Valid()
      ensures db.articles == SaveAll(old(db.articles), newArticles)
      ensures db.sendLogs == old(db.sendLogs) +
        DeliveryLogs(Ids(db.articles), old(TargetChats()), newArticles, world.clock, world.transport)
      ensures db.config == old(db.config)
      ensures var targets := old(TargetChats());
        var saved := |db.articles| - |old(db.articles)|;
        report == if targets == [] then NoTargets(saved)
          else Delivered(saved, Deliveries(targets, newArticles, world.clock, world.transport))
    {
      var saved := SaveArticles(db, newArticles);
      var targets := TargetChats();
      if |targets| == 0 {
        return NoTargets(saved);
      }
      var deliveries := DeliverAll(db, targets, newArticles, world.clock, world.transport);
      report := Delivered(saved, deliveries);
    }

    /** `triggerNow`: fails before the cycle runs when there are no sources or
        no targets; otherwise runs it and reports the list lengths, with a
        count that is always 0. */
    method TriggerNow(world: World) returns (r: Result<TriggerCounts, SchedulerError>)
      requires Valid()
      modifies db
      ensures Valid()
      ensures old(RssSources()) == [] ==> r == Failure(NoRssSources)
      ensures old(RssSources()) != [] && old(TargetChats()) == [] ==> r == Failure(NoTargetChats)
      ensures old(RssSources()) != [] && old(TargetChats()) != [] ==> r.Success?
      ensures r.Failure? ==> db.articles == old(db.articles) && db.sendLogs == old(db.sendLogs)
      ensures r.Success? ==>
        r.value == TriggerCounts(0, |old(RssSources())|, |old(TargetChats())|) &&
        var newArticles := FreshArticles(old(db.articles), old(RssSources()), world.fetch);
        db.articles == SaveAll(old(db.articles), newArticles) &&
        db.sendLogs == old(db.sendLogs) +
          (if newArticles == [] then [] else DeliveryLogs(Ids(db.articles), old(TargetChats()), newArticles, world.clock, world.transport))
      ensures db.config == old(db.config)
    {
      var sources := RssSources();
      var targets := TargetChats();
      if |sources| == 0 {
        return Failure(NoRssSources);
      }
      if |targets| == 0 {
        return Failure(NoTargetChats);
      }
      var _ := ExecuteMorningBrief(world);
      r := Success(TriggerCounts(0, |sources|, |targets|));
    }
  }

  /** The delivery loop of `executeMorningBrief`: one send per enabled target;
      a failed send is caught and the loop goes on. */
  method DeliverAll(db: Database, targets: seq<TargetChat>, articles: seq<Article>, clock: Clock, transport: Message -> bool)
    returns (deliveries: seq<Delivery>)
    requires db.Valid()
    modifies db
    ensures db.Valid()
    ensures deliveries == Deliveries(targets, articles, clock, transport)
    ensures db.sendLogs == old(db.sendLogs) + DeliveryLogs(Ids(old(db.articles)), targets, articles, clock, transport)
    ensures db.articles == old(db.articles) && db.config == old(db.config)
  {
    ghost var ids := Ids(db.articles);
    ghost var logs := db.sendLogs;
    ghost var deliveryOf := DeliveryOf(articles, clock, transport);
    ghost var logsOf := LogsOf(ids, articles, clock, transport);
    deliveries := [];
    for i := 0 to |targets|
      invariant db.Valid()
      invariant db.articles == old(db.articles) && db.config == old(db.config)
      invariant deliveries == FlatMap(targets[..i], deliveryOf)
      invariant db.sendLogs == logs + FlatMap(targets[..i], logsOf)
    {
      var target := targets[i];
      FlatMapPrefixStep(targets, i, deliveryOf);
      FlatMapPush(logs, targets, i, logsOf);
      if TargetEnabled(target) {
        var kind := KindOf(target);
        var sent, outcome := SendMorningBrief(db, target.id, articles, kind, clock, transport);
        deliveries := deliveries + [Delivery(target.id, kind, outcome)];
      }
    }
    WholePrefix(targets);
  }
}
