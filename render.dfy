/** The morning-brief card of `FeishuMessenger`: grouping the articles by
    source, the one-sentence summary, the date and time labels, and the
    layout of the card's elements. */
module FeishuRender {
  import opened Common
  import opened Text
  import opened Crawler

  // Grouping by source

  const UnknownSource: string := "未知来源"

  /** `article.author || '未知来源'`: the group an article belongs to. */
  function SourceLabel(a: Article): (l: string)
    ensures l != ""
    ensures a.author != "" ==> l == a.author
    ensures a.author == "" ==> l == UnknownSource
  {
    Or(a.author, UnknownSource)
  }

  /** The articles of group `l`, in input order. */
  function Members(s: seq<Article>, l: string): seq<Article> {
    GroupOf(s, SourceLabel, l)
  }

  /** The keys of the object `groupBySource` builds, in the order they were
      first inserted: each label once, in order of first occurrence. */
  function SourceLabels(s: seq<Article>): seq<string> {
    KeysOf(s, SourceLabel)
  }

  /** `groupBySource`: fills an object that maps each label to its articles,
      returned here together with its key order. */
  method GroupBySource(articles: seq<Article>) returns (keys: seq<string>, grouped: map<string, seq<Article>>)
    ensures keys == SourceLabels(articles)
    ensures forall l :: l in grouped <==> l in keys
    ensures forall l :: l in grouped ==> grouped[l] == Members(articles, l)
  {
    keys := [];
    grouped := map[];
    for i := 0 to |articles|
      invariant GroupedAs(keys, grouped, articles[..i], SourceLabel)
    {
      var article := articles[i];
      var source := SourceLabel(article);
      if source !in grouped {
        GroupOpen(keys, grouped, articles[..i], article, SourceLabel);
        grouped := grouped[source := []];
        keys := keys + [source];
      } else {
        GroupJoin(keys, grouped, articles[..i], article, SourceLabel);
      }
      grouped := grouped[source := grouped[source] + [article]];
      PrefixSnoc(articles, i);
    }
    WholePrefix(articles);
  }

  /** Every article lands in exactly one group, the one named by its label:
      its occurrences there are all its occurrences in the input, it occurs in
      no other group, and each group keeps the input order. */
  lemma GroupsPartition(s: seq<Article>, l: string, a: Article)
    ensures multiset(Members(s, l))[a] == if SourceLabel(a) == l then multiset(s)[a] else 0
    ensures IsSubsequence(Members(s, l), s)
    ensures a in s ==> SourceLabel(a) in SourceLabels(s)
  {
    FilterCount(s, KeyIs(SourceLabel, l), a);
    FilterIsSubsequence(s, KeyIs(SourceLabel, l));
  }

  /** Every group that appears has at least one article. */
  lemma MembersNonEmpty(s: seq<Article>, l: string)
    requires l in SourceLabels(s)
    ensures Members(s, l) != []
  {
    var i :| 0 <= i < |s| && SourceLabel(s[i]) == l;
    FilterCount(s, KeyIs(SourceLabel, l), s[i]);
  }

  /** The number of articles in the groups `labels`, summed. */
  function GroupSizes(labels: seq<string>, s: seq<Article>): nat {
    if labels == [] then 0
    else GroupSizes(labels[..|labels| - 1], s) + |Members(s, labels[|labels| - 1])|
  }

  function Occurrences(labels: seq<string>, l: string): nat {
    if labels == [] then 0
    else Occurrences(labels[..|labels| - 1], l) + (if labels[|labels| - 1] == l then 1 else 0)
  }

  lemma {:induction false} OccurrencesOfDistinct(labels: seq<string>, l: string)
    requires Distinct(labels)
    ensures Occurrences(labels, l) == if l in labels then 1 else 0
  {
    if labels != [] {
      var init := labels[..|labels| - 1];
      assert Distinct(init);
      OccurrencesOfDistinct(init, l);
      if labels[|labels| - 1] == l {
        assert l !in init;
      } else {
        assert l in labels <==> l in init;
      }
    }
  }

  lemma {:induction false} GroupSizesEmpty(labels: seq<string>)
    ensures GroupSizes(labels, []) == 0
  {
    if labels != [] {
      GroupSizesEmpty(labels[..|labels| - 1]);
    }
  }

  /** One more article adds one to each of the groups whose label is its own. */
  lemma {:induction false} GroupSizesStep(labels: seq<string>, s: seq<Article>, a: Article)
    ensures GroupSizes(labels, s + [a]) == GroupSizes(labels, s) + Occurrences(labels, SourceLabel(a))
  {
    if labels != [] {
      var init := labels[..|labels| - 1];
      GroupSizesStep(init, s, a);
      SnocInit(s, a);
    }
  }

  lemma {:induction false} GroupSizesCover(labels: seq<string>, s: seq<Article>)
    requires Distinct(labels)
    requires forall i :: 0 <= i < |s| ==> SourceLabel(s[i]) in labels
    ensures GroupSizes(labels, s) == |s|
  {
    if s == [] {
      GroupSizesEmpty(labels);
    } else {
      var init := s[..|s| - 1];
      assert forall i :: 0 <= i < |init| ==> init[i] == s[i];
      GroupSizesCover(labels, init);
      GroupSizesStep(labels, init, s[|s| - 1]);
      OccurrencesOfDistinct(labels, SourceLabel(s[|s| - 1]));
      assert init + [s[|s| - 1]] == s;
    }
  }

  /** The group sizes add up to the number of articles. */
  lemma GroupSizesSum(s: seq<Article>)
    ensures GroupSizes(SourceLabels(s), s) == |s|
  {
    GroupSizesCover(SourceLabels(s), s);
  }

  // The one-sentence summary

  const Placeholder: string := "点击查看详情"

  /** `article.summary || article.content || ''`. */
  function FullText(a: Article): string {
    Or(a.summary, Or(a.content, ""))
  }

  /** The text with its tags removed, its line breaks made spaces, and trimmed. */
  function StrippedText(full: string): string {
    Trim(ReplaceChar(StripTags(full), '\n', " "))
  }

  /** The first sentence of the plain text, cut to 40 characters, with its white
      space runs collapsed, trimmed. */
  function Condensed(a: Article): string {
    Trim(CollapseSpaces(Take(FirstSentence(StrippedText(FullText(a))), 40)))
  }

  lemma StrippedTextShape(full: string)
    ensures NoTagPair(StrippedText(full)) && '\n' !in StrippedText(full)
  {
    var stripped := StripTags(full);
    NoTagPairReplace(stripped, '\n', ' ');
    NoTagPairTrim(ReplaceChar(stripped, '\n', " "));
  }

  /** The condensed sentence is at most 40 characters long and holds no
      sentence terminator and no tag. */
  lemma CondensedShape(a: Article)
    ensures |Condensed(a)| <= 40
    ensures forall c :: c in Condensed(a) ==> !IsTerminator(c)
    ensures NoTagPair(Condensed(a))
  {
    var plain := StrippedText(FullText(a));
    StrippedTextShape(FullText(a));
    var first := FirstSentence(plain);
    var cut := Take(first, 40);
    var collapsed := CollapseSpaces(cut);
    NoTagPairSlice(plain, 0, |first|);
    NoTagPairSlice(first, 0, |cut|);
    NoTagPairCollapse(cut);
    NoTagPairTrim(collapsed);
    assert forall c :: c in cut ==> c in first;
  }

  /** The last step of `generateShortSummary`: the placeholder for an empty
      text, otherwise the text, cut to 50 characters and marked when longer. */
  function Finish(summary: string): (r: string)
    ensures r != ""
    ensures summary != "" && |summary| <= 50 ==> r == summary
    ensures summary == "" ==> r == Placeholder
    ensures |summary| > 50 ==> |r| == 53 && r[..50] == summary[..50] && r[50..] == "..."
  {
    if summary == "" then Placeholder
    else if |summary| > 50 then Take(summary, 50) + "..." else summary
  }

  /** `generateShortSummary`. */
  function ShortSummary(a: Article): string {
    Finish(Condensed(a))
  }

  /** The summary is the placeholder exactly when the condensed sentence is
      empty (or is itself the placeholder text); otherwise it is that sentence,
      at most 40 characters long, without sentence terminators, line breaks or
      tags, so the 50-character branch never applies. */
  lemma ShortSummaryShape(a: Article)
    ensures ShortSummary(a) == Placeholder <==> Condensed(a) == "" || Condensed(a) == Placeholder
    ensures ShortSummary(a) != Placeholder ==>
      ShortSummary(a) == Condensed(a) && |ShortSummary(a)| <= 40 &&
      (forall c :: c in ShortSummary(a) ==> !IsTerminator(c)) && NoTagPair(ShortSummary(a))
    ensures |Condensed(a)| <= 50
  {
    CondensedShape(a);
  }

  // Markdown escaping, dates and times

  /** `escapeMarkdown`: every pattern is replaced by the same character, since
      `'\['` and the like are plain one-character literals, so it changes nothing. */
  function EscapeMarkdown(text: string): (r: string)
    ensures r == text
  {
    ReplaceCharBySelf(text, '[');
    ReplaceCharBySelf(text, ']');
    ReplaceCharBySelf(text, '(');
    ReplaceCharBySelf(text, ')');
    ReplaceCharBySelf(text, '*');
    ReplaceCharBySelf(text, '_');
    ReplaceChar(ReplaceChar(ReplaceChar(ReplaceChar(ReplaceChar(ReplaceChar(
      text, '[', "["), ']', "]"), '(', "("), ')', ")"), '*', "*"), '_', "_")
  }

  type Hour = h: nat | h < 24
  type Minute = m: nat | m < 60
  type Month = m: nat | 1 <= m <= 12 witness 1
  type Day = d: nat | 1 <= d <= 31 witness 1
  type WeekdayIndex = w: nat | w < 7

  /** The local hour and minute of an instant. */
  datatype TimeOfDay = TimeOfDay(hours: Hour, minutes: Minute)

  /** The local calendar date of an instant, as `getFullYear`, `getMonth() + 1`,
      `getDate` and `getDay` give it. */
  datatype DateParts = DateParts(year: int, month: Month, day: Day, weekday: WeekdayIndex)

  /** The local clock: today's date and the time zone's reading of an instant. */
  datatype Clock = Clock(today: DateParts, localTime: int -> TimeOfDay)

  const Weekdays: seq<string> := ["周日", "周一", "周二", "周三", "周四", "周五", "周六"]

  /** `String(n)` for an integer. */
  function IntToString(n: int): string {
    if n < 0 then "-" + NatToString(-n) else NatToString(n)
  }

  /** `formatDate`: the full year, the zero-padded month and day, and the weekday. */
  function FormatDate(d: DateParts): (r: string)
  {
    IntToString(d.year) + "-" + TwoDigits(d.month) + "-" + TwoDigits(d.day) + " " + Weekdays[d.weekday]
  }

  /** For a four-digit year the date reads `YYYY-MM-DD` followed by the weekday's name. */
  lemma FormatDateShape(d: DateParts)
    requires 1000 <= d.year <= 9999
    ensures var r := FormatDate(d);
      |r| == 13 && r[4] == '-' && r[7] == '-' && r[10] == ' ' &&
      r[..4] == NatToString(d.year) &&
      r[5..7] == [Digit(d.month / 10), Digit(d.month % 10)] &&
      r[8..10] == [Digit(d.day / 10), Digit(d.day % 10)] &&
      r[11..] == Weekdays[d.weekday]
  {
    FourDigitYear(d.year);
    TwoDigitsBelowHundred(d.month);
    TwoDigitsBelowHundred(d.day);
    assert |Weekdays[d.weekday]| == 2;
    DateLayout(NatToString(d.year), '-', TwoDigits(d.month), TwoDigits(d.day), ' ', Weekdays[d.weekday]);
  }

  /** `formatTime`: zero-padded local hours and minutes; an invalid date reads
      as `NaN:NaN`. */
  function FormatTime(t: Timestamp, localTime: int -> TimeOfDay): (r: string)
    ensures t.InvalidDate? ==> r == "NaN:NaN"
    ensures t.At? ==>
      |r| == 5 && r[2] == ':' &&
      r == [Digit(localTime(t.ms).hours / 10), Digit(localTime(t.ms).hours % 10), ':',
            Digit(localTime(t.ms).minutes / 10), Digit(localTime(t.ms).minutes % 10)]
  {
    match t
    case InvalidDate => "NaN" + ":" + "NaN"
    case At(ms) =>
      var tod := localTime(ms);
      TwoDigitsBelowHundred(tod.hours);
      TwoDigitsBelowHundred(tod.minutes);
      TwoDigits(tod.hours) + ":" + TwoDigits(tod.minutes)
  }

  lemma FourDigitYear(y: nat)
    requires 1000 <= y <= 9999
    ensures |NatToString(y)| == 4
  {
    var a := y / 10;
    var b := a / 10;
    assert 100 <= a <= 999 && 10 <= b <= 99 && 1 <= b / 10 <= 9;
    NumeralStep(y);
    NumeralStep(a);
    NumeralStep(b);
  }

  // The card

  datatype TextTag = LarkMd | PlainText
  datatype Element = Div(tag: TextTag, content: string) | Hr
  /** The card header; its title is always `plain_text`. */
  datatype Header = Header(title: string, template: string)
  datatype Card = Card(wideScreenMode: bool, header: Header, elements: seq<Element>)

  const BriefTitle: string := "金融科技早报"

  /** The date line and the article count at the top of the card. */
  function HeaderElement(today: DateParts, count: nat): Element {
    Div(LarkMd, "**日期**: " + FormatDate(today) + "\n**文章数**: " + NatToString(count) + " 篇")
  }

  /** The title line of one source's group. */
  function SourceTitle(source: string, count: nat): Element {
    Div(LarkMd, "**" + source + "** (" + NatToString(count) + "篇)")
  }

  /** The title line of an article as numbered in its group. */
  function TitleLine(a: Article, index: nat): string {
    NatToString(index) + ". [" + EscapeMarkdown(a.title) + "](" + a.url + ")"
  }

  /** `buildArticleElement`: title line, summary line, time line. */
  function ArticleElements(a: Article, index: nat, clock: Clock): seq<Element> {
    [Div(LarkMd, TitleLine(a, index)),
     Div(LarkMd, ShortSummary(a)),
     Div(PlainText, "  " + FormatTime(a.publishTime, clock.localTime))]
  }

  /** An article's first line: its number in its group and its title, linked
      to its url (the title unchanged by escaping). */
  lemma ArticleLines(a: Article, index: nat, clock: Clock)
    ensures |ArticleElements(a, index, clock)| == 3
    ensures ArticleElements(a, index, clock)[0] == Div(LarkMd, NatToString(index) + ". [" + a.title + "](" + a.url + ")")
  {
    assert EscapeMarkdown(a.title) == a.title;
  }

  /** An article's second line is its summary, which is never empty, and its
      third its time, in plain text. */
  lemma ArticleSummaryAndTime(a: Article, index: nat, clock: Clock)
    ensures ArticleElements(a, index, clock)[1..] ==
      [Div(LarkMd, ShortSummary(a)), Div(PlainText, "  " + FormatTime(a.publishTime, clock.localTime))]
    ensures ShortSummary(a) != ""
  {
  }

  function ArticleRenderer(clock: Clock): (Article, nat) -> seq<Element> {
    (a: Article, index: nat) => ArticleElements(a, index, clock)
  }

  lemma ArticleRendererShape(clock: Clock)
    ensures forall a, index :: |ArticleRenderer(clock)(a, index)| == 3 && ArticleRenderer(clock)(a, index)[2] != Hr
  {
  }

  /** The elements the inner loop has pushed after `n` articles of a group: each
      article's three elements, numbered from 1, and a divider after each but
      the group's last. */
  function ArticleRun(arts: seq<Article>, n: nat, clock: Clock): seq<Element>
    requires n <= |arts|
  {
    Run(arts, n, ArticleRenderer(clock), Hr)
  }

  /** A group: its title, its articles, and a divider after it when there is more than one group. */
  function Section(source: string, arts: seq<Article>, multi: bool, clock: Clock): seq<Element> {
    [SourceTitle(source, |arts|)] + ArticleRun(arts, |arts|, clock) + (if multi then [Hr] else [])
  }

  function SectionOf(s: seq<Article>, multi: bool, clock: Clock): string -> seq<Element> {
    source => Section(source, Members(s, source), multi, clock)
  }

  function Preamble(articles: seq<Article>, clock: Clock): seq<Element> {
    [HeaderElement(clock.today, |articles|), Hr]
  }

  /** The elements of the morning card: the preamble, then the groups in key order. */
  function MorningElements(articles: seq<Article>, clock: Clock): (r: seq<Element>)
    ensures |r| >= 2 && r[0] == HeaderElement(clock.today, |articles|) && r[1] == Hr
  {
    var labels := SourceLabels(articles);
    Preamble(articles, clock) + FlatMap(labels, SectionOf(articles, |labels| > 1, clock))
  }

  /** The card `buildMorningCard` returns. */
  function MorningCard(articles: seq<Article>, clock: Clock): Card {
    Card(true, Header(BriefTitle, "turquoise"), MorningElements(articles, clock))
  }

  method BuildMorningCard(articles: seq<Article>, clock: Clock) returns (card: Card)
    ensures card == MorningCard(articles, clock)
  {
    var keys, grouped := GroupBySource(articles);
    var elements := PushGroups(Preamble(articles, clock), keys, grouped, |keys| > 1, clock, articles);
    card := Card(true, Header(BriefTitle, "turquoise"), elements);
  }

  /** The outer loop of `buildMorningCard`: one section per key, in key order. */
  method PushGroups(preamble: seq<Element>, keys: seq<string>, grouped: map<string, seq<Article>>, multi: bool,
                    clock: Clock, ghost articles: seq<Article>)
    returns (elements: seq<Element>)
    requires forall l :: l in keys ==> l in grouped && grouped[l] == Members(articles, l)
    ensures elements == preamble + FlatMap(keys, SectionOf(articles, multi, clock))
  {
    ghost var section := SectionOf(articles, multi, clock);
    elements := preamble;
    for j := 0 to |keys|
      invariant elements == preamble + FlatMap(keys[..j], section)
    {
      var source := keys[j];
      assert section(source) == Section(source, grouped[source], multi, clock);
      FlatMapPush(preamble, keys, j, section);
      elements := PushGroup(elements, source, grouped[source], multi, clock);
    }
    WholePrefix(keys);
  }

  /** The inner loop of `buildMorningCard`: each item rendered with its
      1-based index, and the separator pushed after every item but the last. */
  method PushRun<T, E>(prefix: seq<E>, items: seq<T>, render: (T, nat) -> seq<E>, sep: E) returns (pushed: seq<E>)
    ensures pushed == prefix + Run(items, |items|, render, sep)
  {
    pushed := prefix;
    for i := 0 to |items|
      invariant pushed == prefix + Run(items, i, render, sep)
    {
      RunPush(prefix, items, i, render, sep);
      pushed := pushed + render(items[i], i + 1);
      if i < |items| - 1 {
        pushed := pushed + [sep];
      }
    }
  }

  /** One pass of the outer loop of `buildMorningCard`: the group's title, its
      articles with dividers between them, and the divider after the group. */
  method PushGroup(elements: seq<Element>, source: string, sourceArticles: seq<Article>, multi: bool, clock: Clock)
    returns (pushed: seq<Element>)
    ensures pushed == elements + Section(source, sourceArticles, multi, clock)
  {
    pushed := elements + [SourceTitle(source, |sourceArticles|)];
    pushed := PushRun(pushed, sourceArticles, ArticleRenderer(clock), Hr);
    AppendRegroup(elements, [SourceTitle(source, |sourceArticles|)], ArticleRun(sourceArticles, |sourceArticles|, clock),
      if multi then [Hr] else []);
    if multi {
      pushed := pushed + [Hr];
    }
  }

  // Layout of the card

  /** Article `k` of a group occupies elements `4k` to `4k + 2` of the group's
      run, numbered `k + 1` within its group, and a divider follows it unless
      it is the group's last; the run ends with the last article's time line. */
  lemma ArticleRunLayout(arts: seq<Article>, k: nat, clock: Clock)
    requires k < |arts|
    ensures |ArticleRun(arts, |arts|, clock)| == 4 * |arts| - 1
    ensures ArticleRun(arts, |arts|, clock)[4 * k .. 4 * k + 3] == ArticleElements(arts[k], k + 1, clock)
    ensures k < |arts| - 1 ==> ArticleRun(arts, |arts|, clock)[4 * k + 3] == Hr
    ensures ArticleRun(arts, |arts|, clock)[4 * |arts| - 2] != Hr
  {
    ArticleRendererShape(clock);
    RunLength(arts, |arts|, ArticleRenderer(clock), Hr);
    RunLayout(arts, |arts|, k, ArticleRenderer(clock), Hr);
    RunEnd(arts, ArticleRenderer(clock), Hr);
  }

  lemma SectionLength(source: string, arts: seq<Article>, multi: bool, clock: Clock)
    requires arts != []
    ensures |Section(source, arts, multi, clock)| == 4 * |arts| + (if multi then 1 else 0)
  {
    ArticleRendererShape(clock);
    RunLength(arts, |arts|, ArticleRenderer(clock), Hr);
  }

  lemma {:induction false} SectionsLength(labels: seq<string>, s: seq<Article>, multi: bool, clock: Clock)
    requires forall l :: l in labels ==> Members(s, l) != []
    ensures |FlatMap(labels, SectionOf(s, multi, clock))| == 4 * GroupSizes(labels, s) + (if multi then |labels| else 0)
  {
    if labels != [] {
      var l := labels[|labels| - 1];
      SectionsLength(labels[..|labels| - 1], s, multi, clock);
      SectionLength(l, Members(s, l), multi, clock);
    }
  }

  /** The card has the header, a divider, four elements per article (title,
      summary and time lines plus a divider, one per group being the group's
      title instead), and one more divider per group when there are several. */
  lemma MorningLength(articles: seq<Article>, clock: Clock)
    ensures |MorningElements(articles, clock)| ==
      2 + 4 * |articles| + (if |SourceLabels(articles)| > 1 then |SourceLabels(articles)| else 0)
  {
    var labels := SourceLabels(articles);
    forall l | l in labels ensures Members(articles, l) != [] {
      MembersNonEmpty(articles, l);
    }
    SectionsLength(labels, articles, |labels| > 1, clock);
    GroupSizesSum(articles);
  }

  /** A group's section ends with a divider exactly when there are several groups. */
  lemma SectionEnd(source: string, arts: seq<Article>, multi: bool, clock: Clock)
    requires arts != []
    ensures var r := Section(source, arts, multi, clock); |r| > 0 && (r[|r| - 1] == Hr <==> multi)
  {
    if !multi {
      ArticleRunLayout(arts, 0, clock);
      var run := ArticleRun(arts, |arts|, clock);
      assert Section(source, arts, multi, clock) == [SourceTitle(source, |arts|)] + run;
    }
  }

  /** The card ends with a divider exactly when there is more than one group. */
  lemma MorningEndsWithDivider(articles: seq<Article>, clock: Clock)
    requires articles != []
    ensures var r := MorningElements(articles, clock);
            r[|r| - 1] == Hr <==> |SourceLabels(articles)| > 1
  {
    var labels := SourceLabels(articles);
    assert SourceLabel(articles[0]) in labels;
    var l := labels[|labels| - 1];
    MembersNonEmpty(articles, l);
    SectionEnd(l, Members(articles, l), |labels| > 1, clock);
    FlatMapLast(Preamble(articles, clock), labels, SectionOf(articles, |labels| > 1, clock));
  }
}
