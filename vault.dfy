/**
 * The file-backed daily-note bot (archive/bot_legacy_unified.py): every
 * message of the monitored channel is written into the vault file of its
 * JST date, `vault/YYYY/MM/DD/YYYY-MM-DD.md`, created from a fixed template
 * on the first write; each new line goes directly under the Discord
 * section marker. The notes can be listed newest first.
 *
 * The filesystem is a map from path to contents; directories are not
 * represented, and whether creating a directory, a file, a read or a write
 * succeeds is a parameter of each operation.
 */
module LegacyVault {
  import opened Strings
  import opened Order

  const AllowedGuildId := 1397720381149806723

  // ---------------------------------------------------------------------
  // get_daily_note_path
  // ---------------------------------------------------------------------

  /** `os.path.join(a, b)` on POSIX: an absolute `b` replaces `a`. */
  function PathJoin(a: string, b: string): string {
    if |b| > 0 && b[0] == '/' then b
    else if |a| == 0 || a[|a| - 1] == '/' then a + b
    else a + "/" + b
  }

  /** `'/'.join(date.split('-'))`: `2025-07-25` becomes `2025/07/25`. */
  function DateDir(date: string): string {
    Join(SplitOn(date, "-"), "/")
  }

  /**
   * The note path of a date: inside the date's directory when that could
   * be created, directly in the vault when creating it failed.
   */
  function DailyNotePath(vault: string, date: string, mkdirOk: bool): string {
    if mkdirOk then PathJoin(PathJoin(vault, DateDir(date)), date + ".md")
    else PathJoin(vault, date + ".md")
  }

  /** A date field: one or more decimal digits. */
  predicate DigitsOnly(s: string) {
    |s| > 0 && forall i :: 0 <= i < |s| ==> IsDigit(s[i])
  }

  /** A path segment: not empty, no `-` (the date separator) and no `/`. */
  predicate Segment(s: string) {
    |s| > 0 && '-' !in s && '/' !in s
  }

  /**
   * What `os.path.join` puts in front of a relative name joined to
   * `vault`: the vault itself when it is empty or already ends in `/`,
   * otherwise the vault and a `/`.
   */
  function DirPrefix(vault: string): string {
    if |vault| == 0 || vault[|vault| - 1] == '/' then vault else vault + "/"
  }

  lemma DigitsAreSegment(s: string)
    requires DigitsOnly(s)
    ensures Segment(s) && '.' !in s && '\n' !in s && '*' !in s
  {
  }

  lemma DateDirOfParts(y: string, m: string, d: string)
    requires Segment(y) && Segment(m) && Segment(d)
    ensures DateDir(y + "-" + m + "-" + d) == y + "/" + m + "/" + d
  {
    DateParts(y, m, d);
    JoinThree(y, m, d);
  }

  /** A date of three dash-free segments splits into them. */
  lemma DateParts(y: string, m: string, d: string)
    requires Segment(y) && Segment(m) && Segment(d)
    ensures SplitOn(y + "-" + m + "-" + d, "-") == [y, m, d]
  {
    var ym := y + "-" + m;
    assert ym == y + ['-'] + m;
    assert y + "-" + m + "-" + d == ym + ['-'] + d;
    SplitOnCharConcat(ym, '-', d);
    SplitOnCharConcat(y, '-', m);
    SplitOnCharAbsent(y, '-');
    SplitOnCharAbsent(m, '-');
    SplitOnCharAbsent(d, '-');
  }

  lemma JoinThree(y: string, m: string, d: string)
    ensures Join([y, m, d], "/") == y + "/" + m + "/" + d
  {
    assert Join([d], "/") == d;
    assert Join([m, d], "/") == m + "/" + d by {
      assert [m, d][1..] == [d];
    }
    assert Join([y, m, d], "/") == y + "/" + (m + "/" + d) by {
      assert [y, m, d][1..] == [m, d];
    }
  }

  /**
   * `Y-M-D` goes to `Y/M/D/Y-M-D.md` inside the vault directory, or to
   * `Y-M-D.md` directly inside it when the date's directory could not be
   * created. The text is joined, not normalised: a vault such as `..` is
   * kept as written.
   */
  lemma NotePathLayout(vault: string, y: string, m: string, d: string)
    requires Segment(y) && Segment(m) && Segment(d)
    ensures DailyNotePath(vault, y + "-" + m + "-" + d, true)
         == DirPrefix(vault) + y + "/" + m + "/" + d + "/" + y + "-" + m + "-" + d + ".md"
    ensures DailyNotePath(vault, y + "-" + m + "-" + d, false) == DirPrefix(vault) + y + "-" + m + "-" + d + ".md"
  {
    var date := y + "-" + m + "-" + d;
    var dir := y + "/" + m + "/" + d;
    var file := date + ".md";
    var p := DirPrefix(vault);
    DateDirOfParts(y, m, d);
    JoinRelative(vault, dir);
    JoinRelative(vault, file);
    var full := p + dir;
    JoinRelative(full, file);
    assert DirPrefix(full) == full + "/" by {
      assert full[|full| - 1] == d[|d| - 1];
    }
    assert DailyNotePath(vault, date, true) == full + "/" + file;
    assert DailyNotePath(vault, date, false) == p + file;
  }

  /** A name that does not start with `/` is appended after the directory prefix. */
  lemma JoinRelative(dir: string, name: string)
    requires |name| > 0 && name[0] != '/'
    ensures PathJoin(dir, name) == DirPrefix(dir) + name
  {
  }

  // ---------------------------------------------------------------------
  // create_daily_note_template
  // ---------------------------------------------------------------------

  /** The headings and prompts of the template's sections before the Discord one. */
  const SummaryHeading := "## 📝 Daily Summary"
  const SummaryPrompt := "<!-- 今日の振り返りや重要な出来事をここに記録 -->"
  const GoalsHeading := "## 🎯 Today's Goals"
  const GoalsPrompt := "<!-- 今日の目標・タスク -->"
  const GoalsItem := "- [ ] "
  const ProgressHeading := "## 📈 Progress & Achievements"
  const ProgressPrompt := "<!-- 今日の進捗・達成したこと -->"
  const ThoughtsHeading := "## 💭 Thoughts & Reflections"
  const ThoughtsPrompt := "<!-- 今日の気づき・学び・感想 -->"

  /** The template's sections after its title line, one line per element. */
  const SummarySection: seq<string> := ["", SummaryHeading, SummaryPrompt, ""]
  const GoalsSection: seq<string> := [GoalsHeading, GoalsPrompt, GoalsItem, ""]
  const ProgressSection: seq<string> := [ProgressHeading, ProgressPrompt, ""]
  const ThoughtsSection: seq<string> := [ThoughtsHeading, ThoughtsPrompt, ""]

  /** The lines of the Discord section heading, which end the template. */
  const MarkerLines: seq<string> := ["## 📋 Discord Messages", "<!-- Discord からの記録 -->", ""]

  /** The section marker new lines are spliced after. */
  const Marker := Unlines(MarkerLines)

  /** The fourth character of the marker, which no other template line holds. */
  const MarkerKey := '📋'

  /** The lines of the template before the Discord section. */
  function TemplateHead(date: string): seq<string> {
    ["# " + date] + SummarySection + GoalsSection + ProgressSection + ThoughtsSection
  }

  /** `create_daily_note_template`. */
  function Template(date: string): string {
    Unlines(TemplateHead(date) + MarkerLines)
  }

  /** A date as the bot writes it: digits and dashes only. */
  predicate PlainDate(date: string) {
    forall i :: 0 <= i < |date| ==> IsDigit(date[i]) || date[i] == '-'
  }

  /** Lines the counter reads back one by one and never counts. */
  predicate Inert(ls: seq<string>) {
    forall i :: 0 <= i < |ls| ==> '\n' !in ls[i] && !IsNumbered(ls[i])
  }

  /** Lines without the marker's key character, so the marker cannot occur in them. */
  predicate KeyFree(ls: seq<string>) {
    forall i :: 0 <= i < |ls| ==> MarkerKey !in ls[i]
  }

  /** Lines without a carriage return, which newline translation leaves alone. */
  predicate CrFree(ls: seq<string>) {
    forall i :: 0 <= i < |ls| ==> '\r' !in ls[i]
  }

  lemma InertConcat(a: seq<string>, b: seq<string>)
    requires Inert(a) && Inert(b)
    ensures Inert(a + b)
  {
    forall i | 0 <= i < |a + b|
      ensures '\n' !in (a + b)[i] && !IsNumbered((a + b)[i])
    {
      if i >= |a| {
        assert (a + b)[i] == b[i - |a|];
      }
    }
  }

  lemma KeyFreeConcat(a: seq<string>, b: seq<string>)
    requires KeyFree(a) && KeyFree(b)
    ensures KeyFree(a + b)
  {
    forall i | 0 <= i < |a + b|
      ensures MarkerKey !in (a + b)[i]
    {
      if i >= |a| {
        assert (a + b)[i] == b[i - |a|];
      }
    }
  }

  lemma CrFreeConcat(a: seq<string>, b: seq<string>)
    requires CrFree(a) && CrFree(b)
    ensures CrFree(a + b)
  {
    forall i | 0 <= i < |a + b|
      ensures '\r' !in (a + b)[i]
    {
      if i >= |a| {
        assert (a + b)[i] == b[i - |a|];
      }
    }
  }

  /**
   * Lines whose shape alone keeps them from being counted: no newline, and
   * either a `#` or `<` in front or no `*` at all.
   */
  predicate Unnumberable(ls: seq<string>) {
    forall i :: 0 <= i < |ls| ==>
      '\n' !in ls[i] && ((|ls[i]| > 0 && (ls[i][0] == '#' || ls[i][0] == '<')) || '*' !in ls[i])
  }

  lemma UnnumberableInert(ls: seq<string>)
    requires Unnumberable(ls)
    ensures Inert(ls)
  {
    forall i | 0 <= i < |ls|
      ensures '\n' !in ls[i] && !IsNumbered(ls[i])
    {
      if |ls[i]| > 0 && (ls[i][0] == '#' || ls[i][0] == '<') {
        LeadNotNumbered(ls[i]);
      } else {
        StarlessNotNumbered(ls[i]);
      }
    }
  }

  lemma UnnumberableConcat(a: seq<string>, b: seq<string>)
    requires Unnumberable(a) && Unnumberable(b)
    ensures Unnumberable(a + b)
  {
    forall i | 0 <= i < |a + b|
      ensures
        '\n' !in (a + b)[i] && ((|(a + b)[i]| > 0 && ((a + b)[i][0] == '#' || (a + b)[i][0] == '<')) || '*' !in (a + b)[i])
    {
      if i >= |a| {
        assert (a + b)[i] == b[i - |a|];
      }
    }
  }

  /** A line without control characters, so without `\n` or `\r`. */
  predicate Printable(line: string) {
    forall i :: 0 <= i < |line| ==> ' ' <= line[i]
  }

  lemma PrintableBreakFree(line: string)
    requires Printable(line)
    ensures '\n' !in line && '\r' !in line
  {
  }

  /** A template line: printable, no marker key, and either a `#` or `<` in front or no `*`. */
  predicate PlainLine(line: string) {
    Printable(line) && MarkerKey !in line &&
    ((|line| > 0 && (line[0] == '#' || line[0] == '<')) || '*' !in line)
  }

  lemma PlainLines(ls: seq<string>)
    requires forall i :: 0 <= i < |ls| ==> PlainLine(ls[i])
    ensures Unnumberable(ls) && KeyFree(ls) && CrFree(ls)
  {
    forall i | 0 <= i < |ls|
      ensures '\n' !in ls[i] && '\r' !in ls[i]
    {
      PrintableBreakFree(ls[i]);
    }
  }

  lemma SummaryHeadingPlain()
    ensures PlainLine(SummaryHeading)
  {
  }

  lemma SummaryPromptPlain()
    ensures PlainLine(SummaryPrompt)
  {
  }

  lemma GoalsHeadingPlain()
    ensures PlainLine(GoalsHeading)
  {
  }

  lemma GoalsPromptPlain()
    ensures PlainLine(GoalsPrompt)
  {
  }

  lemma GoalsItemPlain()
    ensures PlainLine(GoalsItem)
  {
  }

  lemma ProgressHeadingPlain()
    ensures PlainLine(ProgressHeading)
  {
  }

  lemma ProgressPromptPlain()
    ensures PlainLine(ProgressPrompt)
  {
  }

  lemma ThoughtsHeadingPlain()
    ensures PlainLine(ThoughtsHeading)
  {
  }

  lemma ThoughtsPromptPlain()
    ensures PlainLine(ThoughtsPrompt)
  {
  }

  lemma SummaryPlain()
    ensures Unnumberable(SummarySection) && KeyFree(SummarySection) && CrFree(SummarySection)
  {
    SummaryHeadingPlain();
    SummaryPromptPlain();
    assert PlainLine("");
    PlainLines(SummarySection);
  }

  lemma GoalsPlain()
    ensures Unnumberable(GoalsSection) && KeyFree(GoalsSection) && CrFree(GoalsSection)
  {
    GoalsHeadingPlain();
    GoalsPromptPlain();
    GoalsItemPlain();
    assert PlainLine("");
    PlainLines(GoalsSection);
  }

  lemma ProgressPlain()
    ensures Unnumberable(ProgressSection) && KeyFree(ProgressSection) && CrFree(ProgressSection)
  {
    ProgressHeadingPlain();
    ProgressPromptPlain();
    assert PlainLine("");
    PlainLines(ProgressSection);
  }

  lemma ThoughtsPlain()
    ensures Unnumberable(ThoughtsSection) && KeyFree(ThoughtsSection) && CrFree(ThoughtsSection)
  {
    ThoughtsHeadingPlain();
    ThoughtsPromptPlain();
    assert PlainLine("");
    PlainLines(ThoughtsSection);
  }

  /** A character in the first line of some lines sits at the same place in their join. */
  lemma FirstLineChars(ls: seq<string>, k: nat)
    requires |ls| > 0 && k < |ls[0]|
    ensures k < |Unlines(ls)| && Unlines(ls)[k] == ls[0][k] && Unlines(ls)[..k] == ls[0][..k]
  {
    assert Unlines(ls) == ls[0] + ("\n" + Unlines(ls[1..]));
  }

  /** The marker's key is its fourth character, after `## `. */
  lemma MarkerFacts()
    ensures 3 < |Marker| && Marker[3] == MarkerKey && MarkerKey !in Marker[..3]
    ensures Inert(MarkerLines)
  {
    var first := MarkerLines[0];
    assert 3 < |first| && first[3] == MarkerKey && MarkerKey !in first[..3];
    FirstLineChars(MarkerLines, 3);
    MarkerLinesPlain();
    UnnumberableInert(MarkerLines);
  }

  lemma MarkerHeadingPrintable()
    ensures Printable(MarkerLines[0]) && MarkerLines[0][0] == '#'
  {
  }

  lemma MarkerPromptPrintable()
    ensures Printable(MarkerLines[1]) && MarkerLines[1][0] == '<'
  {
  }

  lemma MarkerLinesPlain()
    ensures Unnumberable(MarkerLines) && CrFree(MarkerLines)
  {
    MarkerHeadingPrintable();
    MarkerPromptPrintable();
    PrintableBreakFree(MarkerLines[0]);
    PrintableBreakFree(MarkerLines[1]);
  }

  /** The title and every section before the Discord one are inert and key-free for a plain date. */
  lemma HeadInert(date: string)
    requires PlainDate(date)
    ensures Inert(TemplateHead(date)) && KeyFree(TemplateHead(date))
    ensures MarkerKey !in Unlines(TemplateHead(date)) && CrFree(TemplateHead(date))
  {
    var title := ["# " + date];
    assert MarkerKey !in title[0] && '\n' !in title[0] && '\r' !in title[0] && title[0][0] == '#';
    SummaryPlain();
    GoalsPlain();
    ProgressPlain();
    ThoughtsPlain();
    UnnumberableConcat(title, SummarySection);
    UnnumberableConcat(title + SummarySection, GoalsSection);
    UnnumberableConcat(title + SummarySection + GoalsSection, ProgressSection);
    UnnumberableConcat(title + SummarySection + GoalsSection + ProgressSection, ThoughtsSection);
    KeyFreeConcat(title, SummarySection);
    KeyFreeConcat(title + SummarySection, GoalsSection);
    KeyFreeConcat(title + SummarySection + GoalsSection, ProgressSection);
    KeyFreeConcat(title + SummarySection + GoalsSection + ProgressSection, ThoughtsSection);
    CrFreeConcat(title, SummarySection);
    CrFreeConcat(title + SummarySection, GoalsSection);
    CrFreeConcat(title + SummarySection + GoalsSection, ProgressSection);
    CrFreeConcat(title + SummarySection + GoalsSection + ProgressSection, ThoughtsSection);
    UnnumberableInert(TemplateHead(date));
    UnlinesFree(TemplateHead(date), MarkerKey);
  }

  /** The template is its head followed by the marker, which ends it. */
  lemma TemplateShape(date: string)
    ensures Template(date) == Unlines(TemplateHead(date)) + Marker
    ensures StartsWith(Template(date), "# " + date + "\n")
    ensures EndsWith(Template(date), Marker)
  {
    UnlinesConcat(TemplateHead(date), MarkerLines);
    MarkerFacts();
    var t := Template(date);
    var first := "# " + date + "\n";
    assert TemplateHead(date)[0] == "# " + date;
    assert Unlines(TemplateHead(date)) == first + Unlines(TemplateHead(date)[1..]);
    assert t[..|first|] == first;
    assert t[|t| - |Marker|..] == Marker;
  }

  /** A fresh template holds no carriage return, so reading it back translates nothing. */
  lemma TemplateCrFree(date: string)
    requires PlainDate(date)
    ensures '\r' !in Template(date)
    ensures TranslateNewlines(Template(date)) == Template(date)
  {
    HeadInert(date);
    MarkerLinesPlain();
    CrFreeConcat(TemplateHead(date), MarkerLines);
    UnlinesFree(TemplateHead(date) + MarkerLines, '\r');
    TranslateNewlinesPlain(Template(date));
  }

  /** The marker occurs in a fresh template exactly once: at its end. */
  lemma TemplateMarkerOnce(date: string)
    requires PlainDate(date)
    ensures forall i :: 0 <= i <= |Template(date)| ==>
      (OccursAt(Template(date), Marker, i) <==> i == |Template(date)| - |Marker|)
  {
    TemplateShape(date);
    HeadInert(date);
    MarkerFacts();
    SoleOccurrenceAtEnd(Unlines(TemplateHead(date)), Marker, 3);
  }

  // ---------------------------------------------------------------------
  // get_next_message_number
  // ---------------------------------------------------------------------

  /** The line test of the counter: `line.strip().startswith('- **') and '**' in line`. */
  predicate IsNumbered(line: string) {
    StartsWith(Strip(line), "- **") && Contains(line, "**")
  }

  /** How many of the lines pass the counter's test. */
  function CountNumbered(ls: seq<string>): nat
    decreases |ls|
  {
    if |ls| == 0 then 0
    else CountNumbered(ls[..|ls| - 1]) + (if IsNumbered(ls[|ls| - 1]) then 1 else 0)
  }

  lemma {:induction false} CountNumberedConcat(a: seq<string>, b: seq<string>)
    ensures CountNumbered(a + b) == CountNumbered(a) + CountNumbered(b)
    decreases |b|
  {
    if |b| > 0 {
      assert (a + b)[..|a + b| - 1] == a + b[..|b| - 1];
      CountNumberedConcat(a, b[..|b| - 1]);
    } else {
      assert a + b == a;
    }
  }

  lemma {:induction false} CountNumberedNone(ls: seq<string>)
    requires forall i :: 0 <= i < |ls| ==> !IsNumbered(ls[i])
    ensures CountNumbered(ls) == 0
    decreases |ls|
  {
    if |ls| > 0 {
      CountNumberedNone(ls[..|ls| - 1]);
    }
  }

  /** A line without `*` is never counted. */
  lemma StarlessNotNumbered(line: string)
    requires '*' !in line
    ensures !IsNumbered(line)
  {
    forall i | 0 <= i <= |line|
      ensures !OccursAt(line, "**", i)
    {
      if i + 2 <= |line| {
        assert line[i..i + 2][0] == line[i];
      }
    }
  }

  /** A line that starts with a visible character other than `-` is never counted. */
  lemma LeadNotNumbered(line: string)
    requires |line| > 0 && !IsSpace(line[0]) && line[0] != '-'
    ensures !IsNumbered(line)
  {
    var r := Strip(line);
    if |r| >= 4 {
      assert r[..4][0] == r[0];
    }
  }

  /** Inert lines joined with newlines are read back as those lines and no line is counted. */
  lemma InertLinesCount(ls: seq<string>)
    requires Inert(ls)
    ensures Lines(Unlines(ls)) == ls + [""]
    ensures CountNumbered(Lines(Unlines(ls))) == 0
  {
    LinesOfUnlines(ls, "");
    assert Unlines(ls) + "" == Unlines(ls);
    assert Lines("") == [""];
    StarlessNotNumbered("");
    CountNumberedNone(ls);
    CountNumberedConcat(ls, [""]);
  }

  /** The template has no counted line, so the first message of a day gets number 1. */
  lemma TemplateUnnumbered(date: string)
    requires PlainDate(date)
    ensures CountNumbered(Lines(Template(date))) == 0
  {
    HeadInert(date);
    MarkerFacts();
    InertConcat(TemplateHead(date), MarkerLines);
    InertLinesCount(TemplateHead(date) + MarkerLines);
  }

  // ---------------------------------------------------------------------
  // format_discord_message
  // ---------------------------------------------------------------------

  /** A mentioned user (`display_name`) or channel (`name`). */
  datatype Mention = Mention(id: nat, name: string)

  /** An incoming message, with its JST date and `%H:%M` label already computed. */
  datatype DiscordMessage = DiscordMessage(
    date: string, time: string, author: string, content: string,
    mentions: seq<Mention>, channelMentions: seq<Mention>)

  function UserPlaceholder(id: nat): string { "<@" + NatToDecimal(id) + ">" }

  function ChannelPlaceholder(id: nat): string { "<#" + NatToDecimal(id) + ">" }

  /** Each mentioned user's placeholder replaced, one user after the other. */
  function ResolveUsers(content: string, users: seq<Mention>): string
    decreases |users|
  {
    if |users| == 0 then content
    else
      var u := users[|users| - 1];
      ReplaceAll(ResolveUsers(content, users[..|users| - 1]), UserPlaceholder(u.id), "@" + u.name)
  }

  /** Each mentioned channel's placeholder replaced, one channel after the other. */
  function ResolveChannels(content: string, channels: seq<Mention>): string
    decreases |channels|
  {
    if |channels| == 0 then content
    else
      var c := channels[|channels| - 1];
      ReplaceAll(ResolveChannels(content, channels[..|channels| - 1]), ChannelPlaceholder(c.id), "#" + c.name)
  }

  /** The Markdown line of a message. */
  function MessageLine(time: string, author: string, content: string): string {
    "**" + time + "** *" + author + "*: " + content
  }

  /** The line `format_discord_message` returns for a message. */
  function Formatted(m: DiscordMessage): string {
    MessageLine(m.time, m.author, ResolveChannels(ResolveUsers(m.content, m.mentions), m.channelMentions))
  }

  /**
   * `format_discord_message`: the message number is accepted and ignored,
   * so the line depends on the message alone.
   */
  method FormatDiscordMessage(m: DiscordMessage, messageNumber: int) returns (line: string)
    ensures line == Formatted(m)
  {
    var content := m.content;
    for i := 0 to |m.mentions|
      invariant content == ResolveUsers(m.content, m.mentions[..i])
    {
      assert m.mentions[..i + 1][..i] == m.mentions[..i];
      content := ReplaceAll(content, UserPlaceholder(m.mentions[i].id), "@" + m.mentions[i].name);
    }
    assert m.mentions[..|m.mentions|] == m.mentions;
    var resolved := content;
    for i := 0 to |m.channelMentions|
      invariant content == ResolveChannels(resolved, m.channelMentions[..i])
    {
      assert m.channelMentions[..i + 1][..i] == m.channelMentions[..i];
      content := ReplaceAll(content, ChannelPlaceholder(m.channelMentions[i].id), "#" + m.channelMentions[i].name);
    }
    assert m.channelMentions[..|m.channelMentions|] == m.channelMentions;
    line := "**" + m.time + "** *" + m.author + "*: " + content;
  }

  /** Placeholders of the mentioned users that do not occur leave the content as it is. */
  lemma {:induction false} ResolveUsersAbsent(content: string, users: seq<Mention>)
    requires forall i :: 0 <= i < |users| ==> !Contains(content, UserPlaceholder(users[i].id))
    ensures ResolveUsers(content, users) == content
    decreases |users|
  {
    if |users| > 0 {
      ResolveUsersAbsent(content, users[..|users| - 1]);
      ReplaceAllAbsent(content, UserPlaceholder(users[|users| - 1].id), "@" + users[|users| - 1].name);
    }
  }

  /** The same for channel placeholders. */
  lemma {:induction false} ResolveChannelsAbsent(content: string, channels: seq<Mention>)
    requires forall i :: 0 <= i < |channels| ==> !Contains(content, ChannelPlaceholder(channels[i].id))
    ensures ResolveChannels(content, channels) == content
    decreases |channels|
  {
    if |channels| > 0 {
      ResolveChannelsAbsent(content, channels[..|channels| - 1]);
      ReplaceAllAbsent(content, ChannelPlaceholder(channels[|channels| - 1].id), "#" + channels[|channels| - 1].name);
    }
  }

  /** One mentioned user: every occurrence of the placeholder becomes `@name`. */
  lemma ResolveOneUser(content: string, u: Mention)
    ensures ResolveUsers(content, [u]) == Join(SplitOn(content, UserPlaceholder(u.id)), "@" + u.name)
  {
    assert [u][..0] == [];
    ReplaceIsJoinOfSplit(content, UserPlaceholder(u.id), "@" + u.name);
  }

  /** One mentioned channel: every occurrence of the placeholder becomes `#name`. */
  lemma ResolveOneChannel(content: string, c: Mention)
    ensures ResolveChannels(content, [c]) == Join(SplitOn(content, ChannelPlaceholder(c.id)), "#" + c.name)
  {
    assert [c][..0] == [];
    ReplaceIsJoinOfSplit(content, ChannelPlaceholder(c.id), "#" + c.name);
  }

  /** A formatted line starts with `**`, not `- **`: the counter never counts it. */
  lemma FormattedUnnumbered(m: DiscordMessage)
    ensures !IsNumbered(Formatted(m))
  {
    LeadNotNumbered(Formatted(m));
  }

  // ---------------------------------------------------------------------
  // append_to_daily_note
  // ---------------------------------------------------------------------

  /**
   * The new note text: when the marker is present every occurrence of it
   * is followed by the new line, otherwise the line goes at the end.
   */
  function Splice(content: string, line: string): string {
    if Contains(content, Marker) then ReplaceAll(content, Marker, Marker + line + "\n")
    else content + "\n" + line + "\n"
  }

  /** Without a marker nothing is lost: the old text is kept in front. */
  lemma SpliceWithoutMarker(content: string, line: string)
    requires !Contains(content, Marker)
    ensures Splice(content, line) == content + "\n" + line + "\n"
    ensures StartsWith(Splice(content, line), content)
    ensures |Splice(content, line)| == |content| + |line| + 2
  {
    var r := Splice(content, line);
    assert r[..|content|] == content;
  }

  /**
   * Below a single marker the new line goes first, directly after the
   * marker and ahead of the lines written before it.
   */
  lemma SpliceNewestFirst(pre: string, rest: string, line: string)
    requires MarkerKey !in pre && MarkerKey !in rest
    ensures Splice(pre + Marker + rest, line) == pre + Marker + (line + "\n" + rest)
  {
    MarkerFacts();
    ReplaceSoleOccurrence(pre, Marker, rest, 3, Marker + line + "\n");
    Regroup(pre, Marker, line, "\n", rest);
  }

  /** The lines, newest first. */
  function NewestFirst(ls: seq<string>): (r: seq<string>)
    ensures |r| == |ls|
    decreases |ls|
  {
    if |ls| == 0 then [] else [ls[|ls| - 1]] + NewestFirst(ls[..|ls| - 1])
  }

  lemma {:induction false} NewestFirstElements(ls: seq<string>)
    ensures forall i :: 0 <= i < |ls| ==> NewestFirst(ls)[i] == ls[|ls| - 1 - i]
    decreases |ls|
  {
    if |ls| > 0 {
      NewestFirstElements(ls[..|ls| - 1]);
    }
  }

  /**
   * The note of a date after the lines were appended in order to a fresh
   * template: before each splice the note is read back in text mode.
   */
  function NoteAfter(date: string, ls: seq<string>): string
    decreases |ls|
  {
    if |ls| == 0 then Template(date)
    else Splice(TranslateNewlines(NoteAfter(date, ls[..|ls| - 1])), ls[|ls| - 1])
  }

  /** The layout of a note whose lines hold no carriage return holds none either. */
  lemma LayoutCrFree(date: string, ls: seq<string>)
    requires PlainDate(date) && CrFree(ls)
    ensures '\r' !in Unlines(TemplateHead(date)) + Marker + Unlines(NewestFirst(ls))
  {
    HeadInert(date);
    MarkerLinesPlain();
    NewestFirstElements(ls);
    var newest := NewestFirst(ls);
    assert CrFree(newest) by {
      forall i | 0 <= i < |newest|
        ensures '\r' !in newest[i]
      {
        assert newest[i] == ls[|ls| - 1 - i];
      }
    }
    CrFreeConcat(TemplateHead(date), MarkerLines);
    CrFreeConcat(TemplateHead(date) + MarkerLines, newest);
    UnlinesConcat(TemplateHead(date), MarkerLines);
    UnlinesConcat(TemplateHead(date) + MarkerLines, newest);
    UnlinesFree(TemplateHead(date) + MarkerLines + newest, '\r');
  }

  /**
   * After any number of appends the note is the template head, the marker
   * once, then the lines with the newest first.
   */
  lemma {:induction false} NoteAfterLayout(date: string, ls: seq<string>)
    requires PlainDate(date) && KeyFree(ls) && CrFree(ls)
    ensures NoteAfter(date, ls) == Unlines(TemplateHead(date)) + Marker + Unlines(NewestFirst(ls))
    decreases |ls|
  {
    if |ls| > 0 {
      var init := ls[..|ls| - 1];
      var line := ls[|ls| - 1];
      assert KeyFree(init) && CrFree(init);
      NoteAfterLayout(date, init);
      var head := Unlines(TemplateHead(date));
      var rest := Unlines(NewestFirst(init));
      LayoutCrFree(date, init);
      TranslateNewlinesPlain(NoteAfter(date, init));
      HeadInert(date);
      NewestFirstElements(init);
      UnlinesFree(NewestFirst(init), MarkerKey);
      SpliceNewestFirst(head, rest, line);
      assert NewestFirst(ls)[0] == line && NewestFirst(ls)[1..] == NewestFirst(init);
      assert Unlines(NewestFirst(ls)) == line + "\n" + rest;
    } else {
      TemplateShape(date);
      assert Unlines([]) == "";
    }
  }

  /** The first append to a fresh note puts the line directly after the marker, whatever the line holds. */
  lemma FirstAppend(date: string, line: string)
    requires PlainDate(date)
    ensures Splice(Template(date), line) == Template(date) + line + "\n"
  {
    TemplateShape(date);
    HeadInert(date);
    SpliceAtEnd(Unlines(TemplateHead(date)), line);
  }

  /** A text ending in its only marker gets the line appended at its end. */
  lemma SpliceAtEnd(pre: string, line: string)
    requires MarkerKey !in pre
    ensures Splice(pre + Marker, line) == pre + Marker + line + "\n"
  {
    SpliceNewestFirst(pre, "", line);
    assert pre + Marker + "" == pre + Marker;
    assert line + "\n" + "" == line + "\n";
  }

  /**
   * After the first append the note holds one more line, which is not
   * counted when the formatted line holds no line break: the next number
   * is still 1.
   */
  lemma FirstAppendUncounted(date: string, m: DiscordMessage)
    requires PlainDate(date) && '\n' !in Formatted(m) && '\r' !in Formatted(m)
    ensures '\r' !in Splice(Template(date), Formatted(m))
    ensures CountNumbered(Lines(TranslateNewlines(Splice(Template(date), Formatted(m))))) == 0
  {
    var line := Formatted(m);
    var all := TemplateHead(date) + MarkerLines;
    FirstAppend(date, line);
    HeadInert(date);
    MarkerFacts();
    MarkerLinesPlain();
    InertConcat(TemplateHead(date), MarkerLines);
    CrFreeConcat(TemplateHead(date), MarkerLines);
    FormattedUnnumbered(m);
    LineAfterInertUncounted(all, line);
  }

  /** An uncounted line after inert lines leaves the text without a counted line. */
  lemma LineAfterInertUncounted(ls: seq<string>, line: string)
    requires Inert(ls) && CrFree(ls) && '\n' !in line && '\r' !in line && !IsNumbered(line)
    ensures '\r' !in Unlines(ls) + line + "\n"
    ensures CountNumbered(Lines(TranslateNewlines(Unlines(ls) + line + "\n"))) == 0
  {
    var all := ls + [line];
    UnlinesSnoc(ls, line);
    assert Inert([line]) && CrFree([line]);
    InertConcat(ls, [line]);
    CrFreeConcat(ls, [line]);
    InertCrFreeUncounted(all);
  }

  /** Inert lines without carriage returns are read back with no counted line. */
  lemma InertCrFreeUncounted(ls: seq<string>)
    requires Inert(ls) && CrFree(ls)
    ensures '\r' !in Unlines(ls)
    ensures CountNumbered(Lines(TranslateNewlines(Unlines(ls)))) == 0
  {
    UnlinesFree(ls, '\r');
    TranslateNewlinesPlain(Unlines(ls));
    InertLinesCount(ls);
  }

  /** Lines without a newline, as `Breakless` needs them. */
  lemma InertBreakless(ls: seq<string>)
    requires Inert(ls)
    ensures Breakless(ls)
  {
    forall i | 0 <= i < |ls|
      ensures '\n' !in ls[i]
    {
    }
  }

  /** The marker is its heading line, a newline, then the lines after it joined. */
  lemma MarkerRun()
    ensures Marker == MarkerLines[0] + "\n" + Unlines(MarkerLines[1..])
    ensures '\n' !in MarkerLines[0] && |MarkerLines[0]| > 0 && Breakless(MarkerLines[1..])
  {
    MarkerFacts();
    var bs := MarkerLines[1..];
    forall i | 0 <= i < |bs|
      ensures '\n' !in bs[i]
    {
      assert bs[i] == MarkerLines[i + 1];
    }
  }

  /**
   * Splicing a plain line into a note made of inert, CR-free lines gives
   * a note made of such lines again: the line is inserted after every
   * marker run, or added after an empty line at the end.
   */
  lemma SpliceLines(prev: seq<string>, line: string) returns (ns: seq<string>)
    requires Inert(prev) && CrFree(prev)
    requires '\n' !in line && '\r' !in line && !IsNumbered(line)
    ensures Splice(Unlines(prev), line) == Unlines(ns)
    ensures Inert(ns) && CrFree(ns)
  {
    if Contains(Unlines(prev), Marker) {
      ns := SpliceAtMarker(prev, line);
    } else {
      ns := SpliceUnmarked(prev, line);
    }
  }

  /** Without the marker, the line goes at the end after an empty line. */
  lemma SpliceUnmarked(prev: seq<string>, line: string) returns (ns: seq<string>)
    requires Inert(prev) && CrFree(prev)
    requires '\n' !in line && '\r' !in line && !IsNumbered(line)
    ensures Unlines(prev) + "\n" + line + "\n" == Unlines(ns)
    ensures Inert(ns) && CrFree(ns)
  {
    ns := prev + [""] + [line];
    UnlinesSnoc(prev, "");
    UnlinesSnoc(prev + [""], line);
    EmptyLineInert();
    InertConcat(prev, [""]);
    InertConcat(prev + [""], [line]);
    CrFreeConcat(prev, [""]);
    CrFreeConcat(prev + [""], [line]);
  }

  /** An empty line is never counted. */
  lemma EmptyLineInert()
    ensures Inert([""]) && CrFree([""])
  {
    assert !Contains("", "**");
  }

  /** With the marker present, the line goes in after every marker run. */
  lemma SpliceAtMarker(prev: seq<string>, line: string) returns (ns: seq<string>)
    requires Inert(prev) && CrFree(prev)
    requires '\n' !in line && '\r' !in line && !IsNumbered(line)
    ensures ReplaceAll(Unlines(prev), Marker, Marker + line + "\n") == Unlines(ns)
    ensures Inert(ns) && CrFree(ns)
  {
    var a := MarkerLines[0];
    var bs := MarkerLines[1..];
    MarkerRun();
    InertBreakless(prev);
    ReplaceRunsInLines(prev, a, bs, line);
    ns := InsertAfterRuns(prev, a, bs, line);
    InsertAfterRunsElements(prev, a, bs, line);
    forall k | 0 <= k < |ns|
      ensures '\n' !in ns[k] && !IsNumbered(ns[k]) && '\r' !in ns[k]
    {
      if ns[k] != line {
        var j :| 0 <= j < |prev| && prev[j] == ns[k];
      }
    }
  }

  /** After any number of appends of inert, CR-free lines the note is made of such lines. */
  lemma {:induction false} NoteAfterLines(date: string, ls: seq<string>) returns (ns: seq<string>)
    requires PlainDate(date) && Inert(ls) && CrFree(ls)
    ensures NoteAfter(date, ls) == Unlines(ns)
    ensures Inert(ns) && CrFree(ns)
    decreases |ls|
  {
    if |ls| == 0 {
      HeadInert(date);
      MarkerFacts();
      MarkerLinesPlain();
      ns := TemplateHead(date) + MarkerLines;
      InertConcat(TemplateHead(date), MarkerLines);
      CrFreeConcat(TemplateHead(date), MarkerLines);
    } else {
      var init := ls[..|ls| - 1];
      var line := ls[|ls| - 1];
      assert Inert(init) && CrFree(init) by {
        forall i | 0 <= i < |init|
          ensures '\n' !in init[i] && !IsNumbered(init[i]) && '\r' !in init[i]
        {
          assert init[i] == ls[i];
        }
      }
      var prev := NoteAfterLines(date, init);
      UnlinesFree(prev, '\r');
      TranslateNewlinesPlain(Unlines(prev));
      ns := SpliceLines(prev, line);
    }
  }

  /**
   * However many messages are appended, no line of the note is counted
   * as long as their formatted lines hold no line break: the next number
   * of such a note is always 1.
   */
  lemma NumberNeverAdvances(date: string, ms: seq<DiscordMessage>, ls: seq<string>)
    requires PlainDate(date) && |ls| == |ms|
    requires forall i :: 0 <= i < |ls| ==> ls[i] == Formatted(ms[i]) && '\n' !in ls[i] && '\r' !in ls[i]
    ensures '\r' !in NoteAfter(date, ls)
    ensures CountNumbered(Lines(TranslateNewlines(NoteAfter(date, ls)))) == 0
  {
    assert Inert(ls) && CrFree(ls) by {
      forall i | 0 <= i < |ls|
        ensures !IsNumbered(ls[i])
      {
        FormattedUnnumbered(ms[i]);
      }
    }
    var ns := NoteAfterLines(date, ls);
    InertCrFreeUncounted(ns);
  }


  /** The vault: the note files by path. */
  class Vault {
    const root: string
    var files: map<string, string>

    constructor (root: string, files: map<string, string>)
      ensures this.root == root && this.files == files
    {
      this.root := root;
      this.files := files;
    }

    /**
     * `get_next_message_number`: 1 for a missing or unreadable file,
     * otherwise one more than the number of counted lines. The file is
     * read in text mode, so `\r\n` and `\r` end lines as `\n` does.
     */
    method NextMessageNumber(path: string, readOk: bool) returns (n: nat)
      ensures path !in files || !readOk ==> n == 1
      ensures path in files && readOk ==> n == CountNumbered(Lines(TranslateNewlines(files[path]))) + 1
    {
      if path !in files {
        return 1;
      }
      if !readOk {
        return 1;
      }
      var lines := Lines(TranslateNewlines(files[path]));
      var maxNumber := 0;
      for i := 0 to |lines|
        invariant maxNumber == CountNumbered(lines[..i])
      {
        assert lines[..i + 1][..i] == lines[..i];
        if StartsWith(Strip(lines[i]), "- **") && Contains(lines[i], "**") {
          maxNumber := maxNumber + 1;
        }
      }
      assert lines[..|lines|] == lines;
      n := maxNumber + 1;
    }

    /**
     * `append_to_daily_note`: a missing note is created from the template,
     * then read in text mode (newlines translated), spliced and written
     * back. A failing step ends the operation; what was written before it
     * stays.
     */
    method AppendToDailyNote(m: DiscordMessage, mkdirOk: bool, createOk: bool, readOk: bool, writeOk: bool)
      modifies this
      ensures var path := DailyNotePath(root, m.date, mkdirOk);
        var raw := if path in old(files) then old(files)[path] else Template(m.date);
        files == if path !in old(files) && !createOk then old(files)
                 else if !readOk || !writeOk then old(files)[path := raw]
                 else old(files)[path := Splice(TranslateNewlines(raw), Formatted(m))]
    {
      var path := DailyNotePath(root, m.date, mkdirOk);
      ghost var raw := if path in files then files[path] else Template(m.date);
      var number := NextMessageNumber(path, readOk);
      var line := FormatDiscordMessage(m, number);
      if path !in files {
        if !createOk {
          return;
        }
        files := files[path := Template(m.date)];
      }
      assert files == old(files)[path := raw];
      if !readOk {
        return;
      }
      var read := TranslateNewlines(files[path]);
      var content;
      if Contains(read, Marker) {
        content := ReplaceAll(read, Marker, Marker + line + "\n");
      } else {
        content := read + "\n" + line + "\n";
      }
      assert content == Splice(TranslateNewlines(raw), Formatted(m));
      if !writeOk {
        return;
      }
      files := files[path := content];
    }
  }

  /**
   * The vault at work: the first message of a day creates the note with
   * the line under the marker, and the number the next message gets is
   * still 1 when the line holds no line break.
   */
  method FirstMessageOfTheDay(v: Vault, m: DiscordMessage) returns (next: nat)
    requires PlainDate(m.date)
    requires DailyNotePath(v.root, m.date, true) !in v.files
    modifies v
    ensures v.files == old(v.files)[DailyNotePath(v.root, m.date, true) := Template(m.date) + Formatted(m) + "\n"]
    ensures '\n' !in Formatted(m) && '\r' !in Formatted(m) ==> next == 1
  {
    var path := DailyNotePath(v.root, m.date, true);
    var note := Template(m.date) + Formatted(m) + "\n";
    TemplateCrFree(m.date);
    FirstAppend(m.date, Formatted(m));
    v.AppendToDailyNote(m, true, true, true, true);
    assert v.files[path] == note;
    next := v.NextMessageNumber(path, true);
    if '\n' !in Formatted(m) && '\r' !in Formatted(m) {
      FirstAppendUncounted(m.date, m);
      assert CountNumbered(Lines(TranslateNewlines(note))) == 0;
    }
  }

  /** The formatted lines of messages, in order. */
  function FormattedLines(ms: seq<DiscordMessage>): (ls: seq<string>)
    ensures |ls| == |ms| && forall i :: 0 <= i < |ms| ==> ls[i] == Formatted(ms[i])
    decreases |ms|
  {
    if |ms| == 0 then [] else FormattedLines(ms[..|ms| - 1]) + [Formatted(ms[|ms| - 1])]
  }

  lemma FormattedLinesSnoc(ms: seq<DiscordMessage>, i: nat)
    requires i < |ms|
    ensures FormattedLines(ms[..i + 1]) == FormattedLines(ms[..i]) + [Formatted(ms[i])]
  {
    assert ms[..i + 1][..i] == ms[..i];
  }

  /** One more append splices the next line into the note as read back. */
  lemma NoteAfterSnoc(date: string, ls: seq<string>, line: string)
    ensures NoteAfter(date, ls + [line]) == Splice(TranslateNewlines(NoteAfter(date, ls)), line)
  {
    assert (ls + [line])[..|ls|] == ls;
  }

  /**
   * One more message of the day appended to a note that holds `NoteAfter`
   * of the earlier lines, or to a missing note when there were none.
   */
  method AppendNext(v: Vault, ghost start: map<string, string>, date: string, ghost before: seq<string>, m: DiscordMessage)
    requires m.date == date && PlainDate(date)
    requires DailyNotePath(v.root, date, true) !in start
    requires v.files == if |before| == 0 then start
      else start[DailyNotePath(v.root, date, true) := NoteAfter(date, before)]
    modifies v
    ensures v.files == start[DailyNotePath(v.root, date, true) := NoteAfter(date, before + [Formatted(m)])]
  {
    NoteAfterSnoc(date, before, Formatted(m));
    assert |before| == 0 ==> NoteAfter(date, before) == Template(date);
    v.AppendToDailyNote(m, true, true, true, true);
  }

  /** Lines without a line break or a carriage return. */
  predicate Unbroken(ls: seq<string>) {
    forall i :: 0 <= i < |ls| ==> '\n' !in ls[i] && '\r' !in ls[i]
  }

  /** Messages whose formatted lines are unbroken leave no counted line. */
  lemma DayUncounted(date: string, ms: seq<DiscordMessage>)
    requires PlainDate(date) && Unbroken(FormattedLines(ms))
    ensures CountNumbered(Lines(TranslateNewlines(NoteAfter(date, FormattedLines(ms))))) == 0
  {
    NumberNeverAdvances(date, ms, FormattedLines(ms));
  }

  /**
   * Messages of one date appended one after the other to a missing note
   * leave exactly `NoteAfter` of their formatted lines: the earlier ones
   * first, then the last.
   */
  method AppendDay(v: Vault, date: string, ms: seq<DiscordMessage>)
    requires PlainDate(date)
    requires forall i :: 0 <= i < |ms| ==> ms[i].date == date
    requires DailyNotePath(v.root, date, true) !in v.files
    modifies v
    ensures v.files == if |ms| == 0 then old(v.files)
      else old(v.files)[DailyNotePath(v.root, date, true) := NoteAfter(date, FormattedLines(ms))]
    decreases |ms|
  {
    if |ms| > 0 {
      var n := |ms| - 1;
      ghost var start := v.files;
      AppendDay(v, date, ms[..n]);
      FormattedLinesSnoc(ms, n);
      assert ms[..n + 1] == ms;
      AppendNext(v, start, date, FormattedLines(ms[..n]), ms[n]);
    }
  }

  /**
   * The vault over a day: after the messages of a date are appended to a
   * missing note, the next number is still 1 when their lines are unbroken.
   */
  method MessagesOfTheDay(v: Vault, date: string, ms: seq<DiscordMessage>) returns (next: nat)
    requires PlainDate(date)
    requires forall i :: 0 <= i < |ms| ==> ms[i].date == date
    requires DailyNotePath(v.root, date, true) !in v.files
    modifies v
    ensures v.files == if |ms| == 0 then old(v.files)
      else old(v.files)[DailyNotePath(v.root, date, true) := NoteAfter(date, FormattedLines(ms))]
    ensures Unbroken(FormattedLines(ms)) ==> next == 1
  {
    AppendDay(v, date, ms);
    next := v.NextMessageNumber(DailyNotePath(v.root, date, true), true);
    if Unbroken(FormattedLines(ms)) && |ms| > 0 {
      DayUncounted(date, ms);
    }
  }

  // ---------------------------------------------------------------------
  // list_notes
  // ---------------------------------------------------------------------

  /** A listed note: file name, size in bytes and sort key. */
  datatype NoteEntry = NoteEntry(name: string, size: nat, key: string)

  datatype NoteListing =
    | ListWrongGuild
    | NoNotes
    | Notes(total: nat, recent: seq<NoteEntry>)
      /** The size or creation time of a walked note file could not be read. */
    | ListError

  const ListLimit := 5

  /** Only Markdown files other than `README.md` are notes. */
  predicate IsNoteFile(name: string) {
    EndsWith(name, ".md") && name != "README.md"
  }

  /** The sort key: the name without `.md` if that has exactly two dashes, else `unknown`. */
  function NoteKey(name: string): string {
    var stem := ReplaceAll(name, ".md", "");
    if CountChar(stem, '-') == 2 then stem else "unknown"
  }

  function EntryKey(e: NoteEntry): string { e.key }

  /** The entries of the walked files, in walk order. */
  function NoteEntries(walk: seq<(string, nat)>): seq<NoteEntry>
    decreases |walk|
  {
    if |walk| == 0 then []
    else
      var f := walk[|walk| - 1];
      NoteEntries(walk[..|walk| - 1]) + (if IsNoteFile(f.0) then [NoteEntry(f.0, f.1, NoteKey(f.0))] else [])
  }

  function FirstN<T>(s: seq<T>, n: nat): seq<T> {
    if |s| <= n then s else s[..n]
  }

  /** Some walked note file, the only files examined, could not be examined. */
  predicate StatFailed(walk: seq<(string, nat)>, statOk: seq<bool>)
    requires |statOk| == |walk|
  {
    exists i :: 0 <= i < |walk| && IsNoteFile(walk[i].0) && !statOk[i]
  }

  /**
   * The decision logic of `list_notes` over the walked files (name and
   * size, in walk order): the total and the five entries with the
   * greatest keys, greatest first. `statOk[i]` says whether the size and
   * creation time of the i-th walked file could be read; a failure on a
   * note file ends the listing with the error reply. Ensuring the vault
   * directory catches its own errors, so a vault that could not be made
   * is simply a walk that finds nothing.
   */
  method ListNotes(guildId: int, walk: seq<(string, nat)>, statOk: seq<bool>) returns (listing: NoteListing)
    requires |statOk| == |walk|
    ensures guildId != AllowedGuildId ==> listing == ListWrongGuild
    ensures guildId == AllowedGuildId && StatFailed(walk, statOk) ==> listing == ListError
    ensures guildId == AllowedGuildId && !StatFailed(walk, statOk) && NoteEntries(walk) == [] ==>
      listing == NoNotes
    ensures guildId == AllowedGuildId && !StatFailed(walk, statOk) && NoteEntries(walk) != [] ==>
      listing == Notes(|NoteEntries(walk)|, FirstN(SortDesc(NoteEntries(walk), EntryKey), ListLimit))
  {
    if guildId != AllowedGuildId {
      return ListWrongGuild;
    }
    var noteFiles: seq<NoteEntry> := [];
    for i := 0 to |walk|
      invariant noteFiles == NoteEntries(walk[..i])
      invariant forall j :: 0 <= j < i && IsNoteFile(walk[j].0) ==> statOk[j]
    {
      assert walk[..i + 1][..i] == walk[..i];
      var (name, size) := walk[i];
      if EndsWith(name, ".md") && name != "README.md" {
        if !statOk[i] {
          assert IsNoteFile(walk[i].0);
          return ListError;
        }
        noteFiles := noteFiles + [NoteEntry(name, size, NoteKey(name))];
      }
    }
    assert walk[..|walk|] == walk;
    if |noteFiles| == 0 {
      return NoNotes;
    }
    var sorted := SortDesc(noteFiles, EntryKey);
    listing := Notes(|noteFiles|, FirstN(sorted, ListLimit));
  }

  /** Exactly the note files of the walk are entries, each with its key. */
  lemma {:induction false} NoteEntriesExact(walk: seq<(string, nat)>, e: NoteEntry)
    ensures e in NoteEntries(walk) <==>
      exists i :: 0 <= i < |walk| && walk[i] == (e.name, e.size) && IsNoteFile(e.name) && e.key == NoteKey(e.name)
    decreases |walk|
  {
    if |walk| > 0 {
      var init := walk[..|walk| - 1];
      NoteEntriesExact(init, e);
      if e in NoteEntries(init) {
        var i :| 0 <= i < |init| && init[i] == (e.name, e.size) && IsNoteFile(e.name) && e.key == NoteKey(e.name);
        assert walk[i] == init[i];
      }
      if exists i :: 0 <= i < |walk| && walk[i] == (e.name, e.size) && IsNoteFile(e.name) && e.key == NoteKey(e.name) {
        var i :| 0 <= i < |walk| && walk[i] == (e.name, e.size) && IsNoteFile(e.name) && e.key == NoteKey(e.name);
        if i < |init| {
          assert init[i] == walk[i];
        }
      }
    }
  }

  /**
   * The entries follow the walk: those of two stretches of the walk, one
   * after the other, are the entries of the whole, each file giving one
   * entry if it is a note and none otherwise.
   */
  lemma {:induction false} NoteEntriesConcat(a: seq<(string, nat)>, b: seq<(string, nat)>)
    ensures NoteEntries(a + b) == NoteEntries(a) + NoteEntries(b)
    decreases |b|
  {
    if |b| == 0 {
      assert a + b == a;
    } else {
      var init := b[..|b| - 1];
      NoteEntriesConcat(a, init);
      assert (a + b)[..|a + b| - 1] == a + init;
      assert (a + b)[|a + b| - 1] == b[|b| - 1];
    }
  }

  /**
   * The shown entries are at most five, in descending key order, taken
   * from the notes, and no note left out has a greater key than one shown.
   */
  lemma RecentNotesAreNewest(entries: seq<NoteEntry>)
    ensures var recent := FirstN(SortDesc(entries, EntryKey), ListLimit);
      && |recent| == (if |entries| < ListLimit then |entries| else ListLimit)
      && SortedDesc(recent, EntryKey)
      && multiset(recent) <= multiset(entries)
      && forall e, r :: e in multiset(entries) - multiset(recent) && r in recent ==> StrLe(e.key, r.key)
  {
    var sorted := SortDesc(entries, EntryKey);
    SortDescCorrect(entries, EntryKey);
    assert |sorted| == |entries| by {
      assert |multiset(sorted)| == |multiset(entries)|;
    }
    var recent := FirstN(sorted, ListLimit);
    var rest := sorted[|recent|..];
    assert sorted == recent + rest;
    assert recent == sorted[..|recent|];
    SplitDominates(sorted, |recent|, EntryKey);
    assert multiset(entries) - multiset(recent) == multiset(rest);
  }

  /** A note named after its date is keyed by that date. */
  lemma DateNoteKey(y: string, m: string, d: string)
    requires DigitsOnly(y) && DigitsOnly(m) && DigitsOnly(d)
    ensures NoteKey(y + "-" + m + "-" + d + ".md") == y + "-" + m + "-" + d
  {
    var date := y + "-" + m + "-" + d;
    DigitsAreSegment(y);
    DigitsAreSegment(m);
    DigitsAreSegment(d);
    assert '.' !in date;
    ReplaceSoleOccurrence(date, ".md", "", 0, "");
    assert date + ".md" + "" == date + ".md" && date + "" + "" == date;
    CountCharConcat(y + "-" + m + "-", d, '-');
    CountCharConcat(y + "-" + m, "-", '-');
    CountCharConcat(y + "-", m, '-');
    CountCharConcat(y, "-", '-');
    CountCharAbsent(y, '-');
    CountCharAbsent(m, '-');
    CountCharAbsent(d, '-');
  }
}
