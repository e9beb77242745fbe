/**
 * The news bot of `news_bot.py`: three scheduled broadcasts whose texts are
 * kept in a three-slot store, the rule that picks one of them to resend by
 * the hour, the keyword/echo dispatch of incoming messages, the
 * next-broadcast countdown of `/news_status`, and the thumbs-up preview.
 * Sends are the values the operations return; the clock is an input.
 */
module NewsBot {
  import opened Wrappers
  import opened Strings

  const AllowedGuildId := 1397720381149806723
  const GreetingChannelId := 1398171685613469746
  const EchoChannelId := 1397720382236135446

  // ---------------------------------------------------------------------
  // fetch_nhk_news, fetch_yahoo_news, fetch_google_news
  // ---------------------------------------------------------------------

  /** A child element of an RSS item: missing, present without text, or with text. */
  datatype Element = Missing | NoText | Text(text: string)

  datatype FeedItem = FeedItem(title: Element, link: Element)

  /** What the request and the XML parse gave: an exception, or a response with its status and items. */
  datatype FetchOutcome = Raised | Response(status: int, items: seq<FeedItem>)

  datatype Source = Nhk | Yahoo | Google

  const MaxItems := 3

  /** The one line a fetcher returns when anything in it raises. */
  function FailureText(source: Source): string {
    match source
    case Nhk => "ニュースの取得に失敗しました"
    case Yahoo => "Yahoo!ニュースの取得に失敗しました"
    case Google => "Google Newsの取得に失敗しました"
  }

  /** The title shown: the default for a missing element, and Python's `None` for an empty one. */
  function TitleText(e: Element): string {
    match e
    case Missing => "タイトル不明"
    case NoText => "None"
    case Text(t) => t
  }

  function LinkText(e: Element): string {
    match e
    case Missing => ""
    case NoText => "None"
    case Text(t) => t
  }

  /** A news line: the title as a Markdown link whose target is in angle brackets, so no preview is shown. */
  function ItemLine(item: FeedItem): string {
    "・[" + TitleText(item.title) + "](<" + LinkText(item.link) + ">)"
  }

  /**
   * What a fetcher returns: the lines of the first three items on status
   * 200, `None` on any other status (the code falls out of its `if`), and
   * the one-line failure list when something raises.
   */
  function Fetched(source: Source, outcome: FetchOutcome): (r: Option<seq<string>>)
    ensures outcome.Raised? ==> r == Some([FailureText(source)])
    ensures outcome.Response? && outcome.status != 200 ==> r == None
    ensures outcome.Response? && outcome.status == 200 ==>
      && r.Some?
      && |r.value| <= MaxItems && |r.value| <= |outcome.items|
      && (|r.value| < MaxItems ==> |r.value| == |outcome.items|)
      && forall i :: 0 <= i < |r.value| ==> r.value[i] == ItemLine(outcome.items[i])
  {
    match outcome
    case Raised => Some([FailureText(source)])
    case Response(status, items) =>
      if status != 200 then None
      else Some(seq(if |items| < MaxItems then |items| else MaxItems, i requires 0 <= i < |items| => ItemLine(items[i])))
  }

  /** The loop of the fetchers over the first three items. */
  method FetchNews(source: Source, outcome: FetchOutcome) returns (news: Option<seq<string>>)
    ensures news == Fetched(source, outcome)
  {
    match outcome
    case Raised =>
      return Some([FailureText(source)]);
    case Response(status, items) =>
      if status != 200 {
        return None;
      }
      var first := if |items| <= MaxItems then items else items[..MaxItems];
      var lines: seq<string> := [];
      for i := 0 to |first|
        invariant |lines| == i
        invariant forall j :: 0 <= j < i ==> lines[j] == ItemLine(first[j])
      {
        lines := lines + [ItemLine(first[i])];
      }
      assert lines == Fetched(source, outcome).value;
      return Some(lines);
  }

  /** Reads a news line back into its title and link. */
  function ParseItem(line: string): Option<(string, string)> {
    if |line| >= 4 && StartsWith(line, "・[") && EndsWith(line, ">)") then
      var parts := SplitOn(line[2..|line| - 2], "](<");
      if |parts| == 2 then Some((parts[0], parts[1])) else None
    else None
  }

  /** The title and link of a news line can be read back when neither holds a `<`. */
  lemma ItemLineRoundTrip(item: FeedItem)
    requires '<' !in TitleText(item.title) && '<' !in LinkText(item.link)
    ensures ParseItem(ItemLine(item)) == Some((TitleText(item.title), LinkText(item.link)))
  {
    var title := TitleText(item.title);
    var link := LinkText(item.link);
    var line := ItemLine(item);
    var sep := "](<";
    assert line == "・[" + (title + sep + link) + ">)";
    assert line[..2] == "・[" && line[|line| - 2..] == ">)";
    assert line[2..|line| - 2] == title + sep + link;
    assert sep[..2] == "](";
    SplitOnSole(title, sep, link, 2);
    SplitOnAbsent(link, sep, 2);
  }

  // ---------------------------------------------------------------------
  // latest_news and the three scheduled tasks
  // ---------------------------------------------------------------------

  datatype Slot = Morning | Lunch | Evening

  /** The contents of `latest_news`: the last text broadcast in each slot, if any. */
  datatype Latest = Latest(morning: Option<string>, lunch: Option<string>, evening: Option<string>)
  {
    function Get(slot: Slot): Option<string> {
      match slot
      case Morning => morning
      case Lunch => lunch
      case Evening => evening
    }

    /** The store with one slot overwritten. */
    function Set(slot: Slot, text: string): (r: Latest)
      ensures r.Get(slot) == Some(text)
      ensures forall other :: other != slot ==> r.Get(other) == Get(other)
    {
      match slot
      case Morning => this.(morning := Some(text))
      case Lunch => this.(lunch := Some(text))
      case Evening => this.(evening := Some(text))
    }
  }

  /** The source each task fetches from. */
  function SourceOf(slot: Slot): Source {
    match slot
    case Morning => Nhk
    case Lunch => Yahoo
    case Evening => Google
  }

  /** The JST hour each task runs at. */
  function BroadcastHour(slot: Slot): int {
    match slot
    case Morning => 6
    case Lunch => 12
    case Evening => 18
  }

  function Greeting(slot: Slot): string {
    match slot
    case Morning => "🌅 おはようございます！今日の主要ニュースをお届けします\n\n"
    case Lunch => "🍽️ お昼のニュースをお届けします\n\n"
    case Evening => "🌇 夕方のニュースをお届けします\n\n"
  }

  /** The message a task posts: its greeting and the news lines separated by blank lines. */
  function Broadcast(slot: Slot, news: seq<string>): string {
    Greeting(slot) + Join(news, "\n\n")
  }

  class NewsStore {
    var latest: Latest

    constructor()
      ensures latest == Latest(None, None, None)
    {
      latest := Latest(None, None, None);
    }

    /**
     * One run of a scheduled task. Without the channel nothing happens; a
     * fetch that gives `None` makes the join raise and a failed send raises
     * too, so in both cases nothing is sent and the slot keeps its text.
     * Otherwise the sent message, and only it, goes into the task's slot.
     */
    method RunTask(slot: Slot, channelFound: bool, outcome: FetchOutcome, sendOk: bool)
      returns (sent: Option<string>)
      modifies this
      ensures var news := Fetched(SourceOf(slot), outcome);
        if channelFound && news.Some? && sendOk then
          sent == Some(Broadcast(slot, news.value)) && latest == old(latest).Set(slot, sent.value)
        else
          sent == None && latest == old(latest)
    {
      sent := None;
      if channelFound {
        var news := FetchNews(SourceOf(slot), outcome);
        if news.Some? && sendOk {
          var message := Greeting(slot) + Join(news.value, "\n\n");
          sent := Some(message);
          latest := latest.Set(slot, message);
        }
      }
    }
  }

  // ---------------------------------------------------------------------
  // send_latest_news
  // ---------------------------------------------------------------------

  const NoNewsText := "📰 まだニュースが配信されていません。しばらくお待ちください。"
  const ResendFailureText := "❌ ニュースの取得に失敗しました。"

  /** Python's truth value of a slot: set and not empty. */
  predicate Truthy(o: Option<string>) {
    o.Some? && o.value != ""
  }

  /** The message `send_latest_news` sends at a JST hour, branch by branch as written. */
  function ResendMessage(hour: int, latest: Latest): string {
    if 6 <= hour < 12 then
      if Truthy(latest.morning) then "📰 **最新の朝ニュース**\n" + latest.morning.value
      else if Truthy(latest.evening) then "📰 **昨夜のニュース**\n" + latest.evening.value
      else if Truthy(latest.lunch) then "📰 **昨日のお昼ニュース**\n" + latest.lunch.value
      else NoNewsText
    else if 12 <= hour < 18 then
      if Truthy(latest.lunch) then "📰 **最新のお昼ニュース**\n" + latest.lunch.value
      else if Truthy(latest.morning) then "📰 **今朝のニュース**\n" + latest.morning.value
      else if Truthy(latest.evening) then "📰 **昨夜のニュース**\n" + latest.evening.value
      else NoNewsText
    else
      if Truthy(latest.evening) then "📰 **最新の夕方ニュース**\n" + latest.evening.value
      else if Truthy(latest.lunch) then "📰 **今日のお昼ニュース**\n" + latest.lunch.value
      else if Truthy(latest.morning) then "📰 **今朝のニュース**\n" + latest.morning.value
      else NoNewsText
  }

  /** The order in which the slots are tried at an hour. */
  function Priority(hour: int): seq<Slot> {
    if 6 <= hour < 12 then [Morning, Evening, Lunch]
    else if 12 <= hour < 18 then [Lunch, Morning, Evening]
    else [Evening, Lunch, Morning]
  }

  /** The heading a slot's text is resent under at an hour. */
  function Heading(hour: int, slot: Slot): string {
    match slot
    case Morning => if 6 <= hour < 12 then "📰 **最新の朝ニュース**\n" else "📰 **今朝のニュース**\n"
    case Lunch =>
      if 6 <= hour < 12 then "📰 **昨日のお昼ニュース**\n"
      else if 12 <= hour < 18 then "📰 **最新のお昼ニュース**\n"
      else "📰 **今日のお昼ニュース**\n"
    case Evening => if 18 <= hour || hour < 6 then "📰 **最新の夕方ニュース**\n" else "📰 **昨夜のニュース**\n"
  }

  /** The first slot in the order that holds news. */
  function FirstSet(order: seq<Slot>, latest: Latest): (r: Option<Slot>)
    ensures r.Some? ==> r.value in order && Truthy(latest.Get(r.value))
    ensures r.None? <==> forall s :: s in order ==> !Truthy(latest.Get(s))
    decreases |order|
  {
    if |order| == 0 then None
    else if Truthy(latest.Get(order[0])) then Some(order[0])
    else FirstSet(order[1..], latest)
  }

  /** Every hour tries all three slots, each once. */
  lemma PriorityCoversSlots(hour: int)
    ensures |Priority(hour)| == 3
    ensures forall s: Slot :: s in Priority(hour)
    ensures Priority(hour)[0] != Priority(hour)[1] && Priority(hour)[1] != Priority(hour)[2]
      && Priority(hour)[0] != Priority(hour)[2]
  {
    forall s: Slot
      ensures s in Priority(hour)
    {
      assert Priority(hour)[0] == s || Priority(hour)[1] == s || Priority(hour)[2] == s;
    }
  }

  /** Every heading opens with the newspaper sign and bold markup. */
  lemma HeadingBold(hour: int, slot: Slot)
    ensures |Heading(hour, slot)| > 2 && Heading(hour, slot)[2] == '*'
  {
  }

  /**
   * The resend rule is a priority list: the first slot in the hour's order
   * that holds news is sent under its heading, and the waiting notice only
   * when no slot does.
   */
  lemma ResendByPriority(hour: int, latest: Latest)
    ensures var first := FirstSet(Priority(hour), latest);
      ResendMessage(hour, latest) ==
        if first.None? then NoNewsText else Heading(hour, first.value) + latest.Get(first.value).value
  {
    var p := Priority(hour);
    assert p[1..] == [p[1], p[2]] && p[1..][1..] == [p[2]] && p[1..][1..][1..] == [];
    var f2 := FirstSet([p[2]], latest);
    assert f2 == if Truthy(latest.Get(p[2])) then Some(p[2]) else None;
    var f1 := FirstSet([p[1], p[2]], latest);
    assert f1 == if Truthy(latest.Get(p[1])) then Some(p[1]) else f2;
    assert FirstSet(p, latest) == if Truthy(latest.Get(p[0])) then Some(p[0]) else f1;
  }

  /**
   * `send_latest_news` at a JST hour read from the clock: the first slot of
   * the hour's order that holds news goes out under its heading, the
   * waiting notice when none does, and the failure notice when that send
   * raised.
   */
  function SendLatestNews(hour: int, latest: Latest, sendOk: bool): (r: string)
    ensures !sendOk ==> r == ResendFailureText
    ensures sendOk ==> var first := FirstSet(Priority(hour), latest);
      r == if first.None? then NoNewsText else Heading(hour, first.value) + latest.Get(first.value).value
  {
    if sendOk then
      ResendByPriority(hour, latest);
      ResendMessage(hour, latest)
    else ResendFailureText
  }

  /** The waiting notice is sent exactly when no slot holds news. */
  lemma ResendNoNews(hour: int, latest: Latest)
    ensures ResendMessage(hour, latest) == NoNewsText <==>
      !Truthy(latest.morning) && !Truthy(latest.lunch) && !Truthy(latest.evening)
  {
    ResendByPriority(hour, latest);
    PriorityCoversSlots(hour);
    var first := FirstSet(Priority(hour), latest);
    if first.Some? {
      var h := Heading(hour, first.value);
      HeadingBold(hour, first.value);
      assert (h + latest.Get(first.value).value)[2] == h[2];
      assert NoNewsText[2] == 'ま';
    }
  }

  /** The slot of the hour's own broadcast wins whenever it holds news. */
  lemma ResendPrefersCurrentSlot(hour: int, latest: Latest)
    requires 0 <= hour < 24
    ensures var own := if 6 <= hour < 12 then Morning else if 12 <= hour < 18 then Lunch else Evening;
      Truthy(latest.Get(own)) ==> ResendMessage(hour, latest) == Heading(hour, own) + latest.Get(own).value
  {
    ResendByPriority(hour, latest);
  }

  /** Right after a task broadcasts, a resend at its hour sends that broadcast under the newest heading. */
  lemma ResendAfterBroadcast(before: Latest, slot: Slot, news: seq<string>)
    ensures var message := Broadcast(slot, news);
      ResendMessage(BroadcastHour(slot), before.Set(slot, message)) == Heading(BroadcastHour(slot), slot) + message
  {
    var message := Broadcast(slot, news);
    assert message[0] == Greeting(slot)[0];
    ResendPrefersCurrentSlot(BroadcastHour(slot), before.Set(slot, message));
  }

  // ---------------------------------------------------------------------
  // on_message
  // ---------------------------------------------------------------------

  const Keywords: seq<string> := ["ニュース", "news", "最新", "ニュース教えて", "ニュースある？"]

  /** Whether the lowered text contains any keyword. */
  predicate HasKeyword(content: string) {
    exists k :: k in Keywords && Contains(AsciiLower(content), k)
  }

  datatype Reply = NoReply | ResendNews | Echo(text: string)

  /**
   * The reply of `on_message`: news is resent exactly for a message from
   * someone else in the guild that holds a keyword; the message is echoed
   * back exactly when it holds none and was posted in the echo channel. A
   * message without a guild (`None`) makes the handler raise on
   * `message.guild.id`, so nothing is sent. `fromSelf` says the author is
   * this bot itself; other bots are answered like anyone else.
   */
  function OnMessage(fromSelf: bool, guildId: Option<int>, channelId: int, content: string): (r: Reply)
    ensures r == ResendNews <==> !fromSelf && guildId == Some(AllowedGuildId) && HasKeyword(content)
    ensures r.Echo? <==>
      !fromSelf && guildId == Some(AllowedGuildId) && !HasKeyword(content) && channelId == EchoChannelId
    ensures r.Echo? ==> r.text == content
  {
    if fromSelf then NoReply
    else if guildId.None? || guildId.value != AllowedGuildId then NoReply
    else if HasKeyword(content) then ResendNews
    else if channelId == EchoChannelId then Echo(content)
    else NoReply
  }

  /** Two longer keywords extend `ニュース`, so three keywords decide. */
  lemma KeywordsReduce(content: string)
    ensures HasKeyword(content) <==>
      var low := AsciiLower(content);
      Contains(low, "ニュース") || Contains(low, "news") || Contains(low, "最新")
  {
    var low := AsciiLower(content);
    if Contains(low, "ニュース教えて") {
      assert "ニュース教えて" == "ニュース" + "教えて";
      ContainsPrefix(low, "ニュース", "教えて");
    }
    if Contains(low, "ニュースある？") {
      assert "ニュースある？" == "ニュース" + "ある？";
      ContainsPrefix(low, "ニュース", "ある？");
    }
    if Contains(low, "ニュース") {
      assert Keywords[0] == "ニュース";
    }
    if Contains(low, "news") {
      assert Keywords[1] == "news";
    }
    if Contains(low, "最新") {
      assert Keywords[2] == "最新";
    }
  }

  // ---------------------------------------------------------------------
  // news_status: the next broadcast
  // ---------------------------------------------------------------------

  const MicrosPerSecond := 1000000
  const HourMicros := 3600 * MicrosPerSecond
  const DayMicros := 24 * HourMicros

  const BroadcastHours: seq<int> := [6, 12, 18]

  /**
   * Today's broadcast at hour `h` (`now.replace(hour=h, minute=0, ...)`),
   * a day later when it is not after `now`; times are microseconds since
   * JST midnight of today.
   */
  function Candidate(h: int, now: int): int {
    if h * HourMicros <= now then h * HourMicros + DayMicros else h * HourMicros
  }

  /** A broadcast instant today or tomorrow. */
  predicate IsBroadcast(t: int) {
    exists i :: 0 <= i < |BroadcastHours| && (t == BroadcastHours[i] * HourMicros || t == BroadcastHours[i] * HourMicros + DayMicros)
  }

  /** The candidates of `news_status` and their minimum, with the time left until it. */
  method NextBroadcast(now: int) returns (next: int, delay: int)
    requires 0 <= now < DayMicros
    ensures IsBroadcast(next) && next > now
    ensures forall t :: IsBroadcast(t) && t > now ==> next <= t
    ensures delay == next - now && 0 < delay <= 12 * HourMicros
  {
    var nextTimes: seq<int> := [];
    for i := 0 to |BroadcastHours|
      invariant |nextTimes| == i
      invariant forall j :: 0 <= j < i ==> nextTimes[j] == Candidate(BroadcastHours[j], now)
    {
      nextTimes := nextTimes + [Candidate(BroadcastHours[i], now)];
    }
    next := nextTimes[0];
    var k := 0;
    for i := 1 to |nextTimes|
      invariant 0 <= k < i && next == nextTimes[k]
      invariant forall j :: 0 <= j < i ==> next <= nextTimes[j]
    {
      if nextTimes[i] < next {
        next := nextTimes[i];
        k := i;
      }
    }
    delay := next - now;
    assert IsBroadcast(next) by {
      assert next == Candidate(BroadcastHours[k], now);
    }
    forall t | IsBroadcast(t) && t > now
      ensures next <= t
    {
      var i :| 0 <= i < |BroadcastHours| && (t == BroadcastHours[i] * HourMicros || t == BroadcastHours[i] * HourMicros + DayMicros);
      assert next <= nextTimes[i];
    }
  }

  /**
   * The countdown shown: `time_until.seconds // 3600` hours and
   * `(time_until.seconds // 60) % 60` minutes, where `seconds` is the
   * seconds field of the non-negative time left.
   */
  function Countdown(delay: int): (hm: (int, int))
    requires delay >= 0
  {
    var seconds := (delay / MicrosPerSecond) % 86400;
    (seconds / 3600, (seconds / 60) % 60)
  }

  /** Within twelve hours the countdown is the whole minutes left, split into hours and minutes. */
  lemma CountdownExact(delay: int)
    requires 0 < delay <= 12 * HourMicros
    ensures var hm := Countdown(delay);
      && 0 <= hm.0 <= 12 && 0 <= hm.1 < 60
      && hm.0 * 60 + hm.1 == delay / (60 * MicrosPerSecond)
  {
    var s := delay / MicrosPerSecond;
    assert s <= 43200;
    assert s % 86400 == s;
    assert delay / (60 * MicrosPerSecond) == s / 60;
  }

  // ---------------------------------------------------------------------
  // on_raw_reaction_add
  // ---------------------------------------------------------------------

  const PreviewLength := 50

  /** `content[:50]`, followed by `...` when the content is longer. */
  function Preview(content: string): (p: string)
    ensures |content| > PreviewLength <==> |p| == PreviewLength + 3
    ensures |content| <= PreviewLength ==> p == content
    ensures |content| > PreviewLength ==> p[..PreviewLength] == content[..PreviewLength] && p[PreviewLength..] == "..."
  {
    Take(content, PreviewLength) + (if |content| > PreviewLength then "..." else "")
  }

  /**
   * The reply to a thumbs-up from a user in the guild: the quoted preview.
   * `fromSelf` says the reaction is this bot's own.
   */
  function OnReaction(fromSelf: bool, guildId: Option<int>, emoji: string, content: string): (reply: Option<string>)
    ensures reply.Some? <==> !fromSelf && guildId == Some(AllowedGuildId) && emoji == "👍"
    ensures reply.Some? ==> StartsWith(reply.value, "「" + Preview(content) + "」")
  {
    if fromSelf || guildId != Some(AllowedGuildId) then None
    else if emoji != "👍" then None
    else Some("「" + Preview(content) + "」のメッセージにグッドマークが押されたよ！")
  }
}
