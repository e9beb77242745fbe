/**
 * The in-memory daily-note bot (obsidian_bot.py): messages of the
 * monitored channel are grouped by their JST date, each date's Markdown
 * document is generated on demand, and a guard set keeps the automatic
 * export of a date's document to one send until a manual export clears it.
 *
 * A message arrives here already converted to JST: its date string
 * (`%Y-%m-%d`) and its `%H:%M` label are inputs. Sending to the chat is an
 * abstract event whose success is a parameter.
 */
module DailyStore {
  import opened Wrappers
  import opened Strings
  import opened Order

  const AllowedGuildId := 1397720381149806723
  const ObsidianChannelId := 1398238810730664056

  /** One entry of a date's list: `timestamp` is kept as its `%H:%M` label. */
  datatype MessageRecord = MessageRecord(time: string, author: string, content: string, messageId: int)

  // ---------------------------------------------------------------------
  // sanitize_content
  // ---------------------------------------------------------------------

  const MaxContentLength := 2000
  const Elision := "...(省略)"

  /** The length cap: over-long text keeps its first 2000 characters and is marked. */
  function Truncate(s: string): string {
    if |s| > MaxContentLength then s[..MaxContentLength] + Elision else s
  }

  /** The three `str.replace` calls of `sanitize_content`, in their order. */
  function ReplaceMarkup(t: string): string {
    ReplaceAll(ReplaceAll(ReplaceAll(t, "`", "\\`"), "[", "\\["), "]", "\\]")
  }

  /**
   * `sanitize_content`: the cap, then every markup character escaped once
   * (`SanitizeAsWritten` shows this is what the three replacements do).
   */
  function Sanitize(s: string): string {
    Escape(Truncate(s))
  }

  /** Characters that would open a code span or a link. */
  predicate IsMarkup(c: char) {
    c == '`' || c == '[' || c == ']'
  }

  function EscapeChar(c: char): string {
    if IsMarkup(c) then ['\\', c] else [c]
  }

  /** A backslash in front of every markup character, in one pass. */
  function Escape(s: string): string {
    if |s| == 0 then "" else EscapeChar(s[0]) + Escape(s[1..])
  }

  /** Drops the backslash in front of each markup character. */
  function Unescape(s: string): string {
    if |s| == 0 then ""
    else if |s| >= 2 && s[0] == '\\' && IsMarkup(s[1]) then [s[1]] + Unescape(s[2..])
    else [s[0]] + Unescape(s[1..])
  }

  /** Every markup character has a backslash right before it. */
  predicate MarkupEscaped(r: string) {
    forall i :: 0 <= i < |r| && IsMarkup(r[i]) ==> i > 0 && r[i - 1] == '\\'
  }

  /** The three replacements in a row are the same as escaping each character once. */
  lemma {:induction false} ReplacementsAreEscape(t: string)
    ensures ReplaceChar(ReplaceChar(ReplaceChar(t, '`', "\\`"), '[', "\\["), ']', "\\]") == Escape(t)
    decreases |t|
  {
    if |t| > 0 {
      var c := t[0];
      var h1 := if c == '`' then "\\`" else [c];
      var r1 := ReplaceChar(t[1..], '`', "\\`");
      assert ReplaceChar(t, '`', "\\`") == h1 + r1;
      ReplaceCharConcat(h1, r1, '[', "\\[");
      var h2 := ReplaceChar(h1, '[', "\\[");
      var r2 := ReplaceChar(r1, '[', "\\[");
      ReplaceCharConcat(h2, r2, ']', "\\]");
      ReplacementsAreEscape(t[1..]);
      if c == '`' {
        assert h2 == "\\`";
        assert ReplaceChar(h2, ']', "\\]") == "\\`";
      } else if c == '[' {
        assert h2 == "\\[";
        assert ReplaceChar(h2, ']', "\\]") == "\\[";
      } else if c == ']' {
        assert h2 == "]";
        assert ReplaceChar(h2, ']', "\\]") == "\\]";
      } else {
        assert h2 == [c];
        assert ReplaceChar(h2, ']', "\\]") == [c];
      }
    }
  }

  /** The replacement chain as written escapes each markup character exactly once. */
  lemma SanitizeAsWritten(s: string)
    ensures ReplaceMarkup(Truncate(s)) == Sanitize(s)
  {
    var t := Truncate(s);
    ReplaceAllOneChar(t, '`', "\\`");
    var t1 := ReplaceAll(t, "`", "\\`");
    ReplaceAllOneChar(t1, '[', "\\[");
    var t2 := ReplaceAll(t1, "[", "\\[");
    ReplaceAllOneChar(t2, ']', "\\]");
    ReplacementsAreEscape(t);
  }

  lemma {:induction false} EscapeConcat(a: string, b: string)
    ensures Escape(a + b) == Escape(a) + Escape(b)
    decreases |a|
  {
    if |a| > 0 {
      assert (a + b)[1..] == a[1..] + b;
      EscapeConcat(a[1..], b);
    } else {
      assert a + b == b;
    }
  }

  lemma {:induction false} EscapeStartsClean(s: string)
    ensures |Escape(s)| > 0 ==> !IsMarkup(Escape(s)[0])
  {
  }

  /** Escaping loses nothing: the original text can always be recovered. */
  lemma {:induction false} EscapeRoundTrip(s: string)
    ensures Unescape(Escape(s)) == s
    decreases |s|
  {
    if |s| > 0 {
      var c := s[0];
      var e := Escape(s[1..]);
      EscapeRoundTrip(s[1..]);
      assert Escape(s) == EscapeChar(c) + e;
      if IsMarkup(c) {
        assert (['\\', c] + e)[2..] == e;
      } else {
        EscapeStartsClean(s[1..]);
        assert ([c] + e)[1..] == e;
      }
      assert s == [c] + s[1..];
    }
  }

  lemma {:induction false} MarkupEscapedConcat(a: string, b: string)
    requires MarkupEscaped(a) && MarkupEscaped(b)
    ensures MarkupEscaped(a + b)
  {
    forall i | 0 <= i < |a + b| && IsMarkup((a + b)[i])
      ensures i > 0 && (a + b)[i - 1] == '\\'
    {
      if i >= |a| {
        assert b[i - |a|] == (a + b)[i];
        if i > |a| {
          assert (a + b)[i - 1] == b[i - 1 - |a|];
        }
      }
    }
  }

  lemma {:induction false} EscapeEscapesMarkup(s: string)
    ensures MarkupEscaped(Escape(s))
    decreases |s|
  {
    if |s| > 0 {
      EscapeEscapesMarkup(s[1..]);
      MarkupEscapedConcat(EscapeChar(s[0]), Escape(s[1..]));
    }
  }

  /** A text without markup characters is its own escape. */
  lemma {:induction false} EscapePlain(s: string)
    requires forall i :: 0 <= i < |s| ==> !IsMarkup(s[i])
    ensures Escape(s) == s
    decreases |s|
  {
    if |s| > 0 {
      EscapePlain(s[1..]);
      assert s == [s[0]] + s[1..];
    }
  }

  /** In sanitized text every backtick and square bracket is escaped. */
  lemma SanitizeEscapesMarkup(s: string)
    ensures MarkupEscaped(Sanitize(s))
  {
    EscapeEscapesMarkup(Truncate(s));
  }

  /**
   * Text of at most 2000 characters is not cut: unescaping gives it back,
   * and without markup characters it comes back unchanged.
   */
  lemma SanitizeShort(s: string)
    requires |s| <= MaxContentLength
    ensures Unescape(Sanitize(s)) == s
    ensures (forall i :: 0 <= i < |s| ==> !IsMarkup(s[i])) ==> Sanitize(s) == s
  {
    EscapeRoundTrip(s);
    if forall i :: 0 <= i < |s| ==> !IsMarkup(s[i]) {
      EscapePlain(s);
    }
  }

  /** Longer text is cut to its first 2000 characters and marked with the elision. */
  lemma SanitizeLong(s: string)
    requires |s| > MaxContentLength
    ensures Sanitize(s) == Escape(s[..MaxContentLength]) + Elision
    ensures Unescape(Sanitize(s)) == s[..MaxContentLength] + Elision
  {
    EscapeConcat(s[..MaxContentLength], Elision);
    EscapePlain(Elision);
    EscapeRoundTrip(s[..MaxContentLength] + Elision);
  }

  /** Sanitizing is not idempotent: a second pass escapes an already escaped backtick again. */
  lemma SanitizeNotIdempotent()
    ensures Sanitize("`") == "\\`"
    ensures Sanitize(Sanitize("`")) == "\\\\`"
  {
    assert Escape("`") == "\\`";
    assert Escape("\\`") == "\\" + Escape("`");
  }

  // ---------------------------------------------------------------------
  // generate_markdown_content
  // ---------------------------------------------------------------------

  const NoMessagesText := "この日のメッセージはありません。"
  const AuthorLimit := 50

  /** The document for a date that has no messages. */
  function EmptyDay(date: string): string {
    "# " + date + "\n\n" + NoMessagesText
  }

  const CountHeading := "## 📋 Discord Messages ("

  /** Title and message-count heading of a non-empty day. */
  function Header(date: string, count: nat): string {
    "# " + date + "\n\n" + CountHeading + NatToDecimal(count) + " 件)\n\n"
  }

  /** The text of one message: bold time, italic author, then the content. */
  function BlockLine(time: string, author: string, content: string): string {
    "**" + time + "** *" + author + "*: " + content + "\n\n"
  }

  /** The block one record contributes. */
  function Block(m: MessageRecord): string {
    BlockLine(m.time, Sanitize(Take(m.author, AuthorLimit)), Sanitize(m.content))
  }

  /** The block of each record, in insertion order. */
  function Rendered(ms: seq<MessageRecord>): (bs: seq<string>)
    ensures |bs| == |ms|
  {
    seq(|ms|, i requires 0 <= i < |ms| => Block(ms[i]))
  }

  /** The blocks of the records, one after the other. */
  function Blocks(ms: seq<MessageRecord>): string {
    Concat(Rendered(ms))
  }

  /** The document `generate_markdown_content` produces for a date's records. */
  function Markdown(date: string, ms: seq<MessageRecord>): string {
    if |ms| == 0 then EmptyDay(date) else Header(date, |ms|) + Blocks(ms)
  }

  lemma BlocksConcat(a: seq<MessageRecord>, b: seq<MessageRecord>)
    ensures Blocks(a + b) == Blocks(a) + Blocks(b)
  {
    assert Rendered(a + b) == Rendered(a) + Rendered(b);
    ConcatAppend(Rendered(a), Rendered(b));
  }

  lemma BlocksStep(ms: seq<MessageRecord>, i: nat)
    requires i < |ms|
    ensures Blocks(ms[..i + 1]) == Blocks(ms[..i]) + Block(ms[i])
  {
    assert ms[..i + 1] == ms[..i] + [ms[i]];
    BlocksConcat(ms[..i], [ms[i]]);
    BlocksOne(ms[i]);
  }

  /** The two lines `generate_markdown_content` writes first make up the header, with no block yet. */
  lemma HeaderStart(date: string, n: nat, ms: seq<MessageRecord>)
    ensures "# " + date + "\n\n" + CountHeading + NatToDecimal(n) + " 件)\n\n"
         == Header(date, n) + Blocks(ms[..0])
  {
    assert Rendered(ms[..0]) == [];
  }

  /** Appending the block of the next record extends the document by one record. */
  lemma HeaderStep(h: string, ms: seq<MessageRecord>, i: nat)
    requires i < |ms|
    ensures h + Blocks(ms[..i]) + BlockLine(ms[i].time, Sanitize(Take(ms[i].author, AuthorLimit)), Sanitize(ms[i].content))
         == h + Blocks(ms[..i + 1])
  {
    BlocksStep(ms, i);
  }

  lemma BlocksOne(m: MessageRecord)
    ensures Blocks([m]) == Block(m)
  {
    assert Rendered([m]) == [Block(m)];
    assert [Block(m)][..0] == [];
    assert Concat([Block(m)]) == Concat([]) + Block(m);
  }

  /**
   * Each record's block sits in the document right after the blocks of
   * the records stored before it: one block per record, in insertion order.
   */
  lemma BlockPosition(date: string, ms: seq<MessageRecord>, i: nat)
    requires i < |ms|
    ensures OccursAt(Markdown(date, ms), Block(ms[i]), |Header(date, |ms|)| + |Blocks(ms[..i])|)
  {
    BlocksAround(ms, i);
    var h := Header(date, |ms|);
    assert Markdown(date, ms) == h + Blocks(ms);
    OccursAtSeam(h, Blocks(ms[..i]), Block(ms[i]), Blocks(ms[i + 1..]));
  }

  /** The blocks of all records split around the block of record `i`. */
  lemma BlocksAround(ms: seq<MessageRecord>, i: nat)
    requires i < |ms|
    ensures Blocks(ms) == Blocks(ms[..i]) + Block(ms[i]) + Blocks(ms[i + 1..])
  {
    assert ms == ms[..i + 1] + ms[i + 1..];
    BlocksConcat(ms[..i + 1], ms[i + 1..]);
    BlocksStep(ms, i);
  }

  /** Storing one more record adds exactly its block at the end and bumps the count. */
  lemma MarkdownAfterAdd(date: string, ms: seq<MessageRecord>, m: MessageRecord)
    requires |ms| > 0
    ensures Markdown(date, ms + [m]) == Header(date, |ms| + 1) + Blocks(ms) + Block(m)
  {
    BlocksConcat(ms, [m]);
    BlocksOne(m);
  }

  /** The number in the heading reads back as the number of records. */
  lemma HeaderCount(date: string, ms: seq<MessageRecord>)
    requires |ms| > 0
    ensures var p := |"# " + date + "\n\n" + CountHeading|;
      DecimalValue(Markdown(date, ms)[p..p + |NatToDecimal(|ms|)|]) == |ms|
  {
    var pre := "# " + date + "\n\n" + CountHeading;
    var digits := NatToDecimal(|ms|);
    var doc := Markdown(date, ms);
    assert doc == pre + digits + " 件)\n\n" + Blocks(ms);
    SliceOfConcat(pre, digits, " 件)\n\n", Blocks(ms));
    assert doc[|pre|..|pre| + |digits|] == digits;
    DecimalRoundTrip(|ms|);
  }

  // ---------------------------------------------------------------------
  // Export rules
  // ---------------------------------------------------------------------

  /** Discord's attachment ceiling minus a margin: 24 MiB. */
  const MaxFileSize := 24 * 1024 * 1024

  /** `len(content.encode('utf-8')) <= MAX_FILE_SIZE`. */
  predicate FitsAttachment(body: string) {
    Utf8Length(body) <= MaxFileSize
  }

  /**
   * Whatever the characters, a document of at most 6 MiB characters is
   * accepted and one of more than 24 MiB characters is refused.
   */
  lemma AttachmentBounds(body: string)
    ensures 4 * |body| <= MaxFileSize ==> FitsAttachment(body)
    ensures |body| > MaxFileSize ==> !FitsAttachment(body)
  {
    Utf8LengthBounds(body);
  }

  datatype SkipReason = NoMessages | AlreadySent

  /** What `auto_generate_and_send` did. */
  datatype AutoExport =
    | Skipped(reason: SkipReason)
    | Sent(notice: string, fileName: string, body: string)
      /** The send raised; the bot then posts a failure notice carrying the error text, which is not modelled. */
    | SendFailed

  /** What `download_note` answered. */
  datatype Download =
    | WrongGuild
    | BadDateFormat
    | NotFound(date: string)
    | TooLarge(date: string, bytes: nat)
    | Delivered(fileName: string, body: string, messageCount: nat, charCount: nat)
    | SendError

  function AutoNotice(date: string, count: nat): string {
    "📄 **" + date + "** のマークダウンファイルを生成しました (" + NatToDecimal(count) + "件のメッセージ)"
  }

  /** A list holding the dates of the store as a multiset lists only stored dates. */
  lemma StoredDatesListed(dates: seq<string>, stored: map<string, seq<MessageRecord>>)
    requires multiset(dates) == multiset(stored.Keys)
    ensures forall d :: d in dates ==> d in stored
  {
    forall d | d in dates
      ensures d in stored
    {
      assert d in multiset(dates);
    }
  }

  /** The module-level state of obsidian_bot.py: `daily_messages` and `sent_files`. */
  class Store {
    var dailyMessages: map<string, seq<MessageRecord>>
    var sentFiles: set<string>

    /** Every stored date holds at least one record. */
    ghost predicate Valid()
      reads this
    {
      forall d :: d in dailyMessages ==> |dailyMessages[d]| > 0
    }

    constructor ()
      ensures dailyMessages == map[] && sentFiles == {}
      ensures Valid()
    {
      dailyMessages := map[];
      sentFiles := {};
    }

    /** The records of a date, or none. */
    function Messages(date: string): seq<MessageRecord>
      reads this
    {
      if date in dailyMessages then dailyMessages[date] else []
    }

    /** `add_message_to_memory`: appends the record to its date's list. */
    method AddMessage(date: string, m: MessageRecord)
      modifies this`dailyMessages
      ensures dailyMessages == old(dailyMessages)[date := old(Messages(date)) + [m]]
      ensures dailyMessages.Keys == old(dailyMessages).Keys + {date}
      ensures forall d :: d in old(dailyMessages) && d != date ==> dailyMessages[d] == old(dailyMessages)[d]
      ensures old(Valid()) ==> Valid()
    {
      if date !in dailyMessages {
        dailyMessages := dailyMessages[date := []];
      }
      dailyMessages := dailyMessages[date := dailyMessages[date] + [m]];
    }

    /** `get_available_dates`: every stored date once, newest first. */
    method AvailableDates() returns (dates: seq<string>)
      ensures multiset(dates) == multiset(dailyMessages.Keys)
      ensures SortedDesc(dates, Identity)
      ensures Valid() ==> forall d :: d in dates ==> Messages(d) != []
    {
      var rest := dailyMessages.Keys;
      dates := [];
      while rest != {}
        invariant rest <= dailyMessages.Keys
        invariant multiset(dates) == multiset(dailyMessages.Keys - rest)
        invariant SortedDesc(dates, Identity)
        decreases |rest|
      {
        var d :| d in rest;
        InsertDescPermutes(d, dates, Identity);
        InsertDescSorted(d, dates, Identity);
        dates := InsertDesc(d, dates, Identity);
        assert dailyMessages.Keys - (rest - {d}) == (dailyMessages.Keys - rest) + {d};
        rest := rest - {d};
      }
      StoredDatesListed(dates, dailyMessages);
    }

    /** `generate_markdown_content`: the document of one date. */
    method GenerateMarkdownContent(date: string) returns (content: string)
      ensures content == Markdown(date, Messages(date))
    {
      if date !in dailyMessages || |dailyMessages[date]| == 0 {
        return "# " + date + "\n\n" + NoMessagesText;
      }
      var messages := dailyMessages[date];
      content := "# " + date + "\n\n";
      content := content + CountHeading + NatToDecimal(|messages|) + " 件)\n\n";
      HeaderStart(date, |messages|, messages);
      for i := 0 to |messages|
        invariant content == Header(date, |messages|) + Blocks(messages[..i])
      {
        var timestamp := messages[i].time;
        var author := Sanitize(Take(messages[i].author, AuthorLimit));
        var body := Sanitize(messages[i].content);
        var block := BlockLine(timestamp, author, body);
        HeaderStep(Header(date, |messages|), messages, i);
        content := content + block;
      }
      assert messages[..|messages|] == messages;
      assert Messages(date) == messages;
    }

    /**
     * `auto_generate_and_send` (the guard): nothing for an empty date or a
     * date already sent; otherwise the document is sent and, only when the
     * send succeeds, the date is recorded as sent.
     */
    method AutoGenerateAndSend(date: string, sendSucceeds: bool) returns (outcome: AutoExport)
      modifies this`sentFiles
      ensures Messages(date) == [] ==> outcome == Skipped(NoMessages) && sentFiles == old(sentFiles)
      ensures Messages(date) != [] && date in old(sentFiles) ==>
        outcome == Skipped(AlreadySent) && sentFiles == old(sentFiles)
      ensures Messages(date) != [] && date !in old(sentFiles) && sendSucceeds ==>
        && outcome == Sent(AutoNotice(date, |Messages(date)|), date + ".md", Markdown(date, Messages(date)))
        && sentFiles == old(sentFiles) + {date}
      ensures Messages(date) != [] && date !in old(sentFiles) && !sendSucceeds ==>
        outcome == SendFailed && sentFiles == old(sentFiles)
    {
      if date !in dailyMessages || |dailyMessages[date]| == 0 {
        return Skipped(NoMessages);
      }
      if date in sentFiles {
        return Skipped(AlreadySent);
      }
      var content := GenerateMarkdownContent(date);
      var messageCount := |dailyMessages[date]|;
      if !sendSucceeds {
        return SendFailed;
      }
      outcome := Sent(AutoNotice(date, messageCount), date + ".md", content);
      sentFiles := sentFiles + {date};
    }

    /**
     * The decision logic of `download_note`: the date defaults to today and
     * must parse; a date without records is not found; a document over
     * 24 MiB of UTF-8 is refused; after a successful send the date leaves
     * the guard set so that the automatic export may run again.
     */
    method DownloadNote(guildId: int, requested: Option<string>, today: string,
                        parsesAsDate: string -> bool, sendSucceeds: bool) returns (reply: Download)
      modifies this`sentFiles
      ensures guildId != AllowedGuildId ==> reply == WrongGuild && sentFiles == old(sentFiles)
      ensures guildId == AllowedGuildId && requested.Some? && !parsesAsDate(requested.value) ==>
        reply == BadDateFormat && sentFiles == old(sentFiles)
      ensures guildId == AllowedGuildId && (requested.None? || parsesAsDate(requested.value)) ==>
        var target := if requested.None? then today else requested.value;
        var body := Markdown(target, Messages(target));
        && (Messages(target) == [] ==> reply == NotFound(target))
        && (Messages(target) != [] && !FitsAttachment(body) ==> reply == TooLarge(target, Utf8Length(body)))
        && (Messages(target) != [] && FitsAttachment(body) && !sendSucceeds ==> reply == SendError)
        && (Messages(target) != [] && FitsAttachment(body) && sendSucceeds ==>
              reply == Delivered(target + ".md", body, |Messages(target)|, |body|))
        && sentFiles == (if reply.Delivered? then old(sentFiles) - {target} else old(sentFiles))
    {
      if guildId != AllowedGuildId {
        return WrongGuild;
      }
      var target: string;
      if requested.None? {
        target := today;
      } else if parsesAsDate(requested.value) {
        target := requested.value;
      } else {
        return BadDateFormat;
      }
      if target !in dailyMessages || |dailyMessages[target]| == 0 {
        return NotFound(target);
      }
      var content := GenerateMarkdownContent(target);
      var size := Utf8Length(content);
      if size > MaxFileSize {
        return TooLarge(target, size);
      }
      if !sendSucceeds {
        return SendError;
      }
      reply := Delivered(target + ".md", content, |dailyMessages[target]|, |content|);
      if target in sentFiles {
        sentFiles := sentFiles - {target};
      }
    }

    /**
     * `on_message`: the bot's own messages (`fromSelf`) and other servers
     * are ignored; a message of the monitored channel is stored and then
     * auto-exported. Messages of other bots are handled like anyone's.
     */
    method OnMessage(fromSelf: bool, guildId: int, channelId: int, date: string,
                     m: MessageRecord, sendSucceeds: bool) returns (outcome: Option<AutoExport>)
      modifies this
      ensures fromSelf || guildId != AllowedGuildId || channelId != ObsidianChannelId ==>
        outcome == None && dailyMessages == old(dailyMessages) && sentFiles == old(sentFiles)
      ensures !fromSelf && guildId == AllowedGuildId && channelId == ObsidianChannelId ==>
        var all := old(Messages(date)) + [m];
        && dailyMessages == old(dailyMessages)[date := all]
        && outcome == Some(
             if date in old(sentFiles) then Skipped(AlreadySent)
             else if !sendSucceeds then SendFailed
             else Sent(AutoNotice(date, |all|), date + ".md", Markdown(date, all)))
        && sentFiles == (if date !in old(sentFiles) && sendSucceeds then old(sentFiles) + {date} else old(sentFiles))
    {
      if fromSelf || guildId != AllowedGuildId || channelId != ObsidianChannelId {
        return None;
      }
      AddMessage(date, m);
      var sent := AutoGenerateAndSend(date, sendSucceeds);
      outcome := Some(sent);
    }
  }

  /**
   * The guard at work: after the first automatic export of a date succeeds,
   * a second call for that date sends nothing; a manual download either
   * puts the date back, so that the next automatic export sends again, or
   * is refused as too large, and the next automatic export still sends
   * nothing. Either way the date ends up marked as sent.
   */
  method AutoExportOncePerDate(store: Store, date: string, m: MessageRecord, today: string)
    returns (first: AutoExport, second: AutoExport, download: Download, third: AutoExport)
    requires date !in store.sentFiles
    modifies store
    ensures first.Sent? && second == Skipped(AlreadySent)
    ensures download.Delivered? || download.TooLarge?
    ensures download.Delivered? ==> third.Sent?
    ensures download.TooLarge? ==> third == Skipped(AlreadySent)
    ensures store.sentFiles == old(store.sentFiles) + {date}
  {
    store.AddMessage(date, m);
    first := store.AutoGenerateAndSend(date, true);
    second := store.AutoGenerateAndSend(date, true);
    download := store.DownloadNote(AllowedGuildId, Some(date), today, _ => true, true);
    third := store.AutoGenerateAndSend(date, true);
  }
}
