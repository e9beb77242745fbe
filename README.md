# Daily notes and news for a Discord server, in Dafny

This project models the logic of three Discord bots and proves properties about them.

- **The in-memory daily-note bot** (`obsidian_bot.py`, module `DailyStore` in `daily_store.dfy`).
  - Messages of one channel are grouped by their JST date in `daily_messages`.
  - Each date's Markdown document is generated on demand, and its text is sanitized first.
  - A guard set `sent_files` keeps the automatic export of a date to one send. A manual `/download_note` clears the guard.
- **The file-backed daily-note bot** (`archive/bot_legacy_unified.py`, module `LegacyVault` in `vault.dfy`).
  - Each message goes into the vault file of its date, `vault/YYYY/MM/DD/YYYY-MM-DD.md`.
  - That file is created from a fixed template on the first write.
  - Every new line is spliced directly under the "Discord Messages" section marker.
  - A message number is computed by counting lines.
  - `/list_notes` shows the notes newest first.
- **The news bot** (`news_bot.py`, module `NewsBot` in `news.dfy`).
  - Three scheduled broadcasts (06:00, 12:00 and 18:00 JST) are remembered in the `latest_news` store.
  - A rule by the hour picks which one to resend when a message holds a news keyword.
  - Other messages in the echo channel are echoed.
  - `/news_status` computes the next broadcast.
  - A thumbs-up reaction is answered with a 50-character preview.

Shared modules:
- `strings.dfy` (`Strings`) models the Python string operations the bots rely on:
  - `str.replace`, `split` and `join`;
  - `in`, `startswith` and `strip`;
  - reading a file in text mode, which turns `\r\n` and `\r` into `\n`, then splitting it into lines at `\n`;
  - decimal printing;
  - the UTF-8 byte length.
- `order.dfy` (`Order`) models Python's string order and the stable `sort(key=..., reverse=True)`.
- `wrappers.dfy` holds `Option`.

How the outside world is represented:
- The bots' state is represented by classes whose methods update it in place:
  - `DailyStore.Store` holds `dailyMessages` and `sentFiles`;
  - `LegacyVault.Vault` holds the vault as a map from path to file contents;
  - `NewsBot.NewsStore` holds `latest`.
- Whether a send, a directory creation, a read or a write succeeds is a parameter.
- The clock, the JST date and the `%H:%M` label are inputs.

## Model

| member | source | states |
|---|---|---|
| DailyStore.Store.AddMessage | obsidian_bot.py:27-45 | The date's list becomes the old list (empty if the date was new) plus the record at the end. Every other date keeps its list, and no other key appears. |
| DailyStore.Store.AvailableDates | obsidian_bot.py:48-50 | The result holds every stored date exactly once (as a multiset it equals the key set) and is in descending order. Under the store invariant, every listed date has at least one record. |
| DailyStore.SanitizeAsWritten | obsidian_bot.py:113-116 | The three `replace` calls, applied in their order, are the same as escaping each backtick and square bracket exactly once. |
| DailyStore.EscapeRoundTrip | obsidian_bot.py:113-116 | Escaping loses nothing: removing the backslashes gives the text back. |
| DailyStore.SanitizeEscapesMarkup | obsidian_bot.py:106-118 | In sanitized text every backtick, `[` and `]` is immediately preceded by a backslash. |
| DailyStore.SanitizeShort | obsidian_bot.py:109-118 | Text of at most 2000 characters is not cut. Unescaping gives it back, and text without markup characters comes back unchanged. |
| DailyStore.SanitizeLong | obsidian_bot.py:109-111 | Longer text becomes the escape of its first 2000 characters followed by `...(省略)`. |
| DailyStore.SanitizeNotIdempotent | obsidian_bot.py:106-118 | Sanitizing twice escapes again: a lone backtick becomes a backslash and a backtick, and then two backslashes and a backtick. |
| DailyStore.Store.GenerateMarkdownContent | obsidian_bot.py:86-104 | The loop builds the document of the date's stored records. For an absent or empty date this is the "no messages" text. |
| DailyStore.BlockPosition | obsidian_bot.py:97-102 | Record `i`'s block (time, author cut to 50 then sanitized, content sanitized) sits right after the header and the blocks of records `0..i-1`: one block per record, in insertion order. |
| DailyStore.MarkdownAfterAdd | obsidian_bot.py:94-102 | Storing one more record appends exactly its block and raises the count in the heading. |
| DailyStore.HeaderCount | obsidian_bot.py:94-95 | The number printed in the heading reads back as the number of records. |
| DailyStore.AttachmentBounds | obsidian_bot.py:247-250 | Under the 24 MiB UTF-8 ceiling, a document of at most 6 MiB characters is always accepted, and one of more than 24 MiB characters is always refused. |
| DailyStore.Store.AutoGenerateAndSend | obsidian_bot.py:52-84 | Nothing is sent for an empty date or for a date already sent. Otherwise the document is sent, and the date is recorded only when the send succeeds. |
| DailyStore.Store.DownloadNote | obsidian_bot.py:218-291 | Handles a wrong guild, an unparsable date, a date without records and a document over 24 MiB (exactly the limit passes). After a successful send the date leaves the guard set; every other case leaves the set unchanged. |
| DailyStore.Store.OnMessage | obsidian_bot.py:134-167 | Own messages, other guilds and other channels change nothing. A message of the monitored channel is appended to its date's list and then auto-exported. The outcome is "already sent" if the date is in the guard set. Otherwise it is a failed send, or the notice with the new count, `{date}.md` and the document of all the date's records. Only a successful send adds the date to the guard set. |
| DailyStore.AutoExportOncePerDate | obsidian_bot.py:52-85 | The first automatic export of a new date sends, and a second one is skipped as already sent. A manual download is then either delivered, after which the next automatic export sends again, or refused as too large, after which it is still skipped. Either way the date ends in the guard set. |
| LegacyVault.DateDirOfParts | archive/bot_legacy_unified.py:100-101 | `Y-M-D` split on `-` and joined with `/` is `Y/M/D`. |
| LegacyVault.NotePathLayout | archive/bot_legacy_unified.py:97-127 | For any vault path, the note path is the vault (with a `/` added unless it already ends in one) followed by `Y/M/D/Y-M-D.md`. When creating the directory failed, it is followed by `Y-M-D.md` instead. |
| LegacyVault.TemplateShape | archive/bot_legacy_unified.py:148-169 | The template starts with `# {date}` and a newline, and ends with the Discord section marker. |
| LegacyVault.TemplateMarkerOnce | archive/bot_legacy_unified.py:148-169 | The marker occurs in a fresh template exactly once, at its end. |
| LegacyVault.TemplateCrFree | archive/bot_legacy_unified.py:148-169 | A fresh template holds no `\r`, so reading it back in text mode gives it unchanged. |
| LegacyVault.TemplateUnnumbered | archive/bot_legacy_unified.py:148-169 | No line of the template passes the counter's test, so a fresh note's first number is 1. |
| LegacyVault.Vault.NextMessageNumber | archive/bot_legacy_unified.py:129-146 | The result is 1 for a missing or unreadable file. Otherwise the file is read with newlines translated, and the result is one more than the number of lines whose stripped text starts with `- **` and which contain `**`. |
| LegacyVault.FormatDiscordMessage | archive/bot_legacy_unified.py:171-188 | The loops give `**HH:MM** *author*: content` with the user placeholders and then the channel placeholders replaced. The message number is not used. |
| LegacyVault.ResolveOneUser | archive/bot_legacy_unified.py:178-180 | Every occurrence of a mentioned user's `<@id>` becomes `@display_name`. |
| LegacyVault.ResolveOneChannel | archive/bot_legacy_unified.py:183-185 | Every occurrence of a mentioned channel's `<#id>` becomes `#name`. |
| LegacyVault.ResolveUsersAbsent | archive/bot_legacy_unified.py:178-180 | Content holding no placeholder of a mentioned user is left as it is. |
| LegacyVault.ResolveChannelsAbsent | archive/bot_legacy_unified.py:183-185 | Content holding no placeholder of a mentioned channel is left as it is. |
| LegacyVault.FormattedUnnumbered | archive/bot_legacy_unified.py:141 | A formatted line starts with `**`, not `- **`, so the counter never counts it. |
| LegacyVault.SpliceWithoutMarker | archive/bot_legacy_unified.py:222-224 | Without the marker, the result is exactly the old text, a newline, the line and a newline. So nothing of the old text is lost. |
| LegacyVault.SpliceNewestFirst | archive/bot_legacy_unified.py:216-221 | Below a single marker, the new line goes directly after the marker and ahead of the lines written before it. |
| LegacyVault.NoteAfterLayout | archive/bot_legacy_unified.py:204-228 | After any number of appends to a fresh note, each spliced into the note as read back in text mode, it is the template head, the marker once, then the lines newest first. |
| Strings.ReplaceRunsInLines | archive/bot_legacy_unified.py:216-221 | Take lines without newlines, joined. Replacing every occurrence of a newline-free text `a`, a newline and some joined lines `bs` by that occurrence followed by a new line inserts the new line after every run made of a line ending in `a` followed by exactly the lines `bs`. Runs are taken left to right without overlap. |
| LegacyVault.SpliceLines | archive/bot_legacy_unified.py:215-224 | Splicing a line into a note made of lines without `\n` or `\r` that the counter does not count gives a note made of such lines again, when the line is one of them too. This holds with or without the marker, and also when the line holds the marker text. |
| LegacyVault.NoteAfterLines | archive/bot_legacy_unified.py:204-228 | After any number of appends of such lines to a fresh note, each spliced into the note as read back in text mode, the note is still made of lines without `\n` or `\r` that the counter does not count. |
| LegacyVault.AppendNext | archive/bot_legacy_unified.py:190-228 | An append to a note holding `NoteAfter` of the earlier lines, or to a missing note when there were none, leaves `NoteAfter` of the earlier lines followed by the new message's line. |
| LegacyVault.AppendDay | archive/bot_legacy_unified.py:190-228 | Appending the messages of one date one after the other to a missing note leaves exactly `NoteAfter` of their formatted lines, in order. No other file changes. |
| LegacyVault.MessagesOfTheDay | archive/bot_legacy_unified.py:129-228 | After the messages of a date are appended to a missing note, the number the next message gets is still 1 when no formatted line holds `\n` or `\r`. |
| LegacyVault.FirstAppend | archive/bot_legacy_unified.py:204-221 | The first append to a fresh note yields the template followed by the line and a newline, whatever the line holds. |
| LegacyVault.FirstAppendUncounted | archive/bot_legacy_unified.py:135-144 | After that first append the note holds no `\r` and no counted line, provided the formatted line has no line break. |
| LegacyVault.NumberNeverAdvances | archive/bot_legacy_unified.py:135-144 | However many formatted messages are appended, the note holds no `\r` and none of its lines is counted, so the next number stays 1. This needs each formatted line to be free of line breaks; a line holding the marker text is allowed. |
| LegacyVault.Vault.AppendToDailyNote | archive/bot_legacy_unified.py:190-233 | A missing note is created from the template. Then the note is read with newlines translated, spliced and written back. A failing step ends the operation, and what was written before it stays. No other file changes. |
| LegacyVault.FirstMessageOfTheDay | archive/bot_legacy_unified.py:129-228 | The first message of a day creates the note with its line right under the marker. The number the next message then gets is 1 when the line has no line break. |
| LegacyVault.ListNotes | archive/bot_legacy_unified.py:477-541 | Outside the allowed guild the command is refused. If the size or creation time of a walked note file cannot be read, the reply is the error. Otherwise the listing shows the number of note files and the five with the greatest keys, greatest first, or "no notes". |
| LegacyVault.NoteEntriesConcat | archive/bot_legacy_unified.py:489-502 | The entries follow the walk, one per note file in walk order: the entries of two consecutive stretches of the walk are the entries of the first followed by those of the second. |
| LegacyVault.NoteEntriesExact | archive/bot_legacy_unified.py:489-502 | The entries are exactly the walked `.md` files other than `README.md`, each with its key. |
| LegacyVault.RecentNotesAreNewest | archive/bot_legacy_unified.py:508-519 | The shown entries are at most five, descending, taken from the notes. No note left out has a greater key than a shown one. |
| LegacyVault.DateNoteKey | archive/bot_legacy_unified.py:501 | A note named `Y-M-D.md` is keyed by its date `Y-M-D`. |
| Order.SortDescCorrect | archive/bot_legacy_unified.py:509 | The stable descending sort is sorted and a permutation of its input. |
| Order.SortDescStable | archive/bot_legacy_unified.py:509 | The sort is stable: for every key, the elements with that key (for example all notes keyed `unknown`) come out in the order they went in. |
| Strings.TranslateNewlinesNoCr | archive/bot_legacy_unified.py:135 | Text read in text mode holds no `\r`. |
| Strings.TranslateNewlinesCrLf | archive/bot_legacy_unified.py:212-213 | A line ended by `\r\n` reads back as the same line ended by `\n`. |
| Strings.TranslateNewlinesPlain | archive/bot_legacy_unified.py:212-213 | Text without `\r` reads back unchanged. |
| NewsBot.Fetched | news_bot.py:37-55 | A fetch gives at most three lines, each `・[title](<link>)` for the item in the same place (defaults `タイトル不明` and empty). It gives `None` on a status other than 200 and the one-line failure list on an exception. |
| NewsBot.FetchNews | news_bot.py:45-52 | The loop over the first three items yields exactly the lines `Fetched` describes. |
| NewsBot.ItemLineRoundTrip | news_bot.py:50 | The title and link of a news line can be read back from it. |
| NewsBot.Latest.Set | news_bot.py:105 | Writing a slot sets that slot and leaves the other two unchanged. |
| NewsBot.NewsStore.RunTask | news_bot.py:97-125 | A task writes into its own slot exactly the message it sent. It does so only after the send and only when the channel was found; otherwise the store is unchanged. |
| NewsBot.PriorityCoversSlots | news_bot.py:133-165 | At every hour all three slots are tried, each once. |
| NewsBot.ResendByPriority | news_bot.py:127-165 | The resend is the first slot in the hour's order that holds news, under its heading. The order is morning, evening, lunch for 6-11; lunch, morning, evening for 12-17; evening, lunch, morning otherwise. |
| NewsBot.SendLatestNews | news_bot.py:127-169 | At any hour, the message sent is the first slot of the hour's order that holds news, under its heading, or the waiting notice when none does. If that send raised, the failure notice is sent instead. |
| NewsBot.ResendNoNews | news_bot.py:133-165 | The "not yet broadcast" notice is sent exactly when no slot holds news. |
| NewsBot.ResendPrefersCurrentSlot | news_bot.py:133-165 | The slot of the hour's own broadcast wins whenever it holds news. |
| NewsBot.ResendAfterBroadcast | news_bot.py:97-165 | Right after a task broadcasts, a resend at its hour sends that broadcast under the newest heading. |
| NewsBot.OnMessage | news_bot.py:187-213 | News is resent exactly for a message from someone else in the guild whose lower-cased text holds a keyword. The message is echoed exactly when it holds no keyword and was posted in the echo channel. |
| NewsBot.KeywordsReduce | news_bot.py:203-204 | Two longer keywords extend `ニュース`, so the three keywords `ニュース`, `news` and `最新` decide. |
| NewsBot.NextBroadcast | news_bot.py:294-303 | The next broadcast is one of today's or tomorrow's 06:00, 12:00 or 18:00. It is strictly after now and the earliest such time, so 0 < delay ≤ 12 h. |
| NewsBot.CountdownExact | news_bot.py:303-307 | For such a delay, the shown hours and minutes are the whole minutes left: hours ≤ 12 and minutes < 60. |
| NewsBot.Preview | news_bot.py:226 | The preview is the content itself when it has at most 50 characters. Otherwise it is its first 50 followed by `...`, exactly 53 characters. |
| NewsBot.OnReaction | news_bot.py:215-227 | Exactly a thumbs-up from someone else in the guild is answered, and the answer quotes the preview. |

## Left out

- Discord, HTTP and the filesystem are not called.
  - Sends, channel lookups, directory creation, reads and writes become success flags.
  - The RSS response becomes its status and its items.
  - Each title or link element becomes missing, empty or text.
  - The vault is a map from path to contents, without directories.
- Time zones and `strftime`/`strptime` are not modelled.
  - The JST date string, the `%H:%M` label, the hour and the time since midnight are inputs.
  - Date validity for `/download_note` is a predicate parameter.
- The `tasks.loop` scheduling and async interleaving are left out, and so are `print` logging, embeds and help or status texts.
- `bot.process_commands` is left out.
- `bot.py` is not part of this model: it holds no logic beyond a fixed reply and a help embed.
- The size display in MB and KB (floating point) is left out, and so is the creation time of listed notes.
- The legacy bot's `download_note` and status commands are left out. They read files and build embeds without further decisions.
- The reaction handler's channel lookup and message fetch are not modelled: the answer is computed from the fetched content.
- LegacyVault.NotePathLayout: holds for dates made of three non-empty segments without `-` or `/`. The code validates nothing. The path is joined, not normalised, so a vault or segment such as `..` is kept as written.
- LegacyVault.TemplateMarkerOnce, LegacyVault.TemplateCrFree, LegacyVault.TemplateUnnumbered, LegacyVault.FirstAppend, LegacyVault.FirstAppendUncounted, LegacyVault.NoteAfterLayout, LegacyVault.NumberNeverAdvances, LegacyVault.FirstMessageOfTheDay, LegacyVault.AppendNext, LegacyVault.AppendDay, LegacyVault.MessagesOfTheDay: stated for dates made of digits and dashes, as the bot's `strftime` produces them.
- LegacyVault.NoteAfterLayout: stated for lines without the marker's `📋`. A message holding the whole marker text would be spliced again on later appends.
- LegacyVault.NoteAfterLayout: stated for lines without `\r`. The note is read back in text mode before each append, so a `\r` written with one line becomes a line break before the next one, and the text then differs from the layout. `NoteAfter` itself models that read-back for every line.
- LegacyVault.ListNotes: the error reply's text, `❌ ノート一覧取得エラー: ` followed by the exception text, is not modelled. A failure of the final send, which the same handler catches, is not modelled either.
- LegacyVault.NumberNeverAdvances: stated for messages whose formatted line holds no `\n` or `\r`. A message whose content spans lines, one of which starts with `- **`, would be counted.
- LegacyVault.FirstMessageOfTheDay: the next number is promised only for a line without `\n` or `\r`, for the same reason.
- LegacyVault.Vault.NextMessageNumber: after newline translation, lines are read by splitting on `\n`. This gives one extra empty last line compared with `readlines()`, and that line is never counted.
- Writes are modelled as on POSIX, where text mode writes `\n` as it is. On a platform whose line separator is `\r\n`, each write would translate it.
- LegacyVault.Vault.AppendToDailyNote: a write that fails part-way is modelled as leaving the file as it was before that write.
- NewsBot.ItemLineRoundTrip: only for titles and links without `<`.
- NewsBot.Fetched: an element that is present but has no text is rendered as Python prints `None`, i.e. the text `None`.
- NewsBot.OnMessage: `lower()` is modelled on ASCII letters only. No keyword holds a letter whose case is mapped outside ASCII.
- DailyStore.Store.AutoGenerateAndSend: a failed send is recorded as `SendFailed`. The notice the bot then posts, `❌ マークダウンファイルの生成に失敗しました: ` followed by the exception text, is not modelled, because the exception text comes from the Discord library.
- DailyStore.AttachmentBounds: bounds only. The exact decision uses the UTF-8 length of each code point in `DailyStore.Store.DownloadNote`.
- DailyStore.SanitizeLong, DailyStore.SanitizeNotIdempotent: follow the code, which marks a cut with `...(省略)` and is not idempotent. A cut marker in English or an idempotent sanitizer is not what the code does.
- LegacyVault.NumberNeverAdvances: follows the code, where the number does not grow with each append. The counter looks for lines starting with `- **`, while the lines it writes start with `**`.
- Python's `os.path.join` is modelled for POSIX paths only.
