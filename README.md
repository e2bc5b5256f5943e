# Words of Wonders answers: crawler and Telegram bot, modelled in Dafny

The repository has two programs that share one SQLite file, `levels.db`:

- `parser.py` is a crawler for bygame.ru.
  - It takes the level-page links from the start page and keeps a ledger of which pages are done (`progress.db`, table `pages`).
  - For every level heading on a page, it reads the main words and the bonus words and stores them comma-joined in `levels`.
  - A pool of workers processes the pages that are not done yet.
- `index.js` is a Telegram bot.
  - It answers `/l<n>` and the "➡️ Следующий" button with the words of level n.
  - It deletes the previous exchange.
  - It remembers, per chat, which messages to delete next time (`bot_state.db`, table `message_state`).

This project models the logic of both programs and proves what it promises. The SQLite tables are classes holding maps. The HTML page is a sequence of blocks: headings, paragraphs of nodes, and other blocks. The network, the console and Telegram are inputs.

| file | module | models |
|---|---|---|
| common.dfy | `Common` | `Option` and `Result` |
| text.dfy | `Text` | one-character `split`, `join`, Python's `split()`, `strip()` and `upper()`, and `replace` |
| numerals.dfy | `Numerals` | digit strings, `str(n)` for integers, and Python's `int(s)` |
| level_page.dfy | `LevelPage` | `parse_level_page`: heading selection, the text after `<strong>`, and the word lists |
| stores.dfy | `Stores` | the `pages` ledger and the `levels` table, with the row format `save_level` writes |
| crawler.dfy | `Crawler` | `get_all_links`, `worker`, the executor loop, and `main`'s seeding rule and thread count |
| bot.dfy | `Bot` | `parseInt`, the command and callback parsing, rendering, deletions, `saveState`, and `handleLevel` |
| pipeline.dfy | `Pipeline` | what the bot shows for a level the crawler extracted |

Three behaviours of the code that the model keeps:

- A `<p>` with no `<strong>` makes `strong.next_siblings` raise. The whole page then fails, nothing from it is saved, and the url stays pending.
- An empty main-word list is stored as `""`, which the bot renders as one empty bullet.
- A bonus column holding `""` is treated as absent, like NULL.

## Model

| member | source | states |
|---|---|---|
| Stores.InsertAbsentEffect | parser.py:45-54 | INSERT OR IGNORE adds exactly the urls not yet present, each unprocessed, keeps every existing flag, and never turns a flag back to false |
| Stores.InsertAbsentIdempotent | parser.py:50 | saving the same links twice leaves the ledger as saving them once |
| Stores.PageStore.SaveLinks | parser.py:45-54 | the loop of inserts leaves the ledger equal to InsertAbsent of the old ledger and the urls, and the ledger only advances |
| Stores.PageStore.UnprocessedLinks | parser.py:57-63 | returns exactly the urls whose flag is false, each once |
| Stores.MarkedAtEffect | parser.py:66-71 | marking sets the named url to processed, is a no-op when the url is absent, and changes no other row |
| Stores.PageStore.MarkProcessed | parser.py:66-71 | the ledger becomes MarkedAt of the old ledger, and it only advances |
| Stores.PageStore.Count | parser.py:169-170 | the count of rows, zero exactly when the ledger is empty |
| Stores.LevelStore.SaveLevel | parser.py:74-81 | a level outside SQLite's signed 64-bit INTEGER range raises (returns false) and writes nothing; otherwise the row for that level is replaced by the stored row, and no other level changes |
| Stores.StoredRow | parser.py:79 | the row save_level writes: the main words joined with ",", and the bonus words joined with "," or NULL when there are none (read back by StoredRowRoundTrip) |
| Stores.StoredRowRoundTrip | parser.py:79 | bonus is NULL iff the bonus list is empty; for comma-free words and a non-empty main list, splitting the columns on ',' gives back the saved lists |
| Stores.EmptyMainStoredAsEmptyString | parser.py:79 | an empty main list is stored as "", which splits into one empty field |
| Crawler.LevelLinks | parser.py:92-96 | the level links of the anchors, at most one per anchor (exactly which by LevelLinksExactly) |
| Crawler.GetAllLinks | parser.py:90-98 | the loop over the anchors returns LevelLinks of the anchors |
| Crawler.LevelLinksConcat | parser.py:92-96 | the filter keeps document order: the links of two runs of anchors are the links of the first run, then those of the second |
| Crawler.LevelLinksExactly | parser.py:92-96 | every link is BASE_URL plus the href of some anchor and starts with BASE_URL + "/otvety/wow-"; every anchor whose href has that prefix contributes its link |
| Crawler.SaveStop | parser.py:77-79 | the index of the first save_level call that raises, because the database fails it or its level is outside the signed 64-bit range; every earlier call goes through |
| Crawler.Crawler.Worker | parser.py:150-160 | returns True iff the fetch, the parse, every save_level (each level within the signed 64-bit range) and mark_processed complete; the levels saved before a failing write stay saved; the url is marked only on success |
| Crawler.SaveAllTouchesOnlyItsLevels | parser.py:153-154 | the saves add exactly the saved levels as keys and leave every other row alone |
| Crawler.SaveAllLastWriteWins | parser.py:153-154 | a level's row is the one written by the last entry for that level |
| Crawler.RetryAfterPartialSaveConverges | parser.py:150-160 | a worker retried after a partial save leaves the levels table as one complete run would |
| Crawler.Crawler.Dispatch | parser.py:188-198 | the dispatched urls are exactly the unprocessed ones, each once; each outcome is that url's success; a dispatched url is processed afterwards iff its worker succeeded, so a failed one stays pending for the next run; every other url keeps its flag; the levels table is the saves of all runs |
| Crawler.Crawler.Crawl | parser.py:162-198 | stops only when the ledger is empty and the start page fails; seeds the ledger only when it is empty; the thread count is ClampThreads; then dispatches exactly the unprocessed urls of the seeded ledger, each once, and marks each iff its worker succeeded |
| Crawler.NoReseeding | parser.py:169-175 | a ledger that holds rows is never re-seeded |
| Crawler.FirstRunSeedsLevelLinks | parser.py:173-175 | on a first run the ledger holds exactly the start page's level links, all unprocessed |
| Crawler.ClampThreads | parser.py:178-185 | the thread count is always between 1 and 10 |
| Crawler.ClampThreadsOfNumber | parser.py:178-185 | typing n gives n when 1 <= n <= 10, 1 below that range and 10 above it |
| Numerals.ParsePythonInt | parser.py:115 | `int(s)` (here and on the thread count at line 179): an optional sign and decimal digits between whitespace, None (ValueError) otherwise; it reads back every `str(n)` by IntToStringParses |
| Numerals.IntToStringParses | parser.py:179 | `int(str(n)) == n` for every integer |
| LevelPage.TitleLevel | parser.py:111-117 | the level of a heading title: None unless it starts with "Уровень" and its second token parses as an integer (characterised by TitleLevelReadsInt) |
| LevelPage.TitleLevelReadsInt | parser.py:112-115 | the level read from a title is `int()` of its second whitespace token |
| LevelPage.NextParagraph | parser.py:120 | the first paragraph after the heading, with no paragraph between them; None when there is none |
| LevelPage.FirstStrong | parser.py:126 | the first `<strong>` child; None exactly when there is none |
| LevelPage.FirstMetaSpan | parser.py:142 | the first `span.uk-text-meta` child; None exactly when there is none |
| Text.StripIsTrimmedSlice | parser.py:133 | `strip()` returns a slice of the string with only whitespace cut at either end and no whitespace left at either end |
| LevelPage.CollectTextNodes | parser.py:128-136 | the loop over the siblings after `<strong>` collects TextNodes: the stripped text nodes in order, with br, span and other nodes skipped |
| LevelPage.NonTextNodesIgnored | parser.py:130-136 | a br, span or other node between the siblings changes nothing in the collected text |
| LevelPage.NormalizeWords | parser.py:138 | every normalized word is non-empty, upper-case and stripped, and is the upper-cased strip of an input word |
| LevelPage.NormalizeConcat | parser.py:138 | the comprehension works word by word: the words of two lists come out in order, those of the first list first |
| LevelPage.NormalizeDropsBlanks | parser.py:138 | words that strip to nothing are dropped |
| LevelPage.NormalizeKeepsWords | parser.py:138 | words that are already non-empty, upper-case and stripped are kept, each once and in order |
| LevelPage.MainWords | parser.py:137-138 | the main words of the text after `<strong>`: joined with spaces, newlines and commas made spaces, split on whitespace, then stripped, upper-cased and blanks dropped (properties in MainWordsWellFormed, MainWordsOfWords, MainWordsOfCommaWords and MainWordsConcat) |
| LevelPage.BonusWords | parser.py:144-145 | the bonus words of the span text: joined with ",", newlines made spaces, split on ",", then stripped, upper-cased and blanks dropped (properties in BonusWordsWellFormed, BonusWordsOfWords and BonusWordsConcat) |
| LevelPage.MainWordsWellFormed | parser.py:137-138 | every main word is non-empty, upper-case, and has no whitespace or comma |
| LevelPage.BonusWordsWellFormed | parser.py:144-145 | every bonus word is non-empty, upper-case, stripped, and has no comma or newline |
| LevelPage.MainWordsOfWords | parser.py:137-138 | well-formed main words written into one text node with single spaces are read back exactly, in order |
| LevelPage.BonusWordsOfWords | parser.py:144-145 | well-formed bonus words written into the span as comma-separated text are read back exactly, in order; empty text gives no words |
| LevelPage.MainWordsOfCommaWords | parser.py:137-138 | well-formed main words separated only by commas in one text node are read back exactly, in order: a comma separates words as a space does |
| LevelPage.MainWordsConcat | parser.py:129-138 | the main words of several text nodes are the main words of each node in turn: every text node after `<strong>` contributes, none is dropped and no word runs across two nodes |
| LevelPage.BonusWordsConcat | parser.py:144-145 | the bonus words of several strings of the span are the bonus words of each string in turn: every string of the span contributes, in order |
| LevelPage.ParagraphWordsWellFormed | parser.py:126-147 | both word lists of the record built from one paragraph have those shapes |
| LevelPage.ReadParagraph | parser.py:126-147 | reading one paragraph gives ParagraphStep: Raise without `<strong>`, otherwise the record with the level, the main words and the bonus words |
| LevelPage.ReadHeading | parser.py:110-147 | one heading of the loop gives HeadingStep: skipped unless it is a level heading with a later paragraph |
| LevelPage.ParseLevelPage | parser.py:108-148 | the loop over the headings returns ExtractLevels of the page |
| LevelPage.LevelHeadingsExactly | parser.py:109-122 | LevelHeadings lists every level heading of the page and nothing else, each once, in increasing block order |
| LevelPage.RunFails | parser.py:110-147 | running the per-heading steps fails exactly when one of them raises, and the error names a step that raises |
| LevelPage.RunFollows | parser.py:110-147 | a successful run has one record per step that reads a heading, in order, each the record that step emits |
| LevelPage.ExtractFailsIffStrongMissing | parser.py:126-129 | extraction fails iff some level heading's paragraph has no `<strong>`, and the error names such a heading |
| LevelPage.EntriesFollowHeadings | parser.py:109-147 | a successful extraction has one record per level heading, in heading order, each with that heading's level number |
| LevelPage.ExtractedWordsWellFormed | parser.py:128-147 | every word of every extracted record has the main-word or bonus-word shape |
| Bot.JsParseInt | index.js:38 | `parseInt(s)` (here and on callback data at line 48): leading whitespace skipped, an optional sign, base 16 after "0x" and base 10 otherwise, then the longest run of digits; NaN when there is none (read back by JsParseIntOfDigits and JsParseIntOfIntToString) |
| Bot.JsParseIntOfDigits | index.js:38 | `parseInt` reads a non-empty decimal digit string as its decimal value |
| Bot.JsParseIntOfIntToString | index.js:48 | `parseInt` reads back the decimal text of every integer |
| Bot.LevelCommand | index.js:36-38 | the level of a `/l(\d+)` command, None for other text (characterised by LevelCommandExactly) |
| Bot.LevelCommandExactly | index.js:36-38 | a command matches iff it is "/l" plus one or more ASCII digits, and its level is their decimal value |
| Bot.LevelCommandRoundTrip | index.js:36-38 | the command for level n reads back as n |
| Bot.CallbackLevel | index.js:47-48 | the level named by "next:" data, None for other data (read back by NextButtonRoundTrip) |
| Bot.NextButtonRoundTrip | index.js:47-48 | the button of level n carries data that the callback handler reads as n + 1 |
| Bot.OtherCallbacksIgnored | index.js:47 | data without the "next:" prefix is ignored |
| Bot.RespondButton | index.js:72-101 | a level with no row gets only the not-found text and no button; a found level gets a button leading to level + 1 |
| Bot.RenderLevel | index.js:79-87 | the reply for a found row: the header, one bulleted line per main field, and the bonus section when the column is set and non-empty (properties in BonusShownIff and StoredRowRendersWords) |
| Bot.BonusShownIff | index.js:80-87 | the bonus section is appended iff the bonus column is non-null and non-empty, and the text is otherwise the header and the main lines |
| Bot.EmptyMainRendersOneBullet | index.js:79 | an empty main column renders as one "🔹 " line |
| Bot.BulletLines | index.js:79-81 | the bulleted lines split back at the newlines into one line per field |
| Bot.StoredRowRendersWords | index.js:79-87 | a row written by save_level renders one "🔹 w" line per main word in order, and a bonus section iff there are bonus words, with one "▫️ <i>w</i>" line per bonus word in order |
| Bot.DeletionIds | index.js:59-66 | the stored user id, the stored bot id and the pressed message's id, each when truthy, in that order (characterised by DeletionIdsExactly) |
| Bot.DeletionIdsExactly | index.js:59-66 | exactly the stored user and bot ids and the pressed message's id are deleted, each only when set and non-zero |
| Bot.ChatBot.Deletions | index.js:55-66 | the ids handleLevel deletes are DeletionIds of the chat's stored row and the pressed message |
| Bot.UpsertEffect | index.js:104-112 | after saveState exactly one row exists for the chat, holding both new values, and other chats are unchanged |
| Bot.ChatBot.SaveState | index.js:104-112 | the table becomes the upsert of the old table |
| Bot.AfterSend | index.js:96-101 | the message_state table after a send's follow-up, given whether the level was found (lines 73-75) (characterised by AfterSendEffect) |
| Bot.AfterSendEffect | index.js:73-75 | after a send, a found level always records the reply and the user id or NULL; a missing level records only when a user id is given; a failed send and other chats change nothing |
| Bot.ChatBot.Remember | index.js:96-101 | the follow-up of the send leaves the table as AfterSend says |
| Bot.ChatBot.HandleLevel | index.js:54-102 | deletes DeletionIds, replies with Respond of the level, and leaves the table as AfterSend says |
| Bot.ChatBot.OnText | index.js:36-40 | a level command is handled with the command's message as the user message; other text does nothing |
| Bot.ChatBot.OnCallback | index.js:42-52 | "next:" data is handled with the pressed message deleted; other data does nothing |
| Pipeline.ExtractedLevelRendersItsWords | parser.py:147 | a level extracted from a page and saved last for its level is found by the bot, with one "🔹 w" line per main word in page order, and a bonus section iff the level has bonus words |
| Pipeline.NoMainWordsShowsEmptyBullet | index.js:79 | a level stored with no main words shows a single empty bullet |

## Left out

- HTTP (`requests.get`, `raise_for_status`) is not modelled. A fetch is an input: a page of blocks, or a failure.
- BeautifulSoup is not modelled. A page is a flat sequence of sibling blocks.
  - `find("strong")` and `find("span", class_=...)` are searched among the paragraph's direct children only.
  - BeautifulSoup searches all descendants.
  - `get_text(strip=True)` of a heading and `get_text(separator=",")` of a span are given as strings.
- SQLite connection handling is not modelled: every statement is one step on a map.
  - In save_links, a per-url exception is caught and printed. The model has no failing insert.
- Threads are not modelled. The ThreadPoolExecutor and the `as_completed` order are replaced by running the workers one after another.
- `UnprocessedLinks` returns the unprocessed urls in an unspecified order, as SQLite does without ORDER BY.
- `time.sleep(random.uniform(...))`, `print`, the `input()` prompt and the bot's polling are I/O.
  - The typed line is an input, and None stands for a failed read.
- Telegram calls are not modelled. The model gives the ids to delete and the reply to send.
  - The id of the sent message is an input; None means the send failed.
  - Message interleaving between concurrent handlers is not modelled.
  - Errors that `deleteMessage` swallows are not modelled.
- The `/start` handler is left out. It sends a fixed greeting and touches no state.
- A callback query without data is left out. `data.startsWith` would throw there.
- Numerals.ParsePythonInt: does not model CPython's limit of 4300 digits for `int()` of a string. A longer heading number is read instead of skipped (parser.py:116-117), and a longer thread count is read instead of falling back to 5 (parser.py:184-185). For the same reason IntToStringParses also covers integers whose `str()` CPython refuses.
- `upper()` maps only ASCII letters and the basic Cyrillic block (U+0430–U+045F). Other characters are unchanged, unlike Python's full Unicode case mapping.
- Python's `int()` is modelled for an optional sign and ASCII digits. Underscores between digits and non-ASCII decimal digits are not accepted.
- JavaScript numbers are modelled as unbounded integers or NaN.
  - The precision loss of `parseInt` beyond 2^53, and exponent notation when printing huge numbers, are not modelled.
- A NaN level passed to better-sqlite3 is modelled as matching no row.
