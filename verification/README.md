# A verified model of a WhatsApp chatbot's decision logic

The bot answers WhatsApp messages with a language model. Around the network
calls it makes a number of decisions, and this project models them as pure
Dafny functions over immutable state. Time is an integer number of
milliseconds. Every outside service is a function parameter (an oracle):

- the chat models;
- speech-to-text;
- image description and OCR;
- web search;
- table rendering;
- PDF text extraction;
- WhatsApp sends and media downloads.

A hash is an uninterpreted function `Hash`, assumed injective where a
property needs it.

Modules, one per concern of the program:

- `CacheManager` (`cache_manager.dfy`): the 24-hour analysis cache.
  - Keys are `hash(type + ":" + input)`.
  - Expiry is strict.
  - `get` deletes an expired entry, `set` is last-write-wins, and a sweep keeps the live entries.
- `MessageManager` (`message_manager.dfy`): the per-chat admission guard around a reply.
  - A chat being answered, or answered less than 30 s ago, drops the trigger.
  - The busy flag is cleared on every exit.
  - The guard is a `Begin`/`Finish` state machine.
- `History` (`history.dfy`): the message handler.
  - The group gate and the classification of inbound messages by type.
  - The statistics it counts and the `/clear` command.
  - The loop that turns the fetched history into the model transcript.
- `Llm` (`llm.dfy`): `chat` with its tool loop.
  - The model is a scripted oracle, and fuel bounds the recursion.
  - It covers `<think>` stripping, the empty-answer apology, the single fallback request and the threading of the table image.
  - It also covers the cache read-through of `transcribeAudio` and `vision`, and how `vision` combines its two results.
- `LegacyAi` (`legacy_ai.dfy`): the older `chat`, which cuts reasoning and answer out of the reply with `split`.
- `Think` (`think.dfy`): the `<think>…</think>` markup shared by both, and lemmas about tagged replies.
- `Reminders` (`reminders.dfy`): the reminder manager.
  - `parseDuration` and `formatTimeLeft`.
  - Adding and clearing reminders.
  - The delivery pass.
- `Country` (`country.dfy`): `getCountryCodeFromPhone` over the calling-code table.
- `Stats` (`stats.dfy`): `updateStats` and `loadStats`'s fallback to the shared default object.
- `Tools` (`tools.dfy`): `webSearch`'s result shaping, the table column widths and the canvas size.
- `Privacy` (`privacy.dfy`): the consent store keyed by `hash(phone)`, and the consent gate in front of the handler.
- Supporting modules:
  - `Text` (`text.dfy`): the JavaScript string operations used (`trim`, `split`, `includes`, `startsWith`, `toLowerCase`, decimal digits, and `length` in UTF-16 code units).
  - `Wrappers` (`wrappers.dfy`): `Option` and `Result`.
  - `Hashing` (`hashing.dfy`): the hash type and injectivity.
  - `Conversation` (`conversation.dfy`): the transcript turn types.

JavaScript semantics the model keeps:

- `x ?? ""` and `x || ""`.
- `Math.max(undefined, n)` is `NaN`. A table row longer than the header gives a `NaN` width.
- An empty `tool_calls` array is truthy, so it starts a tool round.
- The recursive `chat` call is returned without `await`. Its failure is therefore not caught by the caller's fallback; it propagates.
- The tool branch declares its own `imageBuffer`. The fallback therefore returns the buffer the invocation received.
- Reminders added during a tool round stay added even when another call of the round fails.
- `addReminder` pushes the reminder before sending the confirmation, so a failed send throws but keeps the reminder.
- When the statistics file cannot be read, `loadStats` returns the shared `defaultStats` object and `updateStats` mutates it. Counts therefore accumulate in memory.

The history loop processes messages in the order the platform returns them.
The code does not reverse the fetched history (`src/index.ts:183-187`), and
the model follows the code on this.

Inbound statistics are keyed by the first two characters of the sender id.
These are bare digits without `+`, so the country lookup never matches and
the digits themselves become the key (`History.StatsKeyIsRawDigits`).

## Model

| member | source | states |
|---|---|---|
| CacheManager.Get | src/cacheManager.ts:83-97 | a live entry returns its data and leaves the cache alone; an expired entry returns nothing and removes exactly its key; a missing key returns nothing and changes nothing |
| CacheManager.Set | src/cacheManager.ts:99-108 | the key of (input, kind) now holds the new data, time and kind; every other key is unchanged |
| CacheManager.CleanExpired | src/cacheManager.ts:67-76 | keeps exactly the entries that have not expired, unchanged |
| CacheManager.Initialize | src/cacheManager.ts:35-47 | a missing or unreadable snapshot gives the empty cache; a parsed one keeps exactly its live entries, unchanged |
| CacheManager.KindsNeverCollide | src/cacheManager.ts:57-59 | a transcription key and an image key never coincide, whatever the inputs |
| CacheManager.KeyDeterminesInput | src/cacheManager.ts:57-59 | two inputs with the same key and kind are the same input |
| CacheManager.SetThenGetWithinTtl | src/cacheManager.ts:61-108 | data stored at t is returned by a lookup at any t' with t' - t <= 24 h, including exactly 24 h |
| CacheManager.SetThenGetAfterTtl | src/cacheManager.ts:61-97 | after more than 24 h the lookup misses and the entry is deleted |
| CacheManager.StoreDoesNotLeakAcrossKinds | src/cacheManager.ts:57-108 | storing a transcription never makes an image lookup of the same input hit |
| CacheManager.CleanExpiredIdempotent | src/cacheManager.ts:67-76 | sweeping twice at the same time is the same as sweeping once |
| CacheManager.InitializeKeepsLookups | src/cacheManager.ts:35-97 | loading a snapshot changes no lookup made at the load time or later |
| MessageManager.Begin | src/messageManager.ts:26-40 | an active chat or a non-zero reply time less than 30000 ms old drops the trigger without change; otherwise the chat is admitted and marked active; other chats are untouched |
| MessageManager.Finish | src/messageManager.ts:49-58 | the active flag is false after both exits; the reply time is recorded only when the callback completed; other chats are untouched |
| MessageManager.Handle | src/messageManager.ts:22-59 | a trigger is admitted exactly when the chat is neither active nor answered within 30 s; a dropped trigger changes nothing; an admitted one ends inactive; a completed callback records its end time as the reply time, and a throwing one leaves the reply times as they were |
| MessageManager.ClearCache | src/messageManager.ts:61-63 | removes that chat's reply time only |
| MessageManager.CleanupCache | src/messageManager.ts:66-73 | keeps exactly the reply times at most 30000 ms old, unchanged |
| MessageManager.CleanupKeepsAdmission | src/messageManager.ts:26-73 | the cleanup changes no admission decision at its own time or later |
| MessageManager.SecondTriggerDropped | src/messageManager.ts:29-31 | while a chat is being answered, every further trigger for it is dropped |
| MessageManager.QuietPeriodAfterReply | src/messageManager.ts:34-37 | after a completed reply at a non-zero time t, a trigger at t + d is admitted exactly when d >= 30000 |
| MessageManager.FailedReplyDoesNotBlock | src/messageManager.ts:49-58 | after a throwing callback the chat is admitted again at once |
| History.Content | src/index.ts:195-247 | a message without media is one text part holding its body; a failed download fails the message; at most one part |
| History.MediaContentByType | src/index.ts:197-240 | a transcript for voice, a data-URL image part for stickers and images, the `[PDF: …]` note for PDFs, nothing for other media and non-PDF documents, and a failure when the transcription, vision or PDF service fails |
| History.Contribution | src/index.ts:249-273 | no turn when processing failed; the bot's own message is an assistant turn with its raw body; any other message is a user turn, headed by `[author]` in a group |
| History.ContributionsAtMostOneEach | src/index.ts:187-274 | the turns of a stretch of history number at most its messages |
| History.AfterLastClearIsLastSuffix | src/index.ts:189-192 | the history that survives is the longest suffix without a `/clear` marker, preceded by a marker when it is not the whole history |
| History.NormalizeHistory | src/index.ts:183-274 | the loop builds exactly the turns of the messages after the last marker, in history order |
| History.ContributionsAppend | src/index.ts:187 | the transcript of two stretches is the first's turns followed by the second's: the loop does not reorder |
| History.AfterLastClearAppend | src/index.ts:189-192 | a marker in appended history hides everything before it; otherwise the appended part is kept in full |
| History.ClearHidesEarlierHistory | src/index.ts:189-192 | everything before a `/clear` marker is dropped from the transcript |
| History.FailedMessageSkipped | src/index.ts:269-273 | a message whose processing throws is skipped and the rest of the transcript is as without it |
| History.PlainHistoryOneTurnEach | src/index.ts:244-268 | text-only history gives exactly one turn per message, at its own position |
| History.OwnMessageIsAssistantTurn | src/index.ts:258-262 | the bot's own message becomes an assistant turn with its raw body, whatever its media |
| History.StatCode | src/index.ts:107 | the statistics code is the first two characters of the sender id, or the whole id when it is shorter |
| History.HandleInbound | src/index.ts:96-177 | a group message without a mention is ignored with nothing counted; a media failure takes the error path; unsupported types get their fixed notices; otherwise the extracted input's counts are kept, and the message is silent exactly when the input is empty, clears exactly when it starts with `/clear`, and goes to the model with that input otherwise |
| History.InputByType | src/index.ts:110-144 | text gives its body counted as a message; a voice note its transcript counted as audio, or a failure; image, sticker and document give "Image", "Sticker" and "Document" counted under their kind; other types give nothing; a failed download fails |
| History.FixedWordInputs | src/index.ts:120-177 | an image, sticker or document goes to the model as "Image", "Sticker" or "Document", counted under its kind |
| History.EmptyTextCountedButSilent | src/index.ts:131-167 | an empty text message is counted as a message yet gets no reply |
| History.TextMessage | src/index.ts:131-177 | a text message goes to the model with its body, or clears the chat when it starts with `/clear` |
| History.SpokenClearClearsChat | src/index.ts:113-177 | a voice note whose transcript starts with `/clear` clears the chat |
| History.FailedTranscriptionCountsNothing | src/index.ts:113-118 | a failed transcription takes the error path before anything is counted |
| History.StatsKeyIsRawDigits | src/index.ts:107 | for a sender id of digits, the statistics code is its first two digits and the country lookup leaves them as the key |
| Llm.RunTool | src/ai/llm.ts:187-225 | an unknown tool throws; web search uses country "US" when none is given and returns the search results; a table yields its image; a reminder goes through addReminder; only a table makes an image and only a reminder changes the list |
| Llm.RunTools | src/ai/llm.ts:185-226 | a successful round has one result per call; reminders are only ever added |
| Llm.RoundAnswersInOrder | src/ai/llm.ts:186-226 | the i-th tool result answers the i-th call, by id and name |
| Llm.ConsAnswers | src/ai/llm.ts:186-226 | a result answering the first call followed by results answering the rest answer all calls |
| Llm.RoundSucceedsWhenEveryCallDoes | src/ai/llm.ts:186-226 | a round whose every call succeeds, whatever reminder list it meets, succeeds, as `Promise.all` resolves once every call resolves |
| Llm.RoundFailsWhenACallFails | src/ai/llm.ts:186-226 | a round with a call that fails, whatever reminder list it meets, fails, as `Promise.all` rejects when any call throws |
| Llm.BadCallFailsRound | src/ai/llm.ts:186-226 | one unknown tool or unparsable argument text fails the whole round |
| Llm.NoTableNoImage | src/ai/llm.ts:185-202 | a round without a table call passes on no image |
| Llm.OnlyRemindersChangeList | src/ai/llm.ts:209-216 | a round without reminder calls leaves the reminder list unchanged |
| Llm.LastTableWins | src/ai/llm.ts:200-202 | when the last call is a successful table call, its image is the one passed on |
| Llm.StripThink | src/ai/llm.ts:242-246 | text without `<think>` is kept; otherwise the answer is the trimmed text between the first and second `</think>` (or to the end), and a missing `</think>` throws |
| Llm.ApologiesNotBlank | src/ai/llm.ts:248-286 | neither fixed apology is blank |
| Llm.Fallback | src/ai/llm.ts:258-289 | one request without tools; a blank result becomes the fixed error message, any other is returned raw; the image is the one this invocation received |
| Llm.Chat | src/ai/llm.ts:77-290 | the final transcript extends the given one; reminders are only added; a returned answer is never blank; a thrown exchange means the fallback failed; an answer from the first request keeps the image passed in |
| Llm.ToolRoundContinues | src/ai/llm.ts:184-239 | a tool round continues with the old transcript, one assistant turn carrying the calls and one result per call, passing on the round's image |
| Llm.BadToolFallsBack | src/ai/llm.ts:224-289 | an unknown tool sends the exchange to the fallback with the current transcript |
| Llm.PrimaryFailureFallsBack | src/ai/llm.ts:82-289 | a primary request that throws is answered by the fallback on the same transcript |
| Llm.PlainAnswer | src/ai/llm.ts:242-257 | an answer without tools or `<think>` is returned unchanged, or replaced by the apology when it is blank or missing |
| Llm.ReasonedAnswer | src/ai/llm.ts:242-257 | a tagged reply whose parts contain neither tag is answered with its trimmed answer part, or the apology when that is blank |
| Llm.UnclosedMarkupFallsBack | src/ai/llm.ts:244-258 | a reply that opens `<think>` without closing it goes to the fallback |
| Llm.EndlessToolRequests | src/ai/llm.ts:184-239 | a model that asks for tools on every request, with every round succeeding, never produces an answer |
| Llm.TranscribeAudio | src/ai/llm.ts:292-316 | a non-empty cached transcript of the audio's digest is returned without calling the service; otherwise the service's text is returned and stored, and a failing service leaves the cache as the lookup left it |
| Llm.TranscriptionReused | src/ai/llm.ts:292-316 | a transcript obtained once is served from the cache for 24 hours |
| Llm.Combine | src/ai/llm.ts:367-375 | the description, then a blank line and the OCR text when both are present; either alone when the other is empty |
| Llm.Vision | src/ai/llm.ts:318-380 | a non-empty cached result is returned without calling the services; otherwise both are asked and their results combined, with the OCR text trimmed; a success is stored under the URL and a failure stores nothing |
| Llm.AnalysisReused | src/ai/llm.ts:318-380 | a non-empty analysis obtained once is served from the cache for 24 hours, whatever the services say then |
| Llm.EmptyAnalysisNotReused | src/ai/llm.ts:322-325 | when both services answer with nothing the result is the empty analysis, which is stored but never served again |
| LegacyAi.Thinking | src/ai.ts:34 | empty without `<think>`; otherwise the text after the first `<think>` up to the next `<think>` or `</think>`, whichever comes first |
| LegacyAi.Answer | src/ai.ts:35 | empty when the reply has no `</think>`, even for a non-empty reply; otherwise the trimmed text between the first and second `</think>` (or to the end) |
| LegacyAi.LegacyChat | src/ai.ts:33-36 | a missing content gives an empty answer and thinking |
| LegacyAi.TaggedReplySplits | src/ai.ts:33-36 | `<think>t</think>a` splits into reasoning t and answer trim(a) whenever t and a contain neither tag |
| LegacyAi.PlainReplyHasNoAnswer | src/ai.ts:34-35 | a reply containing neither tag has an empty answer and reasoning, however long it is |
| LegacyAi.UnclosedReasoning | src/ai.ts:34-35 | with `<think>` but no `</think>`, everything after the tag is the reasoning and the answer is empty |
| Think.AfterClose | src/ai/llm.ts:245 | the piece exists exactly when `</think>` occurs, and it is the text between the first and second `</think>` (or to the end) |
| Think.TaggedParts | src/ai/llm.ts:244-245 | in `<think>t</think>a`, with neither tag in t or a, the opening tag is at the start, the first closing tag right after t, and the piece after it is a |
| Think.OpensTagged | src/ai/llm.ts:244 | the first `<think>` of a tagged reply is at its start, and what follows it is the reasoning, the closing tag and the answer |
| Think.ClosesTagged | src/ai/llm.ts:245 | when the reasoning has no `</think>`, the first `</think>` of a tagged reply comes right after the reasoning |
| Think.TaggedBody | src/ai.ts:34 | in `t</think>a`, with neither tag in t or a, there is no opening tag and the first closing tag ends t |
| Reminders.ParseDuration | src/managers/reminderManager.ts:63-84 | accepts exactly digits followed by d, h or m in either case, giving the count times 86400000, 3600000 or 60000; anything else fails with the format message |
| Reminders.ParseWritten | src/managers/reminderManager.ts:63-84 | a written count followed by a unit letter parses to that count of the unit |
| Reminders.Decompose | src/managers/reminderManager.ts:86-93 | days, hours under 24 and minutes under 60 whose total is within a minute below the input |
| Reminders.DecomposeUnique | src/managers/reminderManager.ts:86-93 | that decomposition is the only one |
| Reminders.Parts | src/managers/reminderManager.ts:95-98 | one part per non-zero count, in the order days, hours, minutes, each "n unit" with "s" above one; none exactly when all counts are zero |
| Reminders.FormatTimeLeft | src/managers/reminderManager.ts:86-101 | the text is empty exactly below one minute |
| Reminders.FormatSpan | src/managers/reminderManager.ts:86-101 | a span with hours under 24 and minutes under 60 prints as its non-zero parts joined by ", " |
| Reminders.DayAndFiveMinutes | src/managers/reminderManager.ts:86-101 | a day and five minutes print as "1 day, 5 minutes" |
| Reminders.FormatDays | src/managers/reminderManager.ts:86-101 | whole days print as "n day", with "s" only above one |
| Reminders.ParseThenFormatDays | src/managers/reminderManager.ts:63-101 | formatting the parse of "nd" gives "n day(s)" |
| Reminders.FormatHoursMinutes | src/managers/reminderManager.ts:95-100 | hours and minutes print as two parts joined by ", " |
| Reminders.NinetyMinutesParse | src/managers/reminderManager.ts:63-80 | "90m" parses to 90 minutes |
| Reminders.NinetyMinutesFormat | src/managers/reminderManager.ts:86-101 | 90 minutes print as "1 hour, 30 minutes" |
| Reminders.Confirm | src/managers/reminderManager.ts:122-134 | succeeds with the id when there is no client or the send is delivered; a failure carries the "Failed to set reminder: " prefix |
| Reminders.AddReminder | src/managers/reminderManager.ts:103-135 | a bad duration leaves the list and fails with the prefixed format message; a good one appends exactly one un-notified reminder due at now + duration and sends the confirmation |
| Reminders.AddedReminderLifecycle | src/managers/reminderManager.ts:103-177 | an added reminder stays until its time, is delivered and dropped by a pass at or after that time whose send succeeds, and is removed by clearing its number |
| Reminders.ClearUserReminders | src/managers/reminderManager.ts:137-142 | keeps exactly the reminders of other numbers |
| Reminders.ClearUserRemindersAppend | src/managers/reminderManager.ts:137-142 | clearing distributes over concatenation, so the kept reminders stay in order |
| Reminders.CheckReminders | src/managers/reminderManager.ts:154-177 | without a client nothing changes; otherwise exactly the un-notified due reminders are sent, and the list keeps exactly the un-notified ones not delivered |
| Reminders.CheckRemindersAppend | src/managers/reminderManager.ts:158-175 | a pass works piecewise: the kept list and the delivered list keep the order and multiplicity of the original list |
| Reminders.SweepMembers | src/managers/reminderManager.ts:158-175 | with a client, the pass keeps exactly the un-notified reminders not delivered, and delivers exactly the due ones whose send succeeded |
| Reminders.NoNotifiedAfterPass | src/managers/reminderManager.ts:174-175 | no notified reminder remains after a pass |
| Reminders.NotDueKept | src/managers/reminderManager.ts:158-160 | a reminder not yet due survives the pass |
| Reminders.CheckRemindersIdempotent | src/managers/reminderManager.ts:154-177 | a second pass at the same time with the same sends changes nothing |
| Country.CleanRemovesSeparators | src/utils.ts:61 | no separator remains, and a number without separators is unchanged |
| Country.CleanCons | src/utils.ts:61 | cleaning a text drops its first character exactly when that character is a space, dash or parenthesis, and cleans the rest the same way |
| Country.CleanAppend | src/utils.ts:61 | cleaning distributes over concatenation, so the kept characters stay in order |
| Country.CleanChar | src/utils.ts:61 | a separator is dropped and any other character kept |
| Country.CleanDigitsAndSeparators | src/utils.ts:61 | digits mixed with separators clean to digits only |
| Country.GetCountryCodeFromPhone | src/utils.ts:59-83 | a country exactly when the number after `+` or `00` is non-empty and starts with a calling code of 1 to 3 digits; the longest such code decides |
| Country.CleanPlusDigits | src/utils.ts:61-70 | a `+` followed by digits is clean and its numeric part is the digits |
| Country.NoThreeDigitCodes | src/utils.ts:6-52 | the table has no three-digit code |
| Country.SpanishNumbers | src/utils.ts:15-83 | every `+34` number maps to "ES" |
| Country.SeparatedSpanishNumbers | src/utils.ts:59-83 | a `+34` number maps to "ES" however spaces, dashes and parentheses are placed in it |
| Country.FormattedSpanishNumber | src/utils.ts:59-83 | "+34 600-123-456" maps to "ES" |
| Country.BarePrefixHasNoCountry | src/utils.ts:72 | `+` or `00` alone has no country |
| Country.ShortDigitStringHasNoCountry | src/utils.ts:63-72 | a string of at most two digits has no country: it lacks a `+`, and `00` leaves nothing after the prefix |
| Stats.UpdateStats | src/stats.ts:68-95 | only the total of the given type rises by one; the key is the country or the raw code; a new key starts at zero; only that key's counters change |
| Stats.LoadStats | src/stats.ts:47-56 | the file's contents, or the shared default object when it cannot be read |
| Stats.RecordEvent | src/stats.ts:47-95 | the saved statistics are the update of the loaded ones; on an unreadable file the shared default object becomes the updated one |
| Stats.OtherKindsOnlyCreateEntry | src/stats.ts:75-92 | a kind other than message, audio or image changes no counter but creates the country entry |
| Stats.UnreadableFileAccumulates | src/stats.ts:28-56 | with an unreadable file two messages in a row save a total of two |
| Tools.WebSearch | src/tools.ts:18-70 | a missing key or failed request gives the single search error; otherwise the web results come first, marked web, then the news results when the query is news-breaking, marked news with no snippets |
| Tools.CalculateColumnWidths | src/tools.ts:165-184 | one width per column; each is the largest of 100, ten per UTF-16 code unit of the header and ten per code unit of each cell's text; a cell beyond the headers gives NaN |
| Tools.HeaderWidths | src/tools.ts:166-171 | each header column is the larger of 100 and ten per code unit of the header |
| Tools.AddRow | src/tools.ts:174-180 | one row raises each of its columns to its cell's width and adds NaN for cells beyond the columns |
| Tools.CellText | src/tools.ts:178 | a text cell is itself; an integer cell is its decimal digits, with a leading minus when negative |
| Tools.AstralHeaderWidth | src/tools.ts:169-171 | a header of astral characters such as emoji counts twenty pixels per character |
| Tools.NumberCellWidth | src/tools.ts:175-179 | an integer cell is ten pixels per digit plus ten for a minus sign |
| Tools.TableDimensions | src/tools.ts:74-85 | the height is the title height, 40 and 35 per row; the width is the sum of the UTF-16 column widths plus 20, at least 100 per header, and NaN when a row is longer than the header |
| Tools.TotalOfHeaderColumns | src/tools.ts:82-83 | the sum of header columns is at least 100 per column |
| Tools.TotalWithNaN | src/tools.ts:82-83 | one NaN width makes the total NaN |
| Tools.RowsInsideCanvas | src/tools.ts:84-126 | every row band lies inside the canvas height |
| Text.Utf16Length | src/tools.ts:170-178 | the JavaScript length lies between the number of characters and twice that |
| Text.Utf16LengthCounts | src/tools.ts:170-178 | the JavaScript length is the number of characters plus the number of astral characters |
| Text.Utf16LengthBmp | src/tools.ts:170-178 | without astral characters the JavaScript length is the number of characters |
| Text.Utf16LengthAstral | src/tools.ts:170-178 | with astral characters only it is twice the number of characters |
| Privacy.Initialize | src/managers/privacyManager.ts:29-41 | a missing or unreadable file gives the empty store |
| Privacy.HasAcceptedPolicy | src/managers/privacyManager.ts:55-58 | true exactly when the number's digest is stored with the policy accepted |
| Privacy.MarkPolicyAccepted | src/managers/privacyManager.ts:60-67 | the number's digest now holds an accepted record; other digests are unchanged |
| Privacy.ConsentGate | src/index.ts:60-66 | a sender who has not accepted gets the notice; the sender is marked only when the notice was delivered, and a failed send leaves the store unchanged; every other sender's record is kept and no other key is added |
| Privacy.MarkAll | src/managers/privacyManager.ts:60-67 | marking several numbers accepts all of them and keeps earlier acceptances |
| Privacy.NeverMarkedNotAccepted | src/managers/privacyManager.ts:29-67 | starting from an unreadable or missing file, a number never marked has not accepted |
| Privacy.MarkAllKeepsOthers | src/managers/privacyManager.ts:60-67 | marking other numbers does not change a number's answer |
| Privacy.MarkThenHas | src/managers/privacyManager.ts:55-67 | after marking, the number has accepted |
| Privacy.MarkIsLocal | src/managers/privacyManager.ts:51-67 | marking one number does not change another's answer |
| Privacy.MarkKeepsDigestKeys | src/managers/privacyManager.ts:51-62 | the stored keys stay digests of the marked numbers, never the numbers themselves |
| Privacy.MarkTwiceSameAnswer | src/managers/privacyManager.ts:60-67 | marking twice answers like marking once |
| Privacy.NoticeShownOnce | src/index.ts:60-66 | a new sender whose notice is delivered sees it once, and the next message goes through |
| Privacy.UndeliveredNoticeRepeats | src/index.ts:60-66 | a notice whose send fails is shown again with the next message |

## Left out

- Network services are parameters, not models. This covers the chat models, speech-to-text, image description, OCR, the Brave search request, table drawing, PDF text extraction, media download and WhatsApp sends. The model names, prompts and system prompt carry no logic.
- Asynchronous interleaving of handlers and the 3-second typing delay are left out. The guard is modelled as sequential `Begin`/`Finish` steps.
- The hourly and per-minute timers (`setInterval`) are left out. The sweep and the delivery pass are modelled as the functions the timers call.
- File persistence and JSON are left out. Only the outcome of a read or parse is modelled: contents, or the empty or default value on failure. Saving is assumed to happen after every change.
- SHA-256 is an uninterpreted function, assumed injective where a lemma says so.
- `Math.random` is a parameter: the reminder id is a parameter. The fallback model choice and the 10 % sponsor message are left out.
- The whitelist module and the admin `/add` command (src/index.ts:69-92) are not part of this model.
- The handler's own error path after a failure is not modelled: clearing the chat and the apology reply (src/index.ts:298-322). It appears only as the `Failed` action.
- The final reply with the answer and the optional image (src/index.ts:276-296) is not modelled.
- Incoming-call rejection (src/index.ts:324-359) is not modelled.
- The privacy policy text is not modelled.
- Llm.Chat: the unbounded recursion of tool rounds is bounded by a `fuel` parameter. Running out of fuel is a separate outcome the source does not have.
- Conversation.Args: a missing string argument of a tool call is read as the empty string. In JavaScript it is `undefined`, so a search without `query` runs for the text "undefined" (the web search schema lists `queries`, not `query`, as required), and a reminder without `message` is stored and sent as "undefined". No property here depends on the difference.
- Llm.RunTools: the calls of one round run concurrently in the source. The model runs them in call order. When several table calls succeed, the image kept is the last in call order, whereas the source keeps the last to finish.
- The MIME type used for data URLs and the PDF test is the downloaded media's, as in the code, so the message record carries none.
- History.Content: a download that resolves to `undefined` is not distinguished from one that throws.
- History.HandleInbound:
  - Privacy and whitelist checks come before it and are modelled separately (`Privacy.ConsentGate`).
  - The media transcription in the inbound path is an oracle. Its cache effect is modelled once, in `Llm.TranscribeAudio`.
- History.NormalizeHistory: the transcription and vision calls in the history loop are oracles. Their cache effects are modelled in `Llm.TranscribeAudio` and `Llm.Vision`.
- Reminders.ParseDuration: `toLowerCase` is modelled on ASCII letters only. `parseInt` is modelled exactly, with no loss of precision above 2^53.
- Text.ToLower: ASCII lower-casing only.
- Tools.CellText: number cells are integers. Fractional numbers, and numbers of 10^21 or more that JavaScript prints in exponent form, are not modelled.
