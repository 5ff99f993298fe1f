# Drone AI Studio chat core, in Dafny

This project models, in Dafny, the sequential logic of the Drone AI Studio chat application, and proves properties of the model:

- **Canned-response resolver** (`generateAIResponse`). It works over a table from language to topic to text, and, when no topic is given, over an ordered, case-insensitive keyword chain.
- **`/api/chats/:id/respond` handler.** It validates the chat id and stores the answer as one assistant message.
- **In-memory store `MemStorage`.** A class with three maps and three id counters, offering create, read, update and sorted listing.
- **Client helpers.** These are the quick-topic table, the client's copy of the keyword chain, and the relative-time label.
- **Client stream consumer** inside the chat page's `getAIResponseMutation`. It is built from chunks, lines split on `\n`, `data: ` events, and `onError`. Around it sit the new-chat title and the quick-topic questions.
- **Typewriter renderer.** It has a reveal tick and a reset, which form a state machine, and `formatContent`, which splits text into paragraphs, lines and `**…**` parts.
- **Chat input controller.** It covers the 2000-character cap, sending of trimmed, non-blank input, Enter handling, and the welcome, live-bubble and typing-dot conditions.
- **Serverless entry helpers.** These are the allowed-origins list, the CORS decision, the log-line truncation and the run-once start-up.

Files, one module each:

| file | module | models |
|---|---|---|
| `wrappers.dfy` | `Wrappers` | `Option` |
| `text.dfy` | `Text` | `toLowerCase` (ASCII), `includes`, `startsWith`, `split`/`join` with a string separator, ECMAScript `trim` |
| `responses.dfy` | `Responses` | `generateAIResponse` (server/routes.ts) |
| `routes.dfy` | `Routes` | the `/respond` handler (server/routes.ts) |
| `storage.dfy` | `Storage` | `MemStorage` (server/storage.ts) |
| `chat_utils.dfy` | `ChatUtils` | client/src/lib/chat-utils.ts |
| `chat_page.dfy` | `ChatPage` | client/src/pages/chat.tsx |
| `streaming_message.dfy` | `StreamingMessage` | client/src/components/streaming-message.tsx |
| `chat_interface.dfy` | `ChatInterface` | client/src/components/chat-interface.tsx |
| `api.dfy` | `Api` | server/api.ts |

How the program's pieces are represented:

- **Variables of the source become parameters.**
  - Clock readings (`new Date()`, `Date.now()`) are integer millisecond parameters. `createMessage` reads the clock twice, so it takes two readings.
  - `process.env.ALLOWED_ORIGINS` is an `Option<string>` parameter.
  - `JSON.parse` of an event payload is an oracle `parse: string -> Payload`.
  - A reply body is a sequence of already decoded chunks.
  - Whether a promise rejects is a boolean parameter.
- **Stateful parts become classes.** These are `MemStorage`, the chat page's streaming state, the typewriter, the input box and the serverless entry's `handler`/`initPromise`. Their methods state the whole new state.
- **Pure parts become functions.** They are specified by reference definitions and lemmas.
- **A map's iteration order becomes the order of its ids.** A JavaScript `Map` iterates in insertion order. The store inserts ids 1, 2, 3, … and never deletes, so `Array.from(map.values())` is the values in ascending id order (`Storage.InKeyOrder`).
- **A sort becomes `Storage.SortBy`.** `Array.prototype.sort` is stable, so the model is a stable insertion sort. It is proved sorted, a permutation, and order-preserving among equal keys.

## Model

| member | source | states |
|---|---|---|
| Text.ToLowerIdempotent | server/routes.ts:127 | lower-casing a lower-cased string changes nothing |
| Text.ToLower | server/routes.ts:127 | the same length, every character lower-cased |
| Text.Contains | server/routes.ts:133 | definition of `includes` by recursion (characterised by `ContainsIff`) |
| Text.ContainsIff | server/routes.ts:133 | `includes` holds exactly when the word occurs at some position |
| Text.Split | server/api.ts:27 | `split` with a non-empty separator gives at least one piece; joining the pieces back gives the input; no piece contains the separator |
| Text.SplitWithoutSeparator | client/src/pages/chat.tsx:104 | a string without the separator splits into itself alone |
| Text.TrimSpec | client/src/components/chat-interface.tsx:53-54 | `trim` gives a slice of the input; everything removed is whitespace; the result has none at either end; it is empty exactly when the input is all whitespace |
| Text.Trim | client/src/components/chat-interface.tsx:53 | definition of `trim` as a slice between the first and last non-whitespace characters (characterised by `TrimSpec`) |
| Text.TrimIdempotent | client/src/components/chat-interface.tsx:53-54 | trimming twice is trimming once |
| Responses.LanguageTable | server/routes.ts:126 | a known code (en, hi, te, ta, kn, ml, bn, mr) selects its own table; any other code selects the English one; every table has `default` and only non-empty texts |
| Responses.TableFacts | server/routes.ts:92-124 | the response table has exactly the eight languages and every table is well formed |
| Responses.TopicOrDefault | server/routes.ts:130 | a present entry answers; a missing one falls back to the same table's `default`; the answer is non-empty and one of the table's texts |
| Responses.FirstMatchingTopic | server/routes.ts:133-145 | reference definition of the chain: the topic of the first group with a keyword in the text, with no earlier group matching; none exactly when no group matches |
| Responses.KeywordResponse | server/routes.ts:133-147 | the if/else keyword chain; its answer is non-empty and one of the table's texts |
| Responses.KeywordResponseIsFirstMatch | server/routes.ts:133-147 | the server's if/else chain answers with the first-match topic's entry, or `default` when no group matches |
| Responses.GenerateAIResponse | server/routes.ts:91-148 | total; the answer is non-empty and one of the selected language table's texts |
| Responses.UnknownLanguageUsesEnglish | server/routes.ts:126 | an unknown language answers exactly as "en" does |
| Responses.TopicIgnoresMessage | server/routes.ts:129-131 | with a truthy topic the message text plays no part, and the answer is the topic's entry or `default` |
| Responses.NoTopicIsFirstMatch | server/routes.ts:129-147 | with no topic (or an empty one) the answer is the first-match topic's entry over the lower-cased message, or `default` |
| Responses.CaseInsensitive | server/routes.ts:127 | the answer depends on the message only through its lower-cased form |
| Responses.AssemblyMentionMatchesTopic | server/routes.ts:133-134 | a message mentioning "assembly" answers as the explicit assembly topic does |
| Responses.AssemblePartsExample | server/routes.ts:133-136 | "assemble parts" matches two groups and the earlier one, assembly, answers |
| Responses.HindiMissingTopicFallsBackToHindi | server/routes.ts:129-130 | Hindi with topic components (absent in the Hindi table, lines 102-105) answers with the Hindi default, not the English entry |
| Responses.UnknownCodeExample | server/routes.ts:126 | code "xx" with an empty message answers with the English default |
| Responses.NoKeywordGivesDefault | server/routes.ts:147 | no keyword and no topic: the language's own `default` |
| Routes.Respond | server/routes.ts:61-85 | NaN id: 400 "Invalid chat ID" and the store unchanged; missing message text: 500 and the store unchanged; otherwise exactly one new assistant message whose content is the resolver's answer, with metadata `{language, topic}` (`language` defaulting to "en"), and the chat's `updatedAt` refreshed when the chat exists |
| Routes.RespondTwice | server/routes.ts:74-81 | two answers to one chat get consecutive ids, are both stored and have the same content |
| Storage.OrElse | server/storage.ts:58 | JavaScript's or-fallback on a string: a non-empty string is kept, an absent or empty one gives the fallback |
| Storage.InKeyOrder | server/storage.ts:68 | the values of a map holding ids 1 … n-1, listed in id order |
| Storage.InKeyOrderValues | server/storage.ts:41 | listing the values in id order loses and invents nothing |
| Storage.InsertKeepsOrder | server/storage.ts:68-70 | inserting into a sorted sequence keeps it sorted |
| Storage.InsertMultiset | server/storage.ts:68-70 | insertion adds exactly the one element |
| Storage.WithKeyInsert | server/storage.ts:68-70 | an inserted element goes after every element with an equal key (stability) |
| Storage.WithKeyAppend | server/storage.ts:68-70 | the elements with one key, taken from `s + [x]`, are those of `s` followed by `x` if its key matches |
| Storage.SortBy | server/storage.ts:68-70 | the stable sort: sorted by key, a permutation of the input, and elements with equal keys in their input order |
| Storage.SortedMembers | server/storage.ts:68-70 | a permutation has the same members |
| Storage.OfChat | server/storage.ts:111 | the filter keeps exactly the messages of the chat |
| Storage.FindByUsername | server/storage.ts:41-43 | `find`: the first element with that username, with none before it; none exactly when no element has it |
| Storage.MemStorage.constructor | server/storage.ts:27-34 | empty maps and all three counters at 1 |
| Storage.MemStorage.GetUser | server/storage.ts:36-38 | a user exactly for the ids handed out, and the stored one |
| Storage.MemStorage.GetUserByUsername | server/storage.ts:40-44 | the stored user with that name and the lowest id, or none exactly when no user has the name |
| Storage.MemStorage.CreateUser | server/storage.ts:46-51 | the current user id is used and the counter is incremented; only the users map gains this one entry |
| Storage.MemStorage.CreateChat | server/storage.ts:53-65 | a fresh id; both timestamps from the one clock reading; language as given, or "en" when absent or empty; only the chats map gains this one entry |
| Storage.MemStorage.GetChats | server/storage.ts:67-71 | every stored chat and nothing else, most recently updated first, equal times in insertion order |
| Storage.MemStorage.GetChatById | server/storage.ts:73-75 | the stored chat exactly for the ids handed out |
| Storage.MemStorage.UpdateChat | server/storage.ts:77-88 | unknown id: undefined and nothing changes; otherwise the old chat with the present updates applied and `updatedAt` set to the clock reading, under the same id, with nothing else changed |
| Storage.MemStorage.CreateMessage | server/storage.ts:90-107 | the message is always stored under a fresh id with its own clock reading; an existing chat (and only that one) gets `updatedAt` from a second reading; an unknown chat id is not rejected and leaves the chats unchanged |
| Storage.MemStorage.GetMessagesByChatId | server/storage.ts:109-113 | exactly the messages of that chat, oldest first, equal times in insertion order; empty when there are none |
| ChatUtils.QuickTopicIdsAreKeys | client/src/lib/chat-utils.ts:12-43 | every quick topic's `id` is its key |
| ChatUtils.QuickTopicsAreKeywordTopics | client/src/lib/chat-utils.ts:12-43 | the quick-topic keys are exactly the topics of the server's keyword groups |
| ChatUtils.ExtractTopicFromMessage | client/src/lib/chat-utils.ts:60-78 | any topic found is a quick-topic key |
| ChatUtils.ExtractTopicIsFirstMatch | client/src/lib/chat-utils.ts:61-77 | the client chain is the first-match rule over the same groups in the same order; undefined exactly when no keyword occurs in the lower-cased message |
| ChatUtils.ServerAnswersClientTopic | client/src/lib/chat-utils.ts:60-77 | without a topic, the server's answer is the language table's entry for the topic the client extracts, or `default` when the client finds none |
| ChatUtils.NatToString | client/src/lib/chat-utils.ts:52 | decimal digits, non-empty, no leading zero |
| ChatUtils.DecimalRoundTrip | client/src/lib/chat-utils.ts:52 | reading the printed number back gives the number |
| ChatUtils.FormatMessageTime | client/src/lib/chat-utils.ts:45-58 | definition of `formatMessageTime` over millisecond readings (its cases are stated by `FormatMessageTimeCases`) |
| ChatUtils.FloorHoursThenDays | client/src/lib/chat-utils.ts:48-49 | flooring to hours and then by 24 is flooring to days |
| ChatUtils.FormatMessageTimeCases | client/src/lib/chat-utils.ts:45-58 | under one hour (future dates included): "Just now"; under a day: whole hours; otherwise whole days, with "s" exactly when the count is over one |
| ChatUtils.JustNowExactlyUnderAnHour | client/src/lib/chat-utils.ts:51-57 | "Just now" exactly when the difference is under one hour |
| ChatUtils.HourExamples | client/src/lib/chat-utils.ts:53-54 | 90 minutes: "1 hour ago"; two hours: "2 hours ago" |
| ChatUtils.DayExamples | client/src/lib/chat-utils.ts:51-52 | one day: "1 day ago"; 50 hours: "2 days ago" |
| ChatUtils.FutureExample | client/src/lib/chat-utils.ts:55-56 | a date one second in the future: "Just now" |
| ChatPage.HandleLine | client/src/pages/chat.tsx:106-127 | reference definition of one line's effect: non-`data: ` lines and malformed or unknown payloads change nothing; content replaces the buffer; complete stops streaming, clears the buffer, requests invalidation and returns the message; error stops streaming and clears the buffer |
| ChatPage.HandleLines | client/src/pages/chat.tsx:103-128 | reference definition: the lines in order, stopping at the first that returns |
| ChatPage.HandleChunks | client/src/pages/chat.tsx:99-129 | reference definition: each chunk split on `\n` on its own, in order, stopping at the first return |
| ChatPage.NonDataLineIgnored | client/src/pages/chat.tsx:107 | a line without the `data: ` prefix changes nothing |
| ChatPage.MalformedPayloadIgnored | client/src/pages/chat.tsx:124-126 | a payload that does not parse changes nothing |
| ChatPage.LastContentWins | client/src/pages/chat.tsx:111-113 | content events replace the buffer; after a run of them it holds the last one's text |
| ChatPage.ErrorEventDoesNotStop | client/src/pages/chat.tsx:119-126 | an `error` event clears the state, its throw is swallowed by the same catch, and reading goes on |
| ChatPage.CompleteIsFinal | client/src/pages/chat.tsx:114-118 | once a chunk has returned, later chunks change nothing |
| ChatPage.CompleteLineIsFinal | client/src/pages/chat.tsx:114-118 | a `complete` line returns its message with streaming off, the buffer empty and invalidation requested, whatever lines follow |
| ChatPage.SplitDataLineIsDropped | client/src/pages/chat.tsx:103-107 | a `data: ` line cut inside its prefix across two chunks is lost |
| ChatPage.StreamOfNoChunks | client/src/pages/chat.tsx:78-79 | the stream starts with streaming on and an empty buffer |
| ChatPage.ChatPageState.constructor | client/src/pages/chat.tsx:66-67 | not streaming, empty buffer, no toast, no request |
| ChatPage.ChatPageState.OnError | client/src/pages/chat.tsx:131-139 | streaming off, buffer cleared, one more error toast |
| ChatPage.ChatPageState.ReadLine | client/src/pages/chat.tsx:106-127 | one line has the effect `HandleLine` defines, and returns the message of a `complete` event |
| ChatPage.ChatPageState.ReadChunk | client/src/pages/chat.tsx:103-128 | the lines of one chunk have the effect `HandleLines` defines, stopping at the first `complete` |
| ChatPage.ChatPageState.GetAIResponse | client/src/pages/chat.tsx:70-140 | streaming off: one legacy request and the streaming state untouched, `onError` on failure; streaming on: streaming on with an empty buffer, then the effect of `HandleChunks` over the chunks; `complete` resolves with its message; a missing body or a failed read runs `onError`; an ended stream resolves undefined with the state as last set |
| ChatPage.NewChatTitle | client/src/pages/chat.tsx:155 | up to 50 characters: the content itself; longer: its first 50 characters followed by "..." |
| ChatPage.NewChatTitleIdempotent | client/src/pages/chat.tsx:155 | deriving a title from a title changes nothing |
| ChatPage.TopicQuestionsAgreeWithQuickTopics | client/src/pages/chat.tsx:192-201 | the page's questions exist for exactly the quick-topic keys and equal the quick-topic table's questions |
| ChatPage.TopicQuestion | client/src/pages/chat.tsx:192-201 | definition of `topicQuestions`: one question for each of the six topics, none otherwise (compared with the quick topics by `TopicQuestionsAgreeWithQuickTopics`) |
| ChatPage.QuickTopicAnswer | client/src/pages/chat.tsx:191-205 | a quick topic's question, sent with its topic, is answered with that language's entry for the topic or its default |
| StreamingMessage.Tick | client/src/components/streaming-message.tsx:12-25 | speed 0 shows everything; otherwise, while characters remain, one more is shown; the shown text stays the prefix of the content; a complete state is left alone |
| StreamingMessage.ReplayProgress | client/src/components/streaming-message.tsx:17-21 | n ticks show the first min(index + n, length) characters |
| StreamingMessage.ReplayCompletesAfterLength | client/src/components/streaming-message.tsx:17-30 | after a reset the indicator shows for exactly the first `length` ticks, and then all the content is shown |
| StreamingMessage.LiveShowsAllAtOnce | client/src/components/streaming-message.tsx:13-16 | with speed 0 one run shows all the content and no indicator |
| StreamingMessage.IndicatorIffIncomplete | client/src/components/streaming-message.tsx:62-64 | the indicator shows exactly when not all of the content is displayed |
| StreamingMessage.Typewriter.constructor | client/src/components/streaming-message.tsx:8-10 | speed defaults to 30; nothing is shown yet |
| StreamingMessage.Typewriter.SetContent | client/src/components/streaming-message.tsx:8 | a new content prop leaves the reveal state as it was until the reset runs |
| StreamingMessage.Typewriter.ResetReveal | client/src/components/streaming-message.tsx:27-30 | a content change resets to nothing shown, index 0 |
| StreamingMessage.Typewriter.Step | client/src/components/streaming-message.tsx:12-25 | the first effect's run is one `Tick` |
| StreamingMessage.CloseFrom | client/src/components/streaming-message.tsx:43 | the lazy `.*?` stops at the first closing `**`, crossing no line terminator; none when every later `**` is past a terminator |
| StreamingMessage.MatchIsEmphasis | client/src/components/streaming-message.tsx:43 | a match is `**`, then text with no line terminator and no `**` starting inside it, then `**` |
| StreamingMessage.SplitFrom | client/src/components/streaming-message.tsx:43 | the split with a capture group has an odd number of parts, and every odd-numbered part is a match |
| StreamingMessage.SplitFromConcat | client/src/components/streaming-message.tsx:43 | the parts put back together give the text |
| StreamingMessage.PartsKeepText | client/src/components/streaming-message.tsx:43 | a line's parts put back together give the line |
| StreamingMessage.NoStarsOnePart | client/src/components/streaming-message.tsx:43 | a line without `**` is one part |
| StreamingMessage.EmphasisRendersStrong | client/src/components/streaming-message.tsx:44-49 | a match renders as bold text without its first and last two characters |
| StreamingMessage.RenderKeepsMarkup | client/src/components/streaming-message.tsx:44-51 | rendering a part loses nothing except for the parts `**` and `***`, which become empty bold text |
| StreamingMessage.LoneStarsVanish | client/src/components/streaming-message.tsx:43-49 | a line consisting of `**` is one part, rendered as empty bold text |
| StreamingMessage.ParagraphRoundTrip | client/src/components/streaming-message.tsx:38-43 | a paragraph's lines and parts put back together give the paragraph |
| StreamingMessage.SegmentationKeepsText | client/src/components/streaming-message.tsx:34-43 | splitting into paragraphs, lines and parts loses nothing |
| StreamingMessage.ShowsIndicator | client/src/components/streaming-message.tsx:62-64 | definition: the indicator shows while the index is short of the content's length (related to the displayed text by `IndicatorIffIncomplete`) |
| StreamingMessage.PartsOf | client/src/components/streaming-message.tsx:43 | a line's `split` on the emphasis pattern, always an odd number of parts (rejoined by `PartsKeepText`) |
| StreamingMessage.RenderPart | client/src/components/streaming-message.tsx:44-51 | definition of one part's rendering: a part starting and ending with `**` is bold without them, anything else plain (characterised by `EmphasisRendersStrong` and `RenderKeepsMarkup`) |
| StreamingMessage.Segmentation | client/src/components/streaming-message.tsx:34-43 | one entry per `\n\n` paragraph, each with at least one line (inverted by `SegmentationKeepsText`) |
| StreamingMessage.FormatContent | client/src/components/streaming-message.tsx:33-57 | the same paragraph, line and part shape as `Segmentation`, and each part rendered by `RenderPart` |
| StreamingMessage.OddPartsAreStrong | client/src/components/streaming-message.tsx:43-49 | every odd-numbered part of every line is a match and renders as bold |
| ChatInterface.SendDecision | client/src/components/chat-interface.tsx:52-58 | a send happens exactly when the trimmed input is non-empty and no answer is pending; the text sent is a non-empty, trimmed slice of the input |
| ChatInterface.SendEnabledIffSends | client/src/components/chat-interface.tsx:192 | the send button is enabled exactly when pressing it sends |
| ChatInterface.SendIsStable | client/src/components/chat-interface.tsx:53-54 | the sent text, typed again, would send the same text |
| ChatInterface.BlankNotSent | client/src/components/chat-interface.tsx:53 | whitespace-only input is never sent |
| ChatInterface.SendDisabled | client/src/components/chat-interface.tsx:192 | definition of the button's `disabled`: blank trimmed input or an answer pending (related to sending by `SendEnabledIffSends`) |
| ChatInterface.KeySends | client/src/components/chat-interface.tsx:60-65 | definition: Enter without Shift is the key that sends (used by `HandleKeyDown`) |
| ChatInterface.ShowWelcome | client/src/components/chat-interface.tsx:75 | definition of `showWelcome`: no chat id (null or 0) or no messages |
| ChatInterface.ShowLiveBubble | client/src/components/chat-interface.tsx:102-154 | definition: outside the welcome screen, streaming with non-empty text |
| ChatInterface.ShowTypingDot | client/src/components/chat-interface.tsx:102-169 | definition: outside the welcome screen, an answer pending and not streaming |
| ChatInterface.CounterWarns | client/src/components/chat-interface.tsx:203 | definition: the counter turns red above 1800 characters |
| ChatInterface.BubbleAndDotExclusive | client/src/components/chat-interface.tsx:102-158 | the live bubble and the typing dot are never shown together |
| ChatInterface.WelcomeShowsNoIndicator | client/src/components/chat-interface.tsx:102-113 | the welcome screen replaces the message list, so neither the live bubble nor the typing dot shows there |
| ChatInterface.PendingShowsOneIndicator | client/src/components/chat-interface.tsx:102-158 | outside the welcome screen, when `isAIResponding` is the pending flag or `isStreaming`, as the page passes it (chat.tsx:249), a pending request with text arrived shows exactly one of them |
| ChatInterface.ChatInput.constructor | client/src/components/chat-interface.tsx:39-40 | empty input, count 0 |
| ChatInterface.ChatInput.HandleInputChange | client/src/components/chat-interface.tsx:67-73 | a value of at most 2000 characters is taken; a longer one leaves input and count unchanged; the count always equals the length |
| ChatInterface.ChatInput.HandleSend | client/src/components/chat-interface.tsx:52-58 | sends the trimmed input exactly when it is non-blank and no answer is pending, then clears the box; otherwise nothing changes |
| ChatInterface.ChatInput.HandleKeyDown | client/src/components/chat-interface.tsx:60-65 | Enter without Shift is taken over and sends as `HandleSend` does; any other key changes nothing |
| Api.TrimmedNonEmpty | server/api.ts:27 | every kept element is non-empty with no surrounding whitespace |
| Api.TrimmedNonEmptyAppend | server/api.ts:27 | trimming and filtering distribute over concatenation, so the input order is kept |
| Api.TrimmedNonEmptyKeeps | server/api.ts:27 | a piece that trims to something non-empty is kept |
| Api.TrimmedNonEmptySource | server/api.ts:27 | everything kept is the trim of some piece |
| Api.TrimmedNonEmptyMembers | server/api.ts:27 | a string is kept exactly when it is non-empty and some piece trims to it |
| Api.ParseAllowedOrigins | server/api.ts:22-28 | undefined exactly when the variable is unset or empty; otherwise the comma pieces, trimmed, blanks dropped |
| Api.ChooseCors | server/api.ts:40-59 | restricted CORS only for a non-empty list, which is trimmed and blank-free; permissive otherwise |
| Api.RestrictedAdmitsListed | server/api.ts:44-49 | a restricted policy admits a browser origin exactly when some listed piece trims to it |
| Api.OriginAllowed | server/api.ts:44-49 | definition of the origin callback: no origin (or an empty one) is allowed, otherwise exactly the listed ones |
| Api.Admits | server/api.ts:40-59 | definition: the permissive policy admits everything, a restricted one what `OriginAllowed` allows |
| Api.UnsetIsPermissive | server/api.ts:55-58 | unset or empty variable: permissive, every origin admitted |
| Api.BlankListIsPermissive | server/api.ts:41 | ", ," parses to an empty list and CORS stays permissive |
| Api.TruncateLogLineAsWritten | server/api.ts:87-89 | the truncation as written: a short line unchanged; a long one its first 119 characters followed by the three-character suffix, 122 characters in all |
| Api.AsWrittenOverruns | server/api.ts:87-89 | with the three-character suffix as written, every truncated line has 122 characters |
| Api.AsWrittenOverrunsExample | server/api.ts:88 | a 121-character line becomes 122 characters |
| Api.TruncateLogLine | server/api.ts:87-89 | at most 120 characters; a short line is unchanged; a long one keeps its first 119 characters and ends with "…" |
| Api.TruncateIdempotent | server/api.ts:87-89 | truncating a truncated line changes nothing |
| Api.LogLine | server/api.ts:76-97 | a line is logged exactly for paths under `/api`, and never over the limit |
| Api.ShortLogLineIsWhole | server/api.ts:79 | a short line, without a body, starts with the method and the path |
| Api.Entry.constructor | server/api.ts:19-20 | no handler, no promise, no app built; the invariant `Valid` holds |
| Api.Entry.InitApp | server/api.ts:30-124 | returns at once when the handler is set; otherwise builds one app, and the handler is set exactly when route registration succeeds |
| Api.Entry.EnsureInit | server/api.ts:126-129 | the first call starts `initApp`; every later call returns that same settled promise and starts nothing; afterwards exactly one app has been built and the handler is set exactly when the promise fulfilled; keeps `Valid` |
| Api.Entry.Handle | server/api.ts:132-150 | forwarded exactly when start-up succeeded and the handler is set; otherwise 500 "Server initialization error"; keeps `Valid` |
| Api.FailedStartIsPermanent | server/api.ts:126-149 | a failed start-up is remembered: the next request gets the same error and no second app is built |
| Api.StartOnce | server/api.ts:126-142 | two requests on a fresh instance build one app and both are forwarded |

## Left out

- Text.LowerChar: `toLowerCase` is modelled for ASCII letters only; other scripts' case mappings are not modelled. The keywords are ASCII, so a non-ASCII capital can only matter when it lower-cases into an ASCII keyword letter (such as U+0130 or the Kelvin sign).
- Lengths: JavaScript counts UTF-16 code units and the model counts Unicode scalar values. They differ for characters outside the Basic Multilingual Plane. This affects the 2000-character cap, the 50-character title, the 120-character log limit and the typewriter's index.
- Responses: the answer texts are stand-in non-empty constants. Only which (language, topic) entries exist is kept: English has all six topics and `default`, Hindi has assembly and `default`, the other six languages only `default`.
- Responses.TopicOrDefault: the table is a finite map. A topic or language such as "constructor", which would reach `Object.prototype` in JavaScript, is not modelled.
- Responses: a `null` language coming from the request body is not modelled; the language is always a string.
- Routes.Respond: the request body is not validated. `userMessage` is either a string or absent, and the absent case stands for any non-string, on which `toLowerCase` throws. The `parseInt` prefix rule is reduced to a given number or NaN (`Routes.ParsedId`).
- The other routes in server/routes.ts and the zod schemas in `@shared/schema` are not part of this model. Neither are the `/respond-legacy` route the client calls and the streaming server the client expects: no source for either is shown. The client consumer is therefore modelled against abstract chunks.
- Storage: `Date` values are integer milliseconds, so Invalid Date and NaN comparisons are not modelled. The user record's extra fields and the `IStorage` interface are left out.
- Storage.SortBy: the engine's sort algorithm is replaced by a stable insertion sort. Only the result is claimed to agree, which is determined because the comparator is a consistent numeric order and `sort` is stable.
- ChatPage: the React and TanStack Query machinery is not modelled: hooks, render and effect scheduling, batching, `mutateAsync` ordering, pending flags, and cache invalidation. Invalidation is the flag `invalidateRequested`; the query key it uses, which captures a possibly stale `currentChatId`, is not modelled.
- ChatPage: `fetch`, `reader.read()` and `TextDecoder` become a sequence of decoded chunks plus a flag for a failing read. A multi-byte character split across chunks is not modelled. `JSON.parse` is the oracle `parse`. A `complete` event's `message` is taken as given.
- ChatPage: `handleSendMessage`'s orchestration (create a chat, send the user message, then ask for an answer) and the auto-select-first-chat effect are asynchronous glue. Only the title it derives (`ChatPage.NewChatTitle`) and the question lookup (`ChatPage.TopicQuestion`) are modelled.
- StreamingMessage: the `setTimeout` pacing and the clean-up of the timer are not modelled; a tick is one run of the first effect with its timer firing. The order in which React runs the two effects is left to the caller, which calls `Step` and `ResetReveal`. The mis-encoded indicator glyph on line 63 is presentation.
- StreamingMessage.FormatContent: the JSX (`<p>`, `<br/>`, `<strong>`, class names and keys) is reduced to the nested segment structure.
- ChatInterface: scrolling, the refs, the quick-topic buttons and the message list rendering are presentation. `ShowLiveBubble` and `ShowTypingDot` include the welcome-screen guard, because both indicators are drawn only inside the message list. `ShowWelcome` counts a chat id of 0 as no chat, as `!currentChatId` does.
- ChatInterface.ChatInput.HandleSend and ChatInterface.ChatInput.HandleKeyDown state the sent text as `Trim(old(inputValue))`. They do not restate `SendDecision`; `SendDecision`'s own contract and `SendEnabledIffSends` connect the two definitions.
- Api: the wiring is not part of this model: Express, body-parser, the CORS package, dotenv, serverless-http, the `res.json` interception and the global error handler. `JSON.stringify` is a given string; a stringify failure, which drops the body, is not modelled. `log` is always a function here.
- Api.LogLine: it uses the corrected truncation (see Findings).
- Api.Entry: concurrency between requests on one instance is not modelled. The promises are settled values, so two requests arriving while start-up is pending are not distinguished from sequential ones.

## Findings

| source | as written | input that shows it | evidently intended | confidence | as-written member | corrected member |
|---|---|---|---|---|---|---|
| server/api.ts:88 | a line over 120 characters becomes its first 119 characters and the suffix literal written on that line. The literal is three characters, the UTF-8 encoding of "…" read as Windows-1252, so the line ends up 122 characters long | any log line of 121 characters or more, e.g. 121 × "x" | a line of at most 120 characters ending in the one-character ellipsis "…" | not executed | Api.TruncateLogLineAsWritten, Api.AsWrittenOverruns | Api.TruncateLogLine |
