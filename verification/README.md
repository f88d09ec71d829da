# Chat backend model

A Dafny model of the backend of a Gen Z–oriented therapy chat application.
It covers five parts:

- **Conversation store** (`Store`). This models backend/src/database/init.ts: the
  `sessions` and `messages` tables, the AFTER INSERT trigger that keeps
  `message_count` and `updated_at` current, and `createSession`,
  `getSession`, `saveMessage`, `getMessages` and `getRecentSessions`.
- **AI service** (`AiService`, `Sentiment`). This models
  backend/src/services/aiService.ts:
  - vendor selection from `AI_PROVIDER`;
  - history turns and the system prompt, optionally personalised with the user's name;
  - the request each of the four adapters (Hugging Face, Groq, OpenAI, Ollama) sends, and how each reads the reply;
  - the catch block that classifies failures;
  - the greetings and the keyword sentiment analysis.
- **Web search** (`WebSearch`). This models backend/src/services/webSearch.ts:
  the DuckDuckGo result extraction, the therapeutic query and the fixed
  reference table.
- **Validation** (`Validation`). This models
  backend/src/middleware/validation.ts: the four Joi schemas, checked
  with Joi's default options and messages, and `validateRequest`.
- **Routes** (`ChatRoutes`). This models backend/src/routes/chat.ts: the five
  chat endpoints, each the validation middleware followed by its handler.

Shared pieces are `Outcomes` (`Option`, `Result`, JavaScript truthiness of
an optional string), `Text` (`includes`, ASCII `toLowerCase`, `trim`,
`join`, `split(sep)[0]`, decimal rendering), `Sorting` (the stable
ordering that `ORDER BY` is taken to be) and `Selection` (the indices an
array `filter` keeps).

The store is a value. A write returns the new store together with its
result, and a write that violates a constraint returns the store unchanged.
Everything the code gets from outside is a parameter of the model:

- the uuids it generates;
- the clock reading;
- `Math.random`'s pick;
- the environment variables;
- the vendor's HTTP reply;
- the DuckDuckGo answer;
- whether a string is a UUID.

The proofs establish these behaviours of the code as written:

- `message_count` always equals the number of the session's stored messages (`Store.RunPreservesConsistency`).
  This holds provided a new session's id is not already named by a stored message.
  Because the foreign key is not enforced, an orphan row breaks the count (`Store.OrphanRowBreaksCount`).
- The history sent to the vendor is the session's **oldest** ten messages (`ORDER BY timestamp ASC LIMIT 10`):
  - once a session holds ten messages, the history no longer changes (`ChatRoutes.LongSessionHistoryIsFrozen`);
  - before that, the user's new utterance appears twice at the end of the turns (`ChatRoutes.ShortSessionRepeatsUtterance`).
- Groq's 429 error message says "Rate limit" with a capital R, while the classifier looks for "rate limit".
  So a rate-limited Groq call returns the apology as a normal reply instead of the high-demand error (`AiService.GroqRateLimitYieldsApology`).
- In the paginated message list, `total` is the size of the page. It is not the size of the session.
- An unknown session lists as an empty page rather than 404.
- The recent-sessions route validates `page` and then ignores it.

Behaviours of the code that are easy to misread, which the model follows as written:

- history is the oldest messages, not the most recent;
- a Groq 429 is not reported as rate-limited;
- the AI sender is stored as `'ai'`;
- a message need not reference an existing session.

## Model

| member | source | states |
|---|---|---|
| Outcomes.OrElse | backend/src/services/webSearch.ts:38-39 | `a || b` for an optional string: the value when present and non-empty, otherwise the fallback |
| Text.Trim | backend/src/services/aiService.ts:291 | `trim()` yields the infix left after removing only ECMAScript whitespace from both ends, and the result has no whitespace at either end |
| Text.TrimIdempotent | backend/src/services/aiService.ts:104 | trimming Groq's already trimmed content again in `generateResponse` changes nothing |
| Text.BeforeFirst | backend/src/services/webSearch.ts:49 | `split(' - ')[0]` is the longest prefix containing no occurrence of the separator, ending at the first occurrence or at the end |
| Text.BeforeFirstWithoutSeparator | backend/src/services/webSearch.ts:49 | a text without the separator is its own first piece |
| Text.JoinOffsetStep | backend/src/services/aiService.ts:157 | in `parts.join(sep)` part k+1 starts one part and one separator after part k |
| Text.JoinLength | backend/src/services/aiService.ts:157 | `parts.join(sep)` ends exactly where its last part ends: nothing follows the last part |
| Text.JoinPlacesParts | backend/src/services/aiService.ts:157 | in `parts.join(sep)`, part k occurs at its join offset and is followed by the separator unless it is the last part |
| Selection.Positions | backend/src/services/webSearch.ts:46-47 | the strictly increasing indices of the elements a filter keeps: every listed index is kept and every kept index is listed |
| Selection.AllKeptIffAllPositions | backend/src/services/webSearch.ts:46-47 | a filter keeps as many elements as it is given iff it keeps every one |
| Selection.SelectsSnoc | backend/src/database/init.ts:162 | filtering a table with one more row is filtering the old table, then taking the new row iff it is kept |
| Text.DecimalRoundTrip | backend/src/services/aiService.ts:93 | reading back the decimal rendering of any natural number gives that number; this is what lets the status be recovered from the Groq error message |
| Sorting.SortBy | backend/src/database/init.ts:162 | `ORDER BY key ASC` yields a sorted permutation of the rows (same multiset, same length) |
| Sorting.SortByKeepsElements | backend/src/database/init.ts:162 | ordering neither adds nor loses a row |
| Sorting.SortBySortedIsIdentity | backend/src/database/init.ts:162 | rows already in key order keep their order, ties included |
| Sorting.Take | backend/src/database/init.ts:170 | `LIMIT n` keeps the first `min(n, size)` rows, in order |
| Sorting.TakeOfSortedKeepsLeast | backend/src/database/init.ts:170 | cutting a sorted result drops only rows whose key is no smaller than any row kept |
| Sorting.PermutationKeepsDistinct | backend/src/database/init.ts:170 | reordering rows whose ids are pairwise different keeps them pairwise different |
| Sorting.DistinctCardinality | backend/src/database/init.ts:170 | a list without repeats has as many elements as the set of its elements |
| Sorting.PermutationKeepsDistinctKeys | backend/src/database/init.ts:170 | reordering rows whose keys are pairwise different keeps the keys pairwise different |
| Store.MessagesOf | backend/src/database/init.ts:162 | `WHERE session_id = ?` selects exactly the session's rows, and only stored rows |
| Store.MessagesOfSelects | backend/src/database/init.ts:162 | the selected rows are, one for one and in table order, the rows at the positions whose session id matches: no row is dropped, duplicated or reordered |
| Store.StoredMetadata | backend/src/database/init.ts:147 | `metadata || null` stores a non-empty metadata string as given and anything else as NULL |
| Store.CreateSession | backend/src/database/init.ts:124-131 | inserting the id succeeds iff the id is free; the new row has count 0, both timestamps now and no metadata; other rows are untouched; a taken id leaves the store unchanged |
| Store.GetSession | backend/src/database/init.ts:133-139 | null iff the id is not stored, otherwise the stored row |
| Store.SaveMessage | backend/src/database/init.ts:141-158 | fails iff the sender is outside the `('user','ai')` check or the id is taken; otherwise appends the row stamped now and echoes the caller's fields; the trigger raises only that session's count by one and sets its `updated_at`; other sessions are unchanged |
| Store.Window | backend/src/database/init.ts:162 | `LIMIT l OFFSET o` is the slice starting at `o` of length `min(l, size - o)`, and empty when `o` is past the end |
| Store.GetMessages | backend/src/database/init.ts:160-166 | `SELECT ... WHERE session_id = ? ORDER BY timestamp ASC LIMIT ? OFFSET ?`: the window at `offset` of length `limit` of some timestamp ordering of exactly the session's stored rows (same multiset), hence exactly `min(limit, count - offset)` rows; the first page holds the oldest rows: no row left out is older than a row returned |
| Store.FirstPageIsOldest | backend/src/database/init.ts:162 | cutting the first `limit` rows off the timestamp ordering leaves out only rows no older than any row kept |
| Store.Rows | backend/src/database/init.ts:170 | the table scan yields stored sessions only, and every stored session it is asked for |
| Store.GetRecentSessions | backend/src/database/init.ts:168-174 | stored sessions in non-increasing `updated_at` order; in a well-formed store (each session listed once in table order) exactly `min(limit, number of sessions)` of them, no session twice |
| Store.TakeRecentShape | backend/src/database/init.ts:170 | in a well-formed store the cut sorted table has `min(limit, number of sessions)` rows with pairwise different ids |
| Store.SortedRowsDistinct | backend/src/database/init.ts:170 | in a well-formed store the sorted table holds every session exactly once |
| Store.RowsOfWellFormed | backend/src/database/init.ts:170 | in a well-formed store the table scan yields one row per session with pairwise different ids |
| Store.EmptyDbConsistent | backend/src/database/init.ts:43-69 | the freshly created tables satisfy the keys, unique ids, the sender check and the count invariant |
| Store.CreateSessionPreservesConsistency | backend/src/database/init.ts:124-131 | creating a session under an id no stored message names keeps every count equal to the session's number of messages |
| Store.SaveMessagePreservesConsistency | backend/src/database/init.ts:102-110 | the trigger's `message_count + 1` keeps every count equal to the session's number of messages |
| Store.SaveMessageCounts | backend/src/database/init.ts:102-110 | a successful save raises the saved session's message count by one and no other session's |
| Store.SaveMessageAppendsOnly | backend/src/database/init.ts:141-158 | a save, successful or not, appends at most one row to the messages, changes no stored row, and touches no other session |
| Store.AppendsOnlyCompose | backend/src/database/init.ts:141-158 | two append-only steps on the same session compose into one that appends at most the sum |
| Store.OrphanRowBreaksCount | backend/src/database/init.ts:68 | with the foreign key unenforced, a message saved before its session exists makes that session start with a wrong count |
| Store.RunPreservesConsistency | backend/src/database/init.ts:102-110 | every sequence of creates (with fresh ids) and saves from a consistent store ends consistent |
| Store.MessagesOfChronological | backend/src/database/init.ts:162 | selecting one session's rows from a chronological table keeps them chronological |
| Store.SaveMessageKeepsChronological | backend/src/database/init.ts:143 | with a clock that does not go back, the table stays in timestamp order |
| Store.ChronologicalListing | backend/src/database/init.ts:162 | in a chronological table a page of `getMessages` is the slice of the session's rows in save order |
| Store.SaveEndsShortWindow | backend/src/database/init.ts:160-166 | a save into a session with fewer than `limit` messages becomes the last row of its first `limit` |
| Store.SaveKeepsFullWindow | backend/src/database/init.ts:160-166 | a save into a session that already holds `limit` messages leaves its first `limit` unchanged |
| Store.RecentSessionsAreTheMostRecent | backend/src/database/init.ts:170 | every stored session left out of the list was updated no later than every session listed |
| Store.RecentSessionsCoverAll | backend/src/database/init.ts:170 | a limit of at least the number of sessions lists every stored session |
| AiService.GetProvider | backend/src/services/aiService.ts:220-235 | each named vendor is chosen iff the setting is present, non-empty and lower-cases to its name; anything else, unset or empty, is Groq |
| AiService.GetProviderByName | backend/src/services/aiService.ts:223-231 | a setting that lower-cases to a vendor's name selects that vendor |
| AiService.GetProviderIgnoresCase | backend/src/services/aiService.ts:223 | a setting and its lower-case form select the same vendor |
| AiService.HistoryTurns | backend/src/services/aiService.ts:243-246 | one turn per stored row, same text; the role is user iff the sender is `'user'`, assistant otherwise |
| AiService.ProviderInput | backend/src/services/aiService.ts:279-282 | the turns are the history turns followed by the new utterance as a user turn |
| AiService.SystemPrompt | backend/src/services/aiService.ts:249-277 | without a (non-empty) user name the base `SYSTEM_PROMPT`; with one, exactly the personalised prompt built around the name, which contains the name |
| AiService.PersonalPromptNamesUser | backend/src/services/aiService.ts:253 | the personalised prompt contains the user's name |
| AiService.PersonalPromptKeepsFrame | backend/src/services/aiService.ts:251-276 | the personalised prompt opens with the base introduction and closes with the base reminder |
| AiService.PersonalPromptKeepsGuidance | backend/src/services/aiService.ts:255-274 | the personalised prompt keeps the base guidelines and response-style sections verbatim |
| AiService.LastN | backend/src/services/aiService.ts:33-34 | `slice(-3)` is the last `min(3, size)` elements, in order |
| AiService.ContentsWith | backend/src/services/aiService.ts:33-34 | `filter(role).map(content)`: the contents of exactly the turns of that role, in order |
| AiService.HuggingFaceInputs | backend/src/services/aiService.ts:20-36 | past user inputs and generated responses are the last three contents of each role (non-assistant roles count as user), and the text is the last turn's content or `''` |
| AiService.ChatMessages | backend/src/services/aiService.ts:73-76 | Groq and OpenAI send the system prompt as a first system turn followed by the turns unchanged |
| AiService.OllamaPrompt | backend/src/services/aiService.ts:156-158 | the prompt starts with the system prompt and a blank line and ends with the `Assistant:` cue; with no turns it is exactly the system prompt, two newlines, a newline and the cue; otherwise the transcript line of turn i sits at its own computed position, a newline follows it right where line i+1 starts, and after the last line comes only `\nAssistant:`, so the prompt is exactly the head, the lines joined by newlines, and the cue |
| AiService.OllamaPromptFrame | backend/src/services/aiService.ts:156-158 | the prompt opens with the system prompt and a blank line, closes with the cue, and its length is the head plus the joined lines plus the cue |
| AiService.OllamaPromptLines | backend/src/services/aiService.ts:156-158 | each turn's transcript line occurs at its computed position, and consecutive lines are separated by exactly one newline |
| AiService.TranscriptLinePlaced | backend/src/services/aiService.ts:156-158 | the transcript line of turn i occurs at its position in the prompt, followed by a newline unless it is the last |
| AiService.GroqStatusError | backend/src/services/aiService.ts:88-94 | status 429 gives the rate-limit message, 401 the invalid-key message, any other failed status exactly `Groq API error: <status digits> <status text>` (prefix, digits and a space, then the status text, and nothing else) |
| AiService.GroqStatusErrorNamesStatus | backend/src/services/aiService.ts:93 | the digits after `Groq API error: ` in the message decode back to the status |
| AiService.GroqStatusErrorsDistinct | backend/src/services/aiService.ts:88-94 | the three kinds of failed Groq status give three different messages |
| AiService.ProviderRequest | backend/src/services/aiService.ts:13-182 | no request iff the selected adapter's key is missing (Ollama needs none); otherwise the vendor's model name and payload kind; a chat request is the system turn carrying the prompt followed by exactly the turns; Hugging Face gets the sliced inputs and Ollama the flattened prompt |
| AiService.GroqOutcome | backend/src/services/aiService.ts:84-107 | a rejected fetch is rethrown, a failed status throws its status error, ok without content throws, otherwise the trimmed content |
| AiService.PlainOutcome | backend/src/services/aiService.ts:45-50 | a rejected fetch is rethrown; a failed status throws `<vendor> API error: <status text>`; an ok reply gives the content, or the default reply when the content is absent or empty |
| AiService.ProviderOutcome | backend/src/services/aiService.ts:13-182 | the missing-key error first; a rejected fetch is rethrown; a failed status gives Groq's status error or `<Vendor> API error: <status text>`; success iff the key is present, the status ok and (for Groq) the content non-empty, with the trimmed content for Groq and the content or the default reply for the others; Groq without content throws |
| AiService.Classify | backend/src/services/aiService.ts:292-306 | a message containing `API key` becomes the configuration error; otherwise one containing `rate limit` becomes the high-demand error; otherwise the fixed apology; each case holds iff its condition does |
| AiService.GenerateResponse | backend/src/services/aiService.ts:237-307 | the vendor chosen, the first ten stored messages as history and the turns sent; it throws only the configuration or high-demand error, and the configuration error whenever the key is missing; a non-empty reply is returned trimmed, an empty one becomes the apology; a thrown error becomes the configuration error iff it mentions `API key`, the high-demand error iff it does not but mentions `rate limit`, and the apology iff it mentions neither |
| AiService.SentRequest | backend/src/services/aiService.ts:237-285 | nothing is sent iff the key is missing; the request goes to the configured provider's kind (Hugging Face, a chat-completion vendor or Ollama) with that provider's model; chat vendors receive the (personalised) system prompt before the turns; Hugging Face receives the sliced turns; Ollama receives the flattened prompt built from the personalised system prompt and the turns |
| AiService.SentPromptNamesUser | backend/src/services/aiService.ts:248-285 | with Groq or OpenAI configured, a given user name reaches the vendor inside the system turn |
| AiService.HuggingFaceIgnoresUserName | backend/src/services/aiService.ts:31-36 | the Hugging Face request does not depend on the user name |
| AiService.ServiceErrorsMentionAiService | backend/src/services/aiService.ts:296-302 | both rethrown errors mention `AI service` |
| AiService.GenerateResponseThrowsServiceErrors | backend/src/services/aiService.ts:292-306 | `generateResponse` throws nothing but the configuration or the high-demand error |
| AiService.RateLimitMessageIsNotClassified | backend/src/services/aiService.ts:300 | Groq's `Rate limit exceeded...` message contains neither `API key` nor the lower-case `rate limit` |
| AiService.InvalidKeyMessageIsConfigurationError | backend/src/services/aiService.ts:91 | Groq's 401 message mentions `API key` and is classified as the configuration error |
| AiService.KeyMissingMessagesAreConfigurationErrors | backend/src/services/aiService.ts:296-298 | each adapter's `... API key not configured` message is classified as the configuration error |
| AiService.EmptyReplyMessageIsNotClassified | backend/src/services/aiService.ts:287-289 | an empty vendor reply ends in the apology |
| AiService.NoGroqContentMessageIsNotClassified | backend/src/services/aiService.ts:100-102 | Groq's missing-content error ends in the apology |
| AiService.GroqRateLimitYieldsApology | backend/src/services/aiService.ts:88-89 | with Groq configured, a 429 reply yields the apology as the response, not the high-demand error |
| AiService.GroqUnauthorizedIsConfigurationError | backend/src/services/aiService.ts:90-91 | with Groq configured, a 401 reply yields the configuration error |
| AiService.MissingKeyIsConfigurationError | backend/src/services/aiService.ts:296-298 | when the selected vendor's key is missing, the configuration error is thrown whatever the reply |
| AiService.InitialGreeting | backend/src/services/aiService.ts:309-333 | with a non-empty user name the picked greeting is its opening, then the name, then its closing, and nothing else; otherwise the picked plain greeting |
| AiService.EmptyNameIsNoName | backend/src/services/aiService.ts:309-311 | an empty user name is treated as no name, for both the greeting and the system prompt |
| Sentiment.Hits | backend/src/services/aiService.ts:352-354 | the keyword count is at most the number of keywords, and zero iff no keyword occurs |
| Sentiment.HitsCountsMatches | backend/src/services/aiService.ts:352 | `filter(includes).length` is the number of keyword positions whose word occurs |
| Sentiment.FiredRules | backend/src/services/aiService.ts:370-384 | the fired topic rules, strictly increasing; a rule is listed iff one of its cue words occurs |
| Sentiment.Topics | backend/src/services/aiService.ts:369-384 | the topics of the fired rules, in rule order and one per fired rule; a topic is reported iff its rule's cue occurs |
| Sentiment.Analyze | backend/src/services/aiService.ts:335-387 | urgency high iff an urgent word occurs, medium iff none does and more than two negative words do; sentiment negative or positive iff its count is strictly larger; the topics are those of the lower-cased message |
| Sentiment.AnalyzeIgnoresCase | backend/src/services/aiService.ts:347 | the analysis of a message equals that of its lower-case form |
| Sentiment.NeutralMeansTie | backend/src/services/aiService.ts:362-366 | sentiment is neutral iff the negative and positive counts are equal |
| Sentiment.QuietMessage | backend/src/services/aiService.ts:349-366 | a message with no urgent, negative or positive keyword is neutral and of low urgency |
| Sentiment.SuicidalIsUrgent | backend/src/services/aiService.ts:343-358 | a message mentioning `suicidal` is urgent and counts a negative keyword |
| Sentiment.RuleTopicsAreDistinct | backend/src/services/aiService.ts:370-384 | the five topic names are pairwise different |
| Sentiment.TopicsOnceEach | backend/src/services/aiService.ts:369-384 | rules with distinct topics report each topic at most once |
| Sentiment.TopicsAreDistinct | backend/src/services/aiService.ts:369-386 | at most five topics, none reported twice |
| WebSearch.AbstractResults | backend/src/services/webSearch.ts:36-43 | one abstract result iff the abstract text is non-empty, titled by the heading or the query |
| WebSearch.TopicTitle | backend/src/services/webSearch.ts:49 | `split(' - ')[0] || query`: the query when the text is empty or begins with ` - `; otherwise the non-empty prefix of the text that ends at the first ` - ` or at the end of the text |
| WebSearch.TopicResult | backend/src/services/webSearch.ts:48-53 | a topic result is from DuckDuckGo, its snippet is the (non-empty) topic text, and its title is the query or a prefix of the snippet, namely the title derived from the text; its url is the topic's first URL or empty |
| WebSearch.TopicResults | backend/src/services/webSearch.ts:46-55 | one result per topic with text, in topic order, built from that topic; topics without text are skipped |
| WebSearch.TopicResultsFromDuckDuckGo | backend/src/services/webSearch.ts:46-55 | every topic result is from DuckDuckGo with a non-empty snippet, titled by the query or a prefix of its snippet |
| WebSearch.ExtractResults | backend/src/services/webSearch.ts:33-58 | the abstract result, if any, followed by exactly one result per texted topic among the first three, in order; at most four results, all from DuckDuckGo with non-empty snippets |
| WebSearch.TextedTopicIsReported | backend/src/services/webSearch.ts:46-55 | a texted topic among the first three has its result after the abstract |
| WebSearch.AllTopicsReported | backend/src/services/webSearch.ts:46-55 | the results number the abstract's plus the considered topics iff every considered topic has text |
| WebSearch.AbstractTitle | backend/src/services/webSearch.ts:38-39 | the abstract result's title is the heading or the query, and its url the abstract URL or `''` |
| WebSearch.LaterTopicsIgnored | backend/src/services/webSearch.ts:46 | topics after the third do not change the results |
| WebSearch.SearchResearch | backend/src/services/webSearch.ts:18-63 | a failed request gives no results; otherwise the extracted results, at most four |
| WebSearch.SearchTherapeuticResearch | backend/src/services/webSearch.ts:68-71 | a search for the topic followed by the fixed therapy phrase |
| WebSearch.ReferencesAt | backend/src/services/webSearch.ts:78-109 | every table entry holds three references |
| WebSearch.FirstKeyIn | backend/src/services/webSearch.ts:112-116 | the first key in table order that occurs in the text, and none iff no key occurs |
| WebSearch.EstablishedReferences | backend/src/services/webSearch.ts:77-119 | no references iff no key occurs in the lower-cased topic; otherwise the three references of a key that occurs |
| WebSearch.ReferencesIgnoreCase | backend/src/services/webSearch.ts:111 | the lookup of a topic equals that of its lower-case form |
| WebSearch.FirstKeyWins | backend/src/services/webSearch.ts:112-116 | keys are tried in table order: a topic mentioning the key at position i and no earlier key gets exactly that key's references, whatever later keys it also mentions |
| Validation.RuleError | backend/src/middleware/validation.ts:47-64 | a present value passes its rule iff it is a non-empty string within the length bounds (and a UUID where required), or a safe integer (within ±(2^53-1)) within the numeric bounds; an unsafe number is refused before the integer and range rules |
| Validation.SchemaDetails | backend/src/middleware/validation.ts:15-17 | at most one detail, none iff every field is acceptable, and otherwise the error of the first unacceptable field in schema order |
| Validation.MessageSchemaAcceptsExactly | backend/src/middleware/validation.ts:47-51 | a message body passes iff `text` has 1..2000 characters, an optional `sessionId` is a UUID, and an optional `userName` has 1..100 characters |
| Validation.SessionSchemaAcceptsExactly | backend/src/middleware/validation.ts:53-55 | route parameters pass iff `sessionId` is present and a non-empty UUID string |
| Validation.SessionCreateSchemaAcceptsExactly | backend/src/middleware/validation.ts:57-59 | a create body passes iff an optional `userName` has 1..100 characters |
| Validation.PaginationSchemaAcceptsExactly | backend/src/middleware/validation.ts:61-64 | a query passes iff an optional `page` is a safe integer of at least 1 and an optional `limit` an integer in 1..100 |
| Validation.CheckPart | backend/src/middleware/validation.ts:14-19 | a part yields an error entry iff it has a schema that rejects it, carrying that schema's details |
| Validation.PartErrors | backend/src/middleware/validation.ts:11-35 | the rejected parts, each once, in the order body, query, params, each with its details |
| Validation.ValidateRequest | backend/src/middleware/validation.ts:5-43 | fails iff some part with a schema is rejected, with status 400 and the message `Validation failed: ` followed by one `<Part>: <first error>` line per rejected part, body then query then params, joined by `; `; otherwise passes the request on unchanged |
| Validation.RenderAllConcat | backend/src/middleware/validation.ts:17-38 | rendering the errors of two lists one after the other is rendering their concatenation |
| Validation.RenderedPart | backend/src/middleware/validation.ts:17-38 | a rejected part renders as its label and its first error (a rejected part has exactly one detail), an accepted part renders as nothing |
| Validation.RenderedPartErrors | backend/src/middleware/validation.ts:17-38 | the pushed error strings are exactly the failure lines of the rejected parts, in body, query, params order |
| Validation.SoleFailureLine | backend/src/middleware/validation.ts:17-38 | with exactly one rejected part, the failure lines are that part's line alone |
| Validation.UncheckedBodyIgnored | backend/src/middleware/validation.ts:14 | a body without a schema never affects the verdict |
| Validation.SingleFailureMessage | backend/src/middleware/validation.ts:17-39 | when exactly one part fails, the message is `Validation failed: <Part>: <first error>` |
| ChatRoutes.StrField | backend/src/routes/chat.ts:20 | a field read from the body is present iff it is a string there, with that value |
| ChatRoutes.CreateSessionRoute | backend/src/routes/chat.ts:16-41 | 400 on invalid input with the store unchanged; 201 iff input is valid and both inserts succeed, in which case one new session holds the greeting as its single `'ai'` message with count 1; any other outcome of valid input is exactly the 500 `Failed to create chat session`; an id already in the store leaves it unchanged |
| ChatRoutes.CreatedSessionHoldsGreeting | backend/src/routes/chat.ts:27-31 | a created session's messages are exactly its greeting |
| ChatRoutes.GreetingFailureLeavesSession | backend/src/routes/chat.ts:21-40 | when saving the greeting fails the reply is 500, yet the new session stays, with count 0 |
| ChatRoutes.CreateSessionRouteKeepsConsistency | backend/src/routes/chat.ts:16-41 | with a fresh session id the route keeps every count equal to the session's number of messages |
| ChatRoutes.GetSessionRoute | backend/src/routes/chat.ts:44-62 | 400 on invalid input; otherwise the stored session, or 404 iff the id is unknown |
| ChatRoutes.ListMessagesRoute | backend/src/routes/chat.ts:65-91 | 400 on invalid input; otherwise the `getMessages` page for `page` (default 1) and `limit` (default 20) at offset `(page-1)*limit`, with `total` the size of this page |
| ChatRoutes.PageIsWindow | backend/src/routes/chat.ts:75-76 | in a chronological store a page is the slice of the session's messages in save order |
| ChatRoutes.UnknownSessionListsNothing | backend/src/routes/chat.ts:72-86 | a session id that no message names lists as an empty 200 page, not 404 |
| ChatRoutes.ErrorReply | backend/src/routes/chat.ts:137-145 | an error mentioning `AI service` becomes 503, any other 500; both service errors become 503 |
| ChatRoutes.PostWithReply | backend/src/routes/chat.ts:99-146 | given how generation settled: 404 for an unknown session with the store unchanged; the exchange iff both saves and the generation succeed, storing the user's row then the reply's row after the existing ones; 503 iff generation threw an error mentioning `AI service`, keeping the user's message; any other failure of a known session is exactly the 500 `Failed to process message`; always only appends to the messages and touches no other session |
| ChatRoutes.PostMessage | backend/src/routes/chat.ts:99-146 | 404 for an unknown session with the store unchanged; the exchange iff both saves and the generation succeed, the stored rows becoming the old ones followed by the user's row and the reply's row, and the session's `updated_at` the request time; 503 iff generation throws, keeping the user's message; any other failure of a known session is exactly the 500 `Failed to process message`; no other session changes and messages are only appended |
| ChatRoutes.PostMessageRoute | backend/src/routes/chat.ts:94-147 | 400 on invalid input with the store unchanged; otherwise the handler on a UUID session id and a 1..2000-character text |
| ChatRoutes.PostMessageKeepsConsistency | backend/src/routes/chat.ts:110-130 | whatever the vendor does, posting keeps every count equal to the session's number of messages |
| ChatRoutes.ShortSessionRepeatsUtterance | backend/src/routes/chat.ts:111-123 | below ten messages, the history already ends with the saved utterance, so the vendor sees it twice |
| ChatRoutes.LongSessionHistoryIsFrozen | backend/src/routes/chat.ts:118-123 | from ten messages on, the history is the oldest ten whatever is posted |
| ChatRoutes.RecentSessionsRoute | backend/src/routes/chat.ts:150-165 | 400 on invalid input; otherwise at most `limit` (default 10) sessions, most recently updated first |
| ChatRoutes.PageIsOnlyValidated | backend/src/routes/chat.ts:150-155 | any valid `page` gives the same list, and a `page` below 1 or beyond the safe integers gives 400 |

## Left out

- Logging (`console.log`/`console.error`) is left out. It has no effect on results.
- The HTTP transport is left out: `fetch`, headers, JSON encoding and decoding, `encodeURIComponent`, the vendor URLs and `OLLAMA_URL`.
  - A vendor reply is a parameter giving the status, the status text and the content field the adapter reads.
  - A DuckDuckGo answer is a parameter giving the decoded fields, or a failure.
- Sampling parameters (`max_tokens`, `temperature`, `top_p`, `do_sample`, `num_predict`) are left out. They are constants the model does not reason about.
- The `errorHandler` middleware's response formatting is left out; `createError`'s status and message are kept. `errorHandler.ts` is not part of this model.
- The health routes (`backend/src/routes/health.ts`) are left out. They are outside the chat core.
- SQLite I/O errors are left out, and so are the 500 replies of the read routes, which only such errors can produce. The store is a value.
- Concurrency between requests is left out. Each route is one atomic step.
- Each request uses one clock reading for all of its writes.
- Timestamps are a natural-number clock, so ISO string formats and `CURRENT_TIMESTAMP` formats are not modelled.
- `ORDER BY` ties are taken in insertion order. SQLite leaves that order unspecified.
- SQLite's treatment of a negative `LIMIT` or `OFFSET` is not modelled. Limits and offsets are natural numbers, and the validated values the routes pass are never negative.
- Joi leniencies are left out:
  - the model does not reject unknown keys, which Joi does by default;
  - the `convert` option's string-to-number coercion is not modelled. Query and body values arrive already decoded as strings, integers, fractions or other values.
  - Joi's converted values and defaults are discarded by the code anyway.
- Joi's refusal of an infinite number (`must be a number` in the model, `cannot be infinity` in Joi) is not modelled: a value beyond the double range arrives as "anything else".
- Joi's UUID syntax is a parameter (`isUuid`), and string lengths count characters rather than UTF-16 code units.
- `toLowerCase` is modelled on ASCII letters only. Full Unicode case mapping is not modelled.
- A `RelatedTopics` value that is a non-empty string cannot be represented, because the model's answer holds a list of topics. In the code, `forEach` then throws, and the catch returns no results at all, so the abstract result is lost too. Other non-array values without a positive `length` are skipped, like an empty list.
- `AiService.SentRequest` and `AiService.ProviderOutcome` are separate functions:
  - what the adapter makes of the reply does not depend on the request's content;
  - the model does not tie a particular reply to a particular request.
- `AiService.GenerateResponse`: the `conversationHistory` field of the context is ignored, as in the code.
