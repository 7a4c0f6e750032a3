# sqlAI chat backend — a Dafny model

sqlAI is a chat assistant that turns natural language into MySQL schemas and
queries. This project models its live "unified message" path, and it proves
properties of that model:

- **`ChatStore`** (`backend/src/services/chatManager.js`): the `ChatManager`
  store.
  - It is a class whose fields are the four tables: sessions, messages,
    schemas and queries.
  - Each table is a sequence of rows in insertion order.
  - Its methods append rows, retitle sessions, bump update stamps and
    soft-delete sessions.
  - Its getters answer the `SELECT`s: a user's active chats newest first, a
    chat's schemas, and the recent-query and recent-message windows.
  - `updated_at` is a logical clock.
- **`PromptBuilder`** (`backend/src/utils/promptBuilder.js`, lines 289-507):
  - `detectIntent`, the keyword classifier;
  - `buildSystemInstruction`, imperative, with its `forEach` loop;
  - `buildChatHistory`;
  - `cleanSqlResponse`, which strips code fences;
  - `extractTableName` and `extractAllTableNames`. Their `CREATE TABLE`
    regular expression is written out as a scanner.
- **`ChatController`** (`backend/src/controllers/chatController.js`, lines
  478-855):
  - `parseAiResponse` and `formatSqlForJson`, which are pure;
  - the reply that `sendMessage` builds for each intent;
  - `sendMessage` itself, as a method over the store.
- **`Text`** holds the JavaScript string operations the code relies on: `trim`,
  `toLowerCase`, `indexOf`/`includes`, `split`, `join` and global `replace`.
- **`Json`** holds `JSON.stringify` of a list of strings and a reader for it.
  The schema path stores such text.

The language model is not called. `SendMessage` takes the model's raw reply
text as a parameter and returns the request it would have sent: the history,
the system instruction and the message.

Two behaviours of the code are easy to misread, and the model follows the code
in both:

- **A blank model reply.** When the cleaned reply is blank, `sendMessage`
  answers 500 before any write (`chatController.js:747-756`), so not even the
  user's message is stored. `ChatController.Conclude` leaves the store
  unchanged.
- **"create table" with an optimize keyword.** `detectIntent` tests the
  optimize keywords before "create table" (`promptBuilder.js:299-313`).
  `PromptBuilder.CreateTableIsSchema` therefore requires that no optimize
  keyword occurs, and `PromptBuilder.OptimizeTableIsNeverSchema` shows the
  other case.

## Model

| member | source | states |
|---|---|---|
| Text.TrimSlice | backend/src/controllers/chatController.js:504 | `trim()` returns a contiguous slice of its input. Only white space is removed, from both ends, and the result neither starts nor ends with white space. |
| Text.TrimEmptyIffBlank | backend/src/controllers/chatController.js:496 | `s.trim() === ''` holds exactly when `s` is empty or all white space. |
| Text.TrimOfTrimmed | backend/src/controllers/chatController.js:533 | Trimming a string that neither starts nor ends with white space returns it unchanged. |
| Text.IndexOfFrom | backend/src/controllers/chatController.js:499 | `indexOf` returns -1 or a position where the pattern occurs, and no occurrence lies between the start position and the result. |
| Text.IndexOfFirst | backend/src/controllers/chatController.js:499 | The first occurrence of a pattern is what `indexOf` returns. |
| Text.ContainsIff | backend/src/utils/promptBuilder.js:299 | `includes` holds exactly when the pattern occurs at some position. |
| Text.ContainsTrim | backend/src/utils/promptBuilder.js:291 | For a keyword that starts and ends with a visible character, trimming the text neither creates nor removes an occurrence. |
| Text.JoinContainsPart | backend/src/utils/promptBuilder.js:345 | A `join` contains every joined part. |
| Text.MissingCharNoOccurrence | backend/src/utils/promptBuilder.js:441-448 | A text lacking one of a pattern's characters does not contain the pattern. |
| Text.ConcatNoOccurrence | backend/src/utils/promptBuilder.js:441-448 | Two texts without the pattern, joined where no occurrence can straddle the seam, do not contain the pattern. |
| Text.JoinNoOccurrence | backend/src/utils/promptBuilder.js:441-448 | Lines without the pattern, joined by a one-character separator that the pattern lacks, do not contain the pattern. |
| Text.Utf16Prefix | backend/src/services/chatManager.js:258 | `substring(0, n)` keeps a prefix of at most `n` code units. It stops only where the next character would pass `n`, and it keeps the whole text when the text has at most `n` units. |
| Text.Utf16InBmp | backend/src/services/chatManager.js:258-259 | For text with no character beyond U+FFFF, `length` is the number of characters and `substring(0, n)` keeps the first `n` characters. |
| Text.Utf16LengthAppend | backend/src/services/chatManager.js:259-260 | The length in code units of a concatenation is the sum of the lengths. |
| Text.SplitJoin | backend/src/controllers/chatController.js:527 | Joining the pieces of `split(c)` with `c` rebuilds the input, and no piece contains `c`. |
| Text.SplitWithoutSeparator | backend/src/controllers/chatController.js:527 | Without the separator, `split` returns the whole string as its only piece. |
| Text.ReplaceNewlineVisible | backend/src/controllers/chatController.js:531 | Replacing newlines with blanks keeps every visible character in place. |
| Text.CollapseSpacesCollapsed | backend/src/controllers/chatController.js:532 | `replace(/\s+/g, ' ')` leaves no two adjacent white-space characters and keeps exactly the visible characters of its input. |
| Text.CollapseSpacesIdentity | backend/src/controllers/chatController.js:532 | Collapsing an already collapsed string changes nothing. |
| Text.TrimVisible | backend/src/controllers/chatController.js:533 | Trimming keeps exactly the visible characters. |
| Text.TrimCollapsed | backend/src/controllers/chatController.js:533 | Trimming a collapsed string keeps it collapsed. |
| Text.RemoveAllAbsent | backend/src/utils/promptBuilder.js:489 | A global `replace` of a pattern that does not occur changes nothing. |
| Text.RemoveFenceComplete | backend/src/utils/promptBuilder.js:489 | After every "```" is deleted, no "```" remains, including none formed by joining the remaining text. |
| Json.ReadEscapedChar | backend/src/controllers/chatController.js:782 | Reading the JSON escape of one character gives that character back and continues with the text after it. |
| Json.ReadEscaped | backend/src/controllers/chatController.js:782 | The escaped string followed by the closing quote reads back as the string and the text after it. |
| Json.StringLiteralRoundTrip | backend/src/controllers/chatController.js:782 | `JSON.parse` of `JSON.stringify(s)` is `s` for a string `s`. |
| Json.ItemsRoundTrip | backend/src/controllers/chatController.js:782 | The comma-separated literals of a non-empty list, followed by `]`, read back as the list. |
| Json.StringArrayRoundTrip | backend/src/controllers/chatController.js:782 | `JSON.parse(JSON.stringify(l))` is `l` for every list of strings, the empty list included. |
| ChatStore.MessagesOfAppend | backend/src/services/chatManager.js:228-237 | A chat's messages, oldest first, grow by exactly the appended message when the row names that chat, and are unchanged otherwise. |
| ChatStore.SchemasOfAppend | backend/src/services/chatManager.js:175-184 | A chat's schemas, oldest first, grow by exactly the appended record when the row names that chat, and are unchanged otherwise. |
| ChatStore.QueriesOfAppend | backend/src/services/chatManager.js:192-202 | A chat's queries, oldest first, grow by exactly the appended record when the row names that chat, and are unchanged otherwise. |
| ChatStore.Reverse | backend/src/services/chatManager.js:202 | `reverse()` puts element `i` at position `n-1-i`. |
| ChatStore.RecentWindowIsSuffix | backend/src/services/chatManager.js:192-202 | A newest-first `LIMIT n` fetch, reversed, is the last `min(n, count)` records in original order. |
| ChatStore.ActiveOf | backend/src/services/chatManager.js:42 | The selected sessions are exactly the sessions of this user that are active. |
| ChatStore.SortByUpdatedAtDesc | backend/src/services/chatManager.js:43 | `ORDER BY updated_at DESC` orders newest first and is a permutation of its input. |
| ChatStore.InsertKeepsOrder | backend/src/services/chatManager.js:43 | Inserting a session into a newest-first list keeps it newest first. |
| ChatStore.SortedActiveFacts | backend/src/services/chatManager.js:30-47 | The listing is newest first, is a permutation of the user's active sessions, and every entry is an active session of that user. |
| ChatStore.Summaries | backend/src/services/chatManager.js:33-40 | Each listed chat carries the number of its own messages and of its own schemas. |
| ChatStore.AutoTitleShape | backend/src/services/chatManager.js:254-260 | Lengths count UTF-16 code units, as `length` and `substring` do. The automatic title is the message itself when the message has at most 50 units. Otherwise it is a prefix of the message followed by "...": the prefix has 50 units, or 49 when unit 50 would split a surrogate pair. |
| ChatStore.AutoTitleBound | backend/src/services/chatManager.js:254-260 | The automatic title has at most 53 UTF-16 code units. |
| ChatStore.AutoTitleInBmp | backend/src/services/chatManager.js:254-260 | For a message with no character beyond U+FFFF, the title is its first 50 characters, followed by "..." when it has more. |
| ChatStore.BumpedAt | backend/src/services/chatManager.js:114-119 | `SET updated_at = … WHERE session_id = ?` changes only the stamp of the session with that id. |
| ChatStore.RetitledAt | backend/src/services/chatManager.js:73-78 | `SET chat_title = ?, updated_at = …` changes only the title and stamp of the session with that id. |
| ChatStore.RetitledWellFormed | backend/src/services/chatManager.js:73-78 | A retitle keeps the store invariant: ids are unique, stamps are distinct, and none is later than the clock. |
| ChatStore.BumpedWellFormed | backend/src/services/chatManager.js:114-119 | A stamp bump keeps the same invariant. |
| ChatStore.BumpedKeepsIds | backend/src/services/chatManager.js:114-119 | A stamp bump neither adds nor removes a session id. |
| ChatStore.BumpedTwice | backend/src/services/chatManager.js:114-119 | Two bumps of one session equal the second bump alone. |
| ChatStore.RetitledAfterBumped | backend/src/controllers/chatController.js:836-841 | A bump followed by a retitle of the same session equals the retitle alone, which is the assistant message followed by the first-message title. |
| ChatStore.ChatManager.constructor | backend/src/services/chatManager.js:269 | The singleton starts with empty tables and satisfies the store invariant. |
| ChatStore.ChatManager.CreateNewChat | backend/src/services/chatManager.js:11-22 | Appends one active session for the user, titled "New Chat" when no title is given. Returns the fresh id, which `GetChatSession` then finds for this user. No other table changes. |
| ChatStore.ChatManager.GetAllChats | backend/src/services/chatManager.js:30-47 | Returns only the user's active sessions, each once and all of them, ordered by `updated_at` descending, with their message and schema counts. |
| ChatStore.ChatManager.GetChatSession | backend/src/services/chatManager.js:55-63 | Returns a session exactly when one has this id, this owner and is active, and the session returned is such a session. Otherwise returns `null`. |
| ChatStore.ChatManager.UpdateChatTitle | backend/src/services/chatManager.js:71-82 | Only the named session's title and stamp change, and the store invariant is kept. |
| ChatStore.ChatManager.DeleteChat | backend/src/services/chatManager.js:85-92 | Clears `is_active` on the session with this id and owner, and changes no other session. The row's `updated_at` is restamped only when the flag actually changes, as `ON UPDATE CURRENT_TIMESTAMP` does (backend/src/models/conversation.js:78). Afterwards `GetChatSession` finds no such session, and the store invariant holds. |
| ChatStore.DeactivatedTwice | backend/src/services/chatManager.js:85-92 | Deleting a chat twice equals deleting it once: the second update matches a row that is already inactive and changes nothing, not even its stamp. |
| ChatStore.DeactivatedWellFormed | backend/src/services/chatManager.js:85-92 | A soft delete stamped with the next clock value keeps the store invariant: ids are unique, stamps are distinct, and none is later than the clock. |
| ChatStore.ChatManager.Touch | backend/src/services/chatManager.js:114-119 | The stamp update shared by the three appends: only that session's stamp changes. |
| ChatStore.ChatManager.AddMessage | backend/src/services/chatManager.js:105-124 | Appends exactly one message row and bumps that session's stamp, and nothing else changes. For an unknown session the insert fails and nothing changes. |
| ChatStore.ChatManager.AddSchema | backend/src/services/chatManager.js:127-146 | Appends exactly one schema row and bumps the stamp, and nothing else changes. For an unknown session nothing changes. |
| ChatStore.ChatManager.AddQuery | backend/src/services/chatManager.js:149-168 | Appends exactly one query row and bumps the stamp, and nothing else changes. `was_executed` defaults to false and the result to null. |
| ChatStore.ChatManager.GetSchemas | backend/src/services/chatManager.js:175-189 | Returns the chat's schema records, oldest first: a record is returned exactly when some schema row of that chat selects to it. `ChatStore.SchemasOfAppend` states how the list grows with each insert. |
| ChatStore.ChatManager.GetAllMessages | backend/src/services/chatManager.js:228-240 | Returns the chat's messages, oldest first: a message is returned exactly when some message row of that chat selects to it. `ChatStore.MessagesOfAppend` states how the list grows with each insert. |
| ChatStore.SchemasOfMembers | backend/src/services/chatManager.js:175-184 | `WHERE session_id = ?` on `chat_schemas`, both directions: the selected records are exactly those of the rows with that session id. |
| ChatStore.MessagesOfMembers | backend/src/services/chatManager.js:228-237 | The same for `chat_messages`. |
| ChatStore.ChatManager.GetRecentQueries | backend/src/services/chatManager.js:192-207 | Returns at most `limit` queries (default 5): the most recent ones, oldest first. All of them are returned when there are fewer. |
| ChatStore.ChatManager.GetRecentMessages | backend/src/services/chatManager.js:210-225 | Returns at most `limit` messages (default 10): the most recent ones, oldest first. All of them are returned when there are fewer. |
| ChatStore.ChatManager.GetFullContext | backend/src/services/chatManager.js:245-251 | Bundles all schemas, the last 5 queries and the last 10 messages. The query window holds exactly min(5, the chat's query count) queries, and the message window min(10, the chat's message count) messages. |
| ChatStore.ChatManager.AutoGenerateChatTitle | backend/src/services/chatManager.js:254-266 | Sets the title to the automatic title of the first message and bumps the stamp. Nothing else changes. |
| PromptBuilder.KeywordListsAreKeywords | backend/src/utils/promptBuilder.js:294-297 | Every keyword starts and ends with a visible character. |
| PromptBuilder.ContainsAnyTrim | backend/src/utils/promptBuilder.js:291 | Trimming the message does not change which keyword groups it mentions. |
| PromptBuilder.Decide | backend/src/utils/promptBuilder.js:299-327 | The priority chain proposes `optimize_query` only when queries exist, and `optimize_schema` or `query` only when schemas exist. |
| PromptBuilder.DetectIntent | backend/src/utils/promptBuilder.js:290-328 | The same guarantees for the lower-cased, trimmed message. The result is always one of the five intents. |
| PromptBuilder.CreateTableIsSchema | backend/src/utils/promptBuilder.js:299-313 | "create table" in any letter case, with no optimize keyword, is a schema request whatever the context. |
| PromptBuilder.OptimizeTableIsNeverSchema | backend/src/utils/promptBuilder.js:299-305 | An optimize keyword together with "table" gives neither `schema` nor `query`. |
| PromptBuilder.NoSchemaMeansConversation | backend/src/utils/promptBuilder.js:311-327 | With no schema, and without schema or optimize keywords, the intent is `conversation`, never `query`. |
| PromptBuilder.BareOptimizeWithoutQueries | backend/src/utils/promptBuilder.js:306-309 | Without queries, and with no mention of a schema or table, an optimize request falls through and never yields an optimize intent. |
| PromptBuilder.DetectedIntentIsBuildable | backend/src/utils/promptBuilder.js:394-421 | For every detected intent, `queries[len-1]` and `schemas[len-1]` exist when that intent's instruction reads them. |
| PromptBuilder.AppendSchemaEntries | backend/src/utils/promptBuilder.js:341-344 | The `forEach` loop appends the header line and the SQL of each schema, in order. |
| PromptBuilder.BuildSystemInstruction | backend/src/utils/promptBuilder.js:331-453 | The accumulated prompt is the preamble, then the schema section, then the intent's task block. |
| PromptBuilder.NoSchemaNoticeIffEmpty | backend/src/utils/promptBuilder.js:334-348 | The instruction starts with the preamble. "No database schema has been created yet." follows it exactly when there is no schema. |
| PromptBuilder.EntriesContainEntry | backend/src/utils/promptBuilder.js:341-344 | The schema entries contain the entry of each schema. |
| PromptBuilder.SectionShowsSchema | backend/src/utils/promptBuilder.js:339-345 | The schema section shows each schema's header, SQL and table name. |
| PromptBuilder.InstructionShowsEverySchema | backend/src/utils/promptBuilder.js:339-348 | Every stored schema's header, SQL and table name appear in the instruction, for every intent. |
| PromptBuilder.TaskAsksForMarker | backend/src/utils/promptBuilder.js:351-439 | The TASK block of each SQL intent contains the `SQL:` format line. |
| PromptBuilder.SqlTasksAskForMarker | backend/src/utils/promptBuilder.js:351-452 | The instruction for `schema`, `query`, `optimize_query` and `optimize_schema` contains `SQL:`. |
| PromptBuilder.ConversationTaskHasNoMarker | backend/src/utils/promptBuilder.js:441-448 | The TASK block of the `conversation` case does not contain `SQL:`. |
| PromptBuilder.TaskBlockMarkerIff | backend/src/utils/promptBuilder.js:351-452 | For every intent the `switch` handles, its TASK block contains `SQL:` exactly when the intent produces SQL. |
| PromptBuilder.UnknownIntentAddsNothing | backend/src/utils/promptBuilder.js:351-450 | An intent the `switch` does not know appends no task block. |
| PromptBuilder.OptimizeQueryQuotesLast | backend/src/utils/promptBuilder.js:394-398 | The `optimize_query` instruction quotes the last query's SQL and its natural-language request verbatim. |
| PromptBuilder.OptimizeSchemaQuotesLast | backend/src/utils/promptBuilder.js:418-421 | The `optimize_schema` instruction quotes the last schema's SQL verbatim. |
| PromptBuilder.BuildChatHistory | backend/src/utils/promptBuilder.js:466-477 | One turn per message, in order, each carrying the message's text as its only part. Every role is `user`, `model` or `system`. |
| PromptBuilder.HistoryRoundTrip | backend/src/utils/promptBuilder.js:466-477 | For stored roles the history reads back as the same messages: `assistant`↔`model`, `system`↔`system`, `user`↔`user`. |
| PromptBuilder.UnknownRoleIsUser | backend/src/utils/promptBuilder.js:468-470 | Any other role is sent as `user`. |
| PromptBuilder.HistoryOfAppend | backend/src/utils/promptBuilder.js:467 | The history of two runs of messages is their two histories in sequence. |
| PromptBuilder.CleanedHasNoFence | backend/src/utils/promptBuilder.js:486-491 | The cleaned reply contains no "```" and has no leading or trailing white space. |
| PromptBuilder.CleanWithoutBackticks | backend/src/utils/promptBuilder.js:486-491 | A reply without a backtick is only trimmed. |
| PromptBuilder.CleanIdempotent | backend/src/utils/promptBuilder.js:486-491 | Cleaning twice gives the same result as cleaning once. |
| PromptBuilder.SqlFenceAbsent | backend/src/utils/promptBuilder.js:488 | Without "```", deleting "```sql" in any letter case changes nothing. |
| PromptBuilder.MatchAt | backend/src/utils/promptBuilder.js:481 | A match starts with "create table" (any case) at that position and captures a `\w+` name that lies inside the text. |
| PromptBuilder.FirstMatchFrom | backend/src/utils/promptBuilder.js:481 | Returns the leftmost match at or after the position. Nothing matches before it. |
| PromptBuilder.ExtractAllFrom | backend/src/utils/promptBuilder.js:494-497 | Every extracted name is a `\w+` word that occurs in the SQL. |
| PromptBuilder.NameInsideContains | backend/src/utils/promptBuilder.js:494-497 | A captured name occurs in the scanned text. |
| PromptBuilder.FirstNameAgrees | backend/src/utils/promptBuilder.js:480-498 | When names are found, `extractTableName` is the first of `extractAllTableNames`. Otherwise it is "unknown_table". |
| PromptBuilder.NoCreateTableNoNames | backend/src/utils/promptBuilder.js:480-498 | Text without "create table" has no names and falls back to "unknown_table". |
| PromptBuilder.PlainTableName | backend/src/utils/promptBuilder.js:481 | `CREATE TABLE name…` extracts `name`, and `name` heads the list of all names. |
| PromptBuilder.GuardedTableName | backend/src/utils/promptBuilder.js:481 | `CREATE TABLE IF NOT EXISTS` with a backticked name extracts that name. |
| PromptBuilder.IfNotExistsOpens | backend/src/utils/promptBuilder.js:481 | After `IF NOT EXISTS ` the regex first tries a name there, and otherwise backtracks and captures `IF`. |
| PromptBuilder.GuardFallback | backend/src/utils/promptBuilder.js:481 | With no name after the guard, the match backtracks and captures "IF". |
| PromptBuilder.GuardWithoutName | backend/src/utils/promptBuilder.js:481 | The same backtracking, seen through `extractTableName`. |
| ChatController.ParseAiResponse | backend/src/controllers/chatController.js:495-518 | Returns `null` exactly for a blank reply. `hasSql` holds exactly when "SQL:" occurs, and `sql` is present exactly then. Without the marker, `text` is the trimmed reply. |
| ChatController.PrefixBeforeFirstIsFree | backend/src/controllers/chatController.js:499 | The text before the first occurrence does not contain the pattern. |
| ChatController.ParseSplitsAtFirstMarker | backend/src/controllers/chatController.js:510-517 | For `pre + "SQL:" + post` with no marker in `pre`, `text` is `trim(pre)`, `sql` is `trim(post)` and `hasSql` is true. |
| ChatController.ParseFindsSplit | backend/src/controllers/chatController.js:499-517 | Every reply with a marker is such a `pre + "SQL:" + post`, so prefix, marker and remainder rebuild the reply. |
| ChatController.CleanStatementShape | backend/src/controllers/chatController.js:528-534 | A cleaned piece is collapsed and trimmed, keeps exactly the visible characters of the piece, and is empty exactly when the piece is blank. |
| ChatController.DropEmpty | backend/src/controllers/chatController.js:535 | The filter keeps only non-empty statements that were in its input. |
| ChatController.FormatSqlForJson | backend/src/controllers/chatController.js:522-544 | Returns `null` exactly for blank SQL. It is a bare string exactly when one statement remains. |
| ChatController.StatementsAreClean | backend/src/controllers/chatController.js:526-535 | Every statement is non-empty, without `;` or newline, trimmed, and without two adjacent white-space characters. |
| ChatController.FormattedIsClean | backend/src/controllers/chatController.js:522-544 | The same holds for the returned string or for every element of the returned list. |
| ChatController.NonBlankIndicesComplete | backend/src/controllers/chatController.js:535 | The kept positions are increasing, and every non-blank piece is kept. |
| ChatController.StatementsInOrder | backend/src/controllers/chatController.js:526-535 | The statements are exactly the cleaned non-blank pieces, in source order. |
| ChatController.PiecesRebuildInput | backend/src/controllers/chatController.js:527 | The pieces joined with ";" rebuild the SQL. |
| ChatController.FormatOfStatements | backend/src/controllers/chatController.js:537-543 | One statement is returned bare. Any other number, zero included, is returned as the list. |
| ChatController.CleanStatementFixes | backend/src/controllers/chatController.js:528-534 | Cleaning a clean statement returns it unchanged. |
| ChatController.FormatOfClean | backend/src/controllers/chatController.js:522-544 | Formatting a clean statement returns it bare. |
| ChatController.FormatIdempotent | backend/src/controllers/chatController.js:522-544 | Re-applying `formatSqlForJson` to its single-string output returns the same result. |
| ChatController.NoSemicolonOneStatement | backend/src/controllers/chatController.js:526-541 | Non-blank SQL without `;` is one bare statement, its cleaned text. |
| ChatController.TrailingSemicolonAddsNoStatement | backend/src/controllers/chatController.js:526-535 | A `;` appended to the SQL adds no statement. |
| ChatController.AppendedSemicolonIsDropped | backend/src/controllers/chatController.js:802-807 | Formatting the SQL with a `;` appended gives the same result as formatting the SQL alone. |
| ChatController.OnlySemicolonsNoStatements | backend/src/controllers/chatController.js:526-535 | Text made of semicolons has no statement. |
| ChatController.SemicolonsFormatToEmptyList | backend/src/controllers/chatController.js:522-543 | Semicolons alone, such as ";;", format to the empty list. |
| ChatController.MarkerThenSemicolons | backend/src/controllers/chatController.js:495-518 | "SQL:" followed by semicolons parses to an empty text, with those semicolons as the SQL. |
| ChatController.SqlPartNotBlank | backend/src/controllers/chatController.js:512 | A non-empty SQL part is not blank, because it is trimmed. |
| ChatController.TerminatedFormatsAlike | backend/src/controllers/chatController.js:800-807 | Adding the missing `;` before formatting changes nothing. |
| ChatController.SchemaPath | backend/src/controllers/chatController.js:772-796 | A schema intent stores a schema exactly when `hasSql` holds and the SQL is longer than 10 UTF-16 code units. The schema is stored under the first `CREATE TABLE` name, or "unknown_table"; the reply lists every name and carries the formatted SQL. One statement is stored as it is, and a list as JSON text that reads back as the statements. Otherwise the reply is an `error` without SQL. |
| ChatController.QueryPath | backend/src/controllers/chatController.js:798-822 | A query intent stores a query exactly when `hasSql` holds, the SQL is longer than 5 UTF-16 code units and it holds a statement. The stored query is the first statement, and it is clean; the reply carries the formatted SQL. Otherwise the reply is an `error` without SQL. |
| ChatController.ReplyFacts | backend/src/controllers/chatController.js:761-833 | Every reply carries its session, its intent and a non-empty message. `hasSQL` and `sql` are present exactly when something is stored, and that SQL is clean. The reply is an `error` exactly when a SQL intent stores nothing, and a conversation stores nothing. |
| ChatController.QueryWithoutStatements | backend/src/controllers/chatController.js:798-822 | A query reply with a long enough SQL part but no statement, and no text, is the query error with the fallback message and stores nothing. |
| ChatController.EmptyQueryListAsWritten | backend/src/controllers/chatController.js:800-811 | As written, "SQL:" followed by at least six semicolons passes the length check and formats to `[]`, so there is no `cleanSql[0]` to store. |
| ChatController.EmptyQueryListCorrected | backend/src/controllers/chatController.js:798-822 | With the correction, that reply is the query error and nothing is stored. |
| ChatController.StoreArtifact | backend/src/controllers/chatController.js:770-811 | Writes the schema or query the reply calls for, or nothing, with the stamp bumped once for a write. |
| ChatController.Ask | backend/src/controllers/chatController.js:755-811 | The user message first, then the artifact. Only the session's stamp changes among the sessions. |
| ChatController.Answer | backend/src/controllers/chatController.js:835-841 | The assistant message, then the automatic title exactly when the chat had no message. |
| ChatController.Persist | backend/src/controllers/chatController.js:755-841 | The messages grow by exactly the user message and then the assistant message, and the schemas or queries by the artifact. The session is bumped, or retitled after the first message, and the store invariant is kept. |
| ChatController.Conclude | backend/src/controllers/chatController.js:745-845 | A blank cleaned reply is a 500 carrying the intent and stores nothing. Otherwise the reply is the intent's reply and the exchange is persisted. |
| ChatController.Exchange | backend/src/controllers/chatController.js:719-845 | The model is sent the history of the last 10 messages, the system instruction for the intent detected on the loaded context, and the message. Then the cleaned reply is concluded. |
| ChatController.SendMessage | backend/src/controllers/chatController.js:692-855 | A blank message gives 400, a missing session id gives 400, and a chat the user does not own or that is inactive gives 404. In each of these cases nothing is sent to the model and the store is unchanged. Otherwise the result is `Exchange`'s. |

## Left out

- The Gemini call itself (`getModel`, `startChat`, `chat.sendMessage`) is not
  modelled. `SendMessage` takes the reply text as a parameter and returns the
  request it would send. SDK errors are not modelled.
- Console logging is not modelled.
- Exceptions are not modelled:
  - the catch-all 500 of `sendMessage`;
  - the `catch` blocks of the store, which return `[]` or `null` or rethrow on
    a database error.

  Database and network failures are I/O. The one failure the model can name,
  an insert for an unknown session that breaks the foreign key, is `ok ==
  false` with nothing changed.
- The other HTTP handlers of `chatController.js` (`createNewChat`,
  `getAllChats`, `getChatDetails`, `updateChatTitle`, `deleteChat`) are not
  modelled. They are thin pass-throughs to the store methods, which are
  modelled.
- Timestamps are a logical clock. Every write advances the clock, and every
  row it changes is stamped with the new value, so there are no ties in
  `updated_at` and no `created_at` columns; insertion
  order stands for `created_at`. MySQL stamps have one-second resolution, so
  ties and their order are not captured.
- The session id is a parameter of `CreateNewChat`. It must be non-empty and
  not already used, which is what `uuidv4()` provides.
- `toLowerCase` is ASCII only. White space is the fixed ECMAScript set, and
  `\w` is `[A-Za-z0-9_]`. Unicode case mapping is not modelled.
- `Json.StringArray` escapes as `JSON.stringify` does for quotes, backslashes
  and control characters. Lone surrogate code units are not modelled.
- The `default:` branch of the intent `switch` in `sendMessage` is
  unreachable: `Intent` has exactly five values, and all five are handled.
  `buildSystemInstruction` takes the intent's label, so its missing `default`
  is modelled; see `PromptBuilder.UnknownIntentAddsNothing`.
- Concurrent `sendMessage` calls on one chat are not modelled. There is no
  locking, so their reads and writes can interleave.
- Tables are not ordered relative to each other. Each table is its own
  sequence.
- ChatStore.AutoTitle: when unit 50 is the first half of a surrogate pair,
  JavaScript's `substring(0, 50)` keeps that lone high surrogate. A Dafny
  string cannot hold one, so the model drops the whole pair and keeps 49
  units.
- ChatController.SendMessage, ChatController.Exchange, ChatController.Conclude,
  ChatController.Persist, ChatController.QueryPath,
  ChatController.QueryWithoutStatements and ChatController.ReplyFacts: model
  the corrected query path (see Findings).
  As written, a query reply whose SQL formats to `[]` passes `undefined` to
  `addQuery`. The insert then fails after the user message was saved, and the
  catch-all answers 500 "Failed to process message" with that message left
  behind.

## Findings

| source | as written | input that shows it | evidently intended | confidence | as-written member | corrected member |
|---|---|---|---|---|---|---|
| backend/src/controllers/chatController.js:800-811 | The query path checks only that the SQL part is longer than 5 characters. It then stores `cleanSql[0]`, which is `undefined` when `formatSqlForJson` returns an empty list. `chat_queries.generated_sql` is `NOT NULL` (backend/src/models/conversation.js:116), so the insert fails after the user message was saved, and the request ends in a 500. | A query-intent reply "SQL:;;;;;;" | A SQL part with no statement gets the query `error` reply like any other unusable SQL, and stores no query. | not executed | ChatController.EmptyQueryListAsWritten | ChatController.EmptyQueryListCorrected |
