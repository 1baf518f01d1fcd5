# EHR chatbot core in Dafny

This project models the session and conversation logic of a Persian-language medical chatbot.

**The REST layer (`api.py`).** It keeps an in-memory map from session id to session record. Its operations are:

- start a chat for a registered condition;
- answer one query per turn;
- replace a session's clinical data;
- read the statistics and the history;
- delete a session.

On each turn a retrieval handler classifies the query, and the layer turns the handler's response into a bot message. The message carries a confidence label, and the label's counter is bumped.

**Condition registry.** It is built from vector-store metadata: the first usable entry for an id decides its name. When the store cannot be read, a fixed three-condition map is used. `scripts/get_condition_map.py` inverts the registry into a name-to-id map.

**Clinical data.** Records keyed in English are renamed to Persian keys before they are stored.

**Low-confidence fallback (`src/models/fallback.py`).** It assembles a chat-completion request from:

- a system prompt;
- an optional topic line;
- an optional clinical-data block;
- the last six history entries;
- the query.

It returns the stripped answer, or nothing.

**SQLite history store (`src/database/chat_db.py`).** It has a sessions table and an append-only messages table with AUTOINCREMENT ids.

Modules, one per concern:

- `Dicts` (dicts.dfy): Python dicts as insertion-ordered association lists. Assigning to an existing key replaces its value in place; assigning to a new key appends. Order matters here: in the clinical bullet block, the registry's first-wins rule and the inversion's last-wins rule.
- `Registry` (registry.dfy): `get_available_conditions`.
- `ConditionMap` (condition_map.dfy): the name-to-id inversion.
- `ClinicalKeys` (clinical_keys.dfy): the English-to-Persian key conversion. `api.py` writes it out three times; it is modelled once here.
- `Fallback` (fallback.dfy): `call_llm_fallback`.
- `Api` (api.dfy): the endpoints, as class `ChatApi` over the `sessions` map and the handler singleton.
- `ChatDb` (chat_db.dfy): class `ChatDatabase` over the two tables.

External parts are inputs:

- the vector-store read, as `Option<seq<Metadata>>` (`None` when it raised);
- the handler's outcome, as a function of query and condition;
- `call_llm_fallback` as the chat turn calls it, as a function parameter of `QueryChat`. The deployed instance is `Api.DeployedFallback`: `Fallback.FallbackAnswer` with the environment and the completion call (`Api.DeployedFallbackApology`);
- the note generator;
- the chat-completion call, as a function from the request to a reply that may fail;
- the environment: whether the client library was imported, and the API key;
- fresh UUIDs and timestamps, as parameters.

In `ChatDatabase`, every `datetime.now()` is one tick of a counter clock.

Two facts about the code that the contracts make exact:

- `query_chat` counts an unrecognised response type in `total_queries` but under no confidence level. So `total == high + medium + low` holds exactly while every response type is recognised (`Api.TurnKeepsBalance`, `Api.TurnsKeepBalance`).
- `start_chat` rejects an unregistered condition with a 400 before anything is stored (`Api.ChatApi.StartChat`).

## Model

| member | source | states |
|---|---|---|
| Dicts.Get | api.py:203-204 | `d.get(k)` is absent exactly when `k` is not a key, and a present result is a stored pair |
| Dicts.Put | api.py:204 | `d[k] = v` adds `k` to the key set; the length grows by one exactly when `k` is new, and a new key is appended at the end |
| Dicts.PutInPlace | api.py:204 | on a dict with distinct keys, `d[k] = v` replaces the value of an existing key at its own position, leaves every other entry where it was, and keeps keys distinct |
| Dicts.GetPut | api.py:208 | after `d[k] = v`, looking up `k` gives `v` and every other key is unaffected |
| Registry.Collect | api.py:69-75 | the registry fold over the metadata list, entry by entry; its keys, non-empty names and first-wins rule are stated by `Registry.CollectKeys`, `Registry.CollectNamesNonEmpty` and `Registry.CollectFirstWins` |
| Registry.AvailableConditions | api.py:60-83 | the registry as `get_available_conditions` returns it: the fixed map when the read failed, the collected one otherwise; stated by `Registry.GetAvailableConditions` and `Registry.FallbackRegistry` |
| Registry.ExtractConditions | api.py:67-76 | the collecting loop yields exactly the registry fold over the metadata list |
| Registry.GetAvailableConditions | api.py:60-83 | a failed store read gives the fixed map; a successful one gives the collected registry |
| Registry.CollectKeys | api.py:70-74 | an id is registered iff some entry has a non-empty id and name with that id; ids are distinct |
| Registry.CollectNamesNonEmpty | api.py:73 | every registered id and name is non-empty |
| Registry.CollectFirstWins | api.py:73-74 | an id's name comes from the first usable entry carrying that id |
| Registry.FallbackRegistry | api.py:77-83 | on failure the registry is exactly the diabetes, hypertension and asthma entries |
| ConditionMap.NameToId | scripts/get_condition_map.py:12 | the comprehension `{name: cid ...}` over the registry in order; its keys, last-wins values, size and round trip are stated by the `ConditionMap.NameToId*` lemmas below |
| ConditionMap.NameToIdKeys | scripts/get_condition_map.py:12 | the inverse's keys are exactly the registry's names, each once |
| ConditionMap.NameToIdLastWins | scripts/get_condition_map.py:12 | when several ids share a name, the id iterated last is kept |
| ConditionMap.NameToIdPointsBack | scripts/get_condition_map.py:11-12 | every `name -> cid` in the inverse satisfies `id_to_name[cid] == name` |
| ConditionMap.NameToIdSize | scripts/get_condition_map.py:12 | the inverse is never larger than the registry, and has the same size iff names are distinct |
| ConditionMap.NameToIdSwaps | scripts/get_condition_map.py:12 | with distinct names the inverse is the registry with each pair swapped, order kept |
| ConditionMap.NameToIdRoundTrip | scripts/get_condition_map.py:12 | with distinct names, inverting twice gives the registry back |
| ClinicalKeys.Normalise | api.py:188-209 | the whole key conversion as one value; what it keeps and renames is stated by `ClinicalKeys.NormaliseKeepsPersian` and `ClinicalKeys.NormaliseRenames` |
| ClinicalKeys.Renamed | api.py:202-204 | the Persian entries produced by the first `n` mapping pairs; stated by `ClinicalKeys.RenamedShape`, `ClinicalKeys.RenamedGet` and the loop `ClinicalKeys.RenameKnownKeys` |
| ClinicalKeys.WithExtras | api.py:206-208 | the renamed dict with the first `n` unmapped data keys copied in; stated by `ClinicalKeys.WithExtrasKeys`, `ClinicalKeys.WithExtrasGet` and the loop `ClinicalKeys.CopyExtraKeys` |
| ClinicalKeys.RenameKnownKeys | api.py:190-204 | the renaming loop yields the fold over the mapping entries in order |
| ClinicalKeys.CopyExtraKeys | api.py:205-208 | the copying loop yields the fold over the data's entries, skipping the mapping's English keys |
| ClinicalKeys.NormaliseClinicalData | api.py:187-209 | the whole conversion block equals `Normalise` |
| ClinicalKeys.PersianKeysDistinct | api.py:191-201 | the nine Persian target keys are pairwise distinct |
| ClinicalKeys.RenamedKeysStep | api.py:202-204 | one more mapping entry adds its Persian key exactly when its English key is present |
| ClinicalKeys.RenamedKeysFresh | api.py:191-204 | with distinct targets, an entry's Persian key is not produced by any earlier entry |
| ClinicalKeys.RenamedShape | api.py:202-204 | renaming yields exactly the Persian keys of the English keys present, each once |
| ClinicalKeys.RenamedGet | api.py:202-204 | each Persian key holds the value of its English key when that key is present, and is absent otherwise |
| ClinicalKeys.WithExtrasKeys | api.py:206-208 | copying adds exactly the data's unmapped keys, keeping keys distinct |
| ClinicalKeys.WithExtrasGet | api.py:206-208 | a copied unmapped key carries the data's value, overriding the renamed entry |
| ClinicalKeys.NormaliseKeepsPersian | api.py:188 | empty data, or data with the Persian age or gender key, is returned unchanged |
| ClinicalKeys.NormaliseRenames | api.py:188-209 | otherwise: the key set is the renamed keys plus the unmapped keys; renamed values are preserved; unmapped keys win on collision |
| Fallback.Window | src/models/fallback.py:37 | `chat_history[-6:]`: the last `min(6, n)` entries |
| Fallback.Recent | src/models/fallback.py:37-44 | the converted history is no longer than its input and never has the system role; `Fallback.RecentDrops`, `Fallback.RecentKeeps` and `Fallback.RecentAppend` pin down exactly which entries survive and in what order |
| Fallback.RecentDrops | src/models/fallback.py:38-40 | an entry whose role is neither "user" nor "bot" (a "system" entry included) adds nothing to the request |
| Fallback.RecentKeeps | src/models/fallback.py:38-44 | a "user" or "bot" entry adds exactly its converted message, at the end |
| Fallback.RecentAppend | src/models/fallback.py:37-44 | filtering and conversion distribute over concatenation, so kept entries keep their order |
| Fallback.RecentAllKept | src/models/fallback.py:38-44 | when every role is user or bot, each entry is converted in place: bot becomes assistant, missing content becomes "" |
| Fallback.RecentMessages | src/models/fallback.py:36-44 | the history loop yields the conversion of the six-entry window |
| Fallback.Bullets | src/models/fallback.py:59-61 | one `- key: value` line per entry, in dict order; stated entry by entry by `Fallback.BulletsSingle` and `Fallback.BulletsAppend` |
| Fallback.ClinicalInfo | src/models/fallback.py:59-61 | the clinical-data header followed by the bullet lines; `Fallback.ClinicalBlock` is the loop proved to build it |
| Fallback.BulletsAppend | src/models/fallback.py:60-61 | the bullet text of concatenated data is the concatenation of the bullet texts, in dict order |
| Fallback.BulletsSingle | src/models/fallback.py:60-61 | one entry becomes exactly the line `- key: value` followed by a newline; with `Fallback.BulletsAppend` this fixes the whole block |
| Fallback.ClinicalBlock | src/models/fallback.py:59-61 | the accumulating loop yields the header followed by one bullet per entry |
| Fallback.Preamble | src/models/fallback.py:46-62 | the system prompt, then the topic line when a condition name is set, then the clinical block when data is given; its shape is stated by `Fallback.PreambleShape` |
| Fallback.BuildMessages | src/models/fallback.py:46-65 | the preamble, the converted recent history and the query, in that order; its shape is stated by `Fallback.MessageListShape` |
| Fallback.OpeningsDiffer | src/models/fallback.py:46-59 | the topic line, the clinical header and the system prompt are distinguishable |
| Fallback.PreambleShape | src/models/fallback.py:53-62 | the system messages are the prompt, then the topic line iff a name is given, then the clinical block iff the data is non-empty, in that order |
| Fallback.MessageListShape | src/models/fallback.py:53-65 | the request is the system messages, then at most six history messages, then the query. System roles occur exactly in the leading system messages, and the topic line occurs iff a name is given |
| Fallback.AssembleRequest | src/models/fallback.py:36-65 | the imperative assembly yields exactly the request `BuildMessages` describes |
| Fallback.TrimStart | src/models/fallback.py:75 | strips exactly the leading whitespace |
| Fallback.TrimEnd | src/models/fallback.py:75 | strips exactly the trailing whitespace |
| Fallback.Strip | src/models/fallback.py:75 | the stripped text is no longer than the input and neither starts nor ends with whitespace |
| Fallback.StripSlice | src/models/fallback.py:75 | the stripped text is a slice `s[i..j]` of the input with only whitespace cut away on both sides |
| Fallback.StripBlank | src/models/fallback.py:75 | a reply strips to the empty string exactly when it is whitespace alone |
| Fallback.FallbackAnswer | src/models/fallback.py:18-81 | no client or empty key gives `None`. The answer is present iff there are credentials and the call succeeded with content, and then it is exactly that content stripped |
| Fallback.NoAnswer | src/models/fallback.py:18-81 | the result is `None` or empty exactly without credentials, on a failed or contentless completion, or on a whitespace-only reply |
| Fallback.CallLlmFallback | src/models/fallback.py:18-81 | the imperative assembly and call equal `FallbackAnswer` |
| Fallback.RecentEndsWithQuery | src/models/fallback.py:37-44 | a window whose last entry is the user's query converts to messages ending with that query as a user message |
| Fallback.QueryTwiceWhenHistoryEndsWithIt | src/models/fallback.py:37-65 | when the history's last entry is the query, the request ends with that query twice as user messages |
| Api.ReplyFor | api.py:284-329 | high iff `direct_answer`, whose message is the answer followed by the separator and the follow-up iff the follow-up is truthy. Medium for a clarification (its message as is) and a mismatch (the warning-prefixed message, detected name and suggestion). Low iff the type is unknown (the fixed processing error) or it is `llm_fallback` without text (the fixed apology); with text, the text itself |
| Api.InitialClinicalData | api.py:185-209 | the supplied clinical data, or the default when none or `{}` was given, converted to Persian keys; stated by `Api.ResolveClinicalData` and `Api.DefaultDataUnchanged` |
| Api.NoteFor | api.py:228-241 | the stored note: present only when requested and the generator gave non-empty text; stated by `Api.RequestNote` |
| Api.LookUp | api.py:175-182 | the registered name of an id, or none; stated by `Api.CheckCondition` and used by `Api.ChatApi.StartChat` |
| Api.DefaultDataUnchanged | api.py:89-99 | the default clinical data is already Persian-keyed and is stored unchanged when none or `{}` is supplied |
| Api.StatsAfter | api.py:281-329 | one more query, and one more under the level of a recognised response type; stated by `Api.TurnCounts` and `Api.TurnKeepsBalance` |
| Api.AfterTurn | api.py:268-337 | the session after a turn: the query and then the bot message carrying exactly the reply text and its label, the counters updated; stated by `Api.TurnAppendsTwoMessages` and `Api.TurnCounts` |
| Api.TurnAppendsTwoMessages | api.py:268-337 | a turn appends exactly the user query and then the bot message whose content is the reply text returned to the client and whose label is the reply's confidence, and changes nothing but log and stats |
| Api.TurnCounts | api.py:281-329 | `total_queries` grows by one. A known type bumps exactly the counter matching the bot label; an unknown type bumps none |
| Api.TurnKeepsBalance | api.py:281-329 | from a balanced state, `total == high + medium + low` survives a turn iff the response type is known |
| Api.TurnsKeepBalance | api.py:256-350 | over any run of known-type turns, the balance holds, the total equals the turn count, and the log has two messages per turn |
| Api.AsHistory | api.py:315 | the session log handed to the fallback keeps every message's role and content |
| Api.FallbackSeesQueryTwice | api.py:272 | because the query is logged before the fallback call, the request carries the query twice at its end |
| Api.DeployedFallbackApology | api.py:308-325 | with the deployed fallback, an `llm_fallback` turn replies with the fixed apology at low confidence exactly when there are no credentials, the completion fails or has no content, or the reply is whitespace alone |
| Api.ResolveClinicalData | api.py:185-209 | the stored clinical data is the supplied data, or the default when none or `{}` is given, after key conversion |
| Api.RequestNote | api.py:228-241 | a note is generated only when requested, and kept only when the generator returns non-empty text |
| Api.CheckCondition | api.py:175-182 | looking up the id in a freshly read registry gives its name, or nothing for an unregistered id |
| Api.GenerateEducationalNote | api.py:369-420 | an unregistered id gives a 400 with the id in the detail. Empty generator output gives a 500; otherwise the id, name and note are returned |
| Api.AnswerQuery | api.py:280-329 | the response-type dispatch yields `ReplyFor`'s message and confidence and `StatsAfter`'s counters |
| Api.CompleteTurn | api.py:264-349 | with the query logged first, the fallback (on the fallback path only) sees the log ending with the query; the session becomes `AfterTurn` and the reply carries the bot message, its label, the response type and the new counters |
| Api.ChatApi.constructor | api.py:47 | no sessions and no loaded handler |
| Api.ChatApi.StartChat | api.py:171-254 | an unregistered id gives a 400 with nothing stored. Otherwise the new session is stored under `sessionId`, replacing any entry with that id as the dict assignment does: zero stats, empty log, converted data, and a note only when requested and generated |
| Api.ChatApi.QueryChat | api.py:256-350 | an unknown session gives a 404 and no change. A handler load failure gives a 500 with nothing logged. A handler exception leaves the query logged but uncounted. Otherwise only that session changes, to `AfterTurn` |
| Api.ChatApi.HealthCheck | api.py:150-157 | healthy iff the handler is loaded or loads now |
| Api.ChatApi.GetChatHistory | api.py:352-367 | unknown id gives a 404; otherwise the condition, name, log, stats and note of that session |
| Api.ChatApi.UpdateClinicalData | api.py:422-459 | unknown id gives a 404. Otherwise only that session's clinical data changes, to the converted data, which is returned |
| Api.ChatApi.GetStats | api.py:461-471 | unknown id gives a 404; otherwise that session's counters |
| Api.ChatApi.DeleteSession | api.py:473-483 | unknown id gives a 404; otherwise exactly that key is removed |
| ChatDb.View | src/database/chat_db.py:152-182 | `get_session`'s reshaping of a row: NULL clinical data reads as `{}` and the counters are nested; stated by `ChatDb.CreateThenView` |
| ChatDb.NewRow | src/database/chat_db.py:81-130 | the row `create_session` inserts: zero counters, both timestamps at the current tick; stated by `ChatDb.ChatDatabase.CreateSession` and `ChatDb.CreateThenView` |
| ChatDb.CreateThenView | src/database/chat_db.py:105-175 | a new session reads back with zero counters and `created_at == updated_at`. Clinical data reads back as given, or `{}`. A note reads back iff a non-empty one was given |
| ChatDb.StatsFromDefaults | src/database/chat_db.py:204-207 | each written counter is the caller's value, or 0 when the key is missing |
| ChatDb.ViewMessage | src/database/chat_db.py:404-425 | one message row as `get_messages` returns it, the confidence only when non-empty; stated by `ChatDb.MessagesOfExact` |
| ChatDb.MessagesOf | src/database/chat_db.py:404-425 | the session's rows in table order, reshaped; stated by `ChatDb.MessagesOfExact` and `ChatDb.MessagesOfChronological` |
| ChatDb.MessagesOfExact | src/database/chat_db.py:404-425 | the result is exactly the views of that session's rows |
| ChatDb.MessagesOfChronological | src/database/chat_db.py:404-409 | on a table whose creation times increase, the session's messages come out in increasing creation time |
| ChatDb.MessagesOfAppend | src/database/chat_db.py:376-379 | an inserted message joins its own session's list at the end and no other |
| ChatDb.Truncate | src/database/chat_db.py:349 | the preview is a prefix of the content; content within the limit is kept whole, longer content is cut to exactly `max_length` characters |
| ChatDb.FirstUserMessage | src/database/chat_db.py:337-342 | the content of the session's first user message in table order; stated by `ChatDb.PreviewIsFirstUserMessage` |
| ChatDb.Preview | src/database/chat_db.py:337-350 | a preview exists exactly when the session has a user message, and it is exactly that message truncated to `max_length` |
| ChatDb.PreviewIsFirstUserMessage | src/database/chat_db.py:337-350 | no preview iff the session has no user message; otherwise the first user message, truncated |
| ChatDb.PreviewLabel | src/database/chat_db.py:317 | a missing or empty preview shows 'چت جدید'; a non-empty one is shown as is |
| ChatDb.Inserted | src/database/chat_db.py:302 | inserting at a position shifts the later entries by one, and adds exactly one occurrence of the new entry |
| ChatDb.InsertKeepsOrder | src/database/chat_db.py:302 | placing a summary after every entry at least as recent keeps the list newest-first |
| ChatDb.InsertIds | src/database/chat_db.py:302 | inserting adds just that summary's id, and a new id keeps the ids distinct |
| ChatDb.InsertNewestFirst | src/database/chat_db.py:302 | finds the position after every entry at least as recent and inserts there, keeping the list newest-first with exactly one more entry |
| ChatDb.SummaryOf | src/database/chat_db.py:309-327 | one session's list entry: its columns, message count and preview label; stated by `ChatDb.ChatDatabase.Summarise` and `ChatDb.ChatDatabase.ListAllSessions` |
| ChatDb.ChatDatabase.constructor | src/database/chat_db.py:32-79 | two empty tables, ids start at 1 |
| ChatDb.ChatDatabase.Now | src/database/chat_db.py:105 | each timestamp is later than every earlier one |
| ChatDb.ChatDatabase.CreateSession | src/database/chat_db.py:81-130 | a taken id gives false with no row written. Otherwise true, and one new row: zero counters, falsy dicts stored as NULL, `created_at == updated_at` |
| ChatDb.ChatDatabase.GetSession | src/database/chat_db.py:132-182 | `None` iff the id is unknown; otherwise the reshaped view: NULL clinical data as `{}`, nested stats |
| ChatDb.ChatDatabase.UpdateSessionStats | src/database/chat_db.py:184-213 | only that row's counters and `updated_at` change, with 0 for missing keys; an unknown id changes nothing |
| ChatDb.ChatDatabase.UpdateSessionEducationalNote | src/database/chat_db.py:215-238 | only that row's note and `updated_at` change; an empty note is stored, not nulled |
| ChatDb.ChatDatabase.UpdateSessionUpdatedAt | src/database/chat_db.py:240-250 | only that row's `updated_at` changes |
| ChatDb.ChatDatabase.UpdateSessionClinicalData | src/database/chat_db.py:252-275 | only that row's clinical data and `updated_at` change |
| ChatDb.ChatDatabase.AddMessage | src/database/chat_db.py:352-389 | appends one row whose id is fresh and larger than every stored id, then bumps that session's `updated_at`. The session need not exist |
| ChatDb.ChatDatabase.GetMessages | src/database/chat_db.py:391-425 | the session's messages in creation order; confidence appears only when non-empty |
| ChatDb.ChatDatabase.GetSessionPreview | src/database/chat_db.py:332-350 | the loop finds the first user message of the session and truncates it |
| ChatDb.ChatDatabase.Summarise | src/database/chat_db.py:309-327 | a summary carries the row's columns, the message count and the preview label |
| ChatDb.ChatDatabase.ListAllSessions | src/database/chat_db.py:277-330 | exactly one summary per stored session, no duplicates, ordered by `updated_at` descending |
| ChatDb.ChatDatabase.DeleteSession | src/database/chat_db.py:427-446 | true iff the row existed; that row is gone; the messages table is untouched; the store invariant is kept |
| ChatDb.ChatDatabase.GetFullSession | src/database/chat_db.py:448-465 | `None` iff the id is unknown; otherwise the session view with its messages |

## Left out

- The retrieval handler (`ChatbotSearchHandler`) and the vector store are not part of this model. The handler's response and the store's metadata list are inputs. The `LIMIT 1000` of the vector-store read is part of the metadata input. A handler response missing a field the dispatch reads (a `KeyError`, hence a 500) is not modelled: every field is present.
- The chat-completion client, `dotenv` loading and the `OPENAI_API_BASE` setting are not modelled. The call is a function from the request to a reply that may fail. The model name, temperature and token limit are not modelled.
- `src/models/condition_educator.py` is not part of this model: the note generator is a function input that yields text or nothing.
- FastAPI routing, CORS, the pydantic models and the root endpoint are left out. Generic exceptions wrapped into 500 become `InternalError`, without the detail text. `get_conditions` is `GetAvailableConditions`, which cannot fail.
- `uuid.uuid4()` and `datetime.now()` are parameters or the counter clock. ISO timestamps are naturals. Equal timestamps and a wall clock that moves backwards are not modelled.
- SQLite mechanics are not modelled: connections, SQL text, indexes and JSON encoding. A JSON column holds the dict itself.
- `add_message` does not work as written. Its first connection holds SQLite's write lock for the uncommitted INSERT (src/database/chat_db.py:376-379). `update_session_updated_at` then opens a second connection (src/database/chat_db.py:242, through `_get_connection` at src/database/chat_db.py:28). Its UPDATE waits out sqlite3's default 5-second timeout and raises "database is locked", so the INSERT is never committed. `ChatDb.ChatDatabase.AddMessage` models the evidently intended single step: insert, then bump `updated_at`.
- ON DELETE CASCADE is not claimed, because foreign keys are never enabled. `ChatDb.ChatDatabase.DeleteSession` leaves the session's messages in place.
- `ChatDatabase` construction models only a new database file. Reopening an existing file, which keeps its rows, is not modelled.
- Multi-worker deployment and concurrent requests are not modelled. Every operation is one sequential step.
- `tests/test_fallback_simple.py` is a script that talks to a running server; nothing in it is modelled.
- Fallback.IsSpace: covers the characters Python's `str.isspace` accepts. Unicode normalisation is not modelled.
- ChatDb.ChatDatabase.GetSessionPreview: `max_length` is a natural number. Python's behaviour for a negative `max_length` is not modelled.
- ChatDb.ChatDatabase.ListAllSessions: the order among equal `updated_at` values is unspecified, as in SQLite.
