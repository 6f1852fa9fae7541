# Chat server core, modelled in Dafny

The system is a FastAPI chat server. A browser opens a WebSocket, sends chat
messages, and gets the assistant's reply streamed back in chunks. Every turn
is stored in SQLite. An HTTP endpoint pages through a conversation's history
newest first, grouped by UTC day. The reply comes from a Strands agent
(Bedrock or OpenAI), and the server retries once when AWS credentials expire.

This project models the three pieces of sequential logic under that plumbing
and proves what they promise:

- **The store** (`DBStore`, `server/db.py`): modules `History` and `Store`.
  - Two tables: conversations keyed by a string id, and an append-only
    message table with auto-increment ids.
  - `History` holds the queries as pure functions. Each SQL query becomes a
    filter (`Matching`), a stable sort by the `ORDER BY` clause (`SortBy`
    from module `Sorting`) and a `LIMIT` (`Common.Limit`).
  - `Store.DBStore` is a class whose methods update the two tables in place.
    The grouping loop and the listing loop are `while` loops proved against
    the pure functions.
- **The streaming bridge** (`StrandsAgentEngine`, `server/strands_agent.py`):
  module `Agent`.
  - The backend is a pair of attempts: the stream the current agent
    produces, and the stream a rebuilt agent would produce. Each attempt is
    a sequence of events, optionally ending in an error.
  - `Bridge` is the whole generator as a function of a cancel point and the
    backend. `Engine.GenerateStream` is the retry loop. Its consumer may
    stop pulling after some delta, and it is proved to hand over the
    bridge's deltas up to that point.
  - Provider and model-id selection are pure functions of the environment
    variables.
- **One WebSocket connection** (`ws_chat`, `server/server.py`): module
  `Session`.
  - `Connection` is a class whose fields are the handler's local state. One
    call of `Receive` handles one inbound frame. It dispatches the frame,
    updates the store and appends the outbound frames to `sent`.
  - `TurnAfter` states what a chat turn does to that state, as a function.
    The lemmas about turns are stated over it.
- **Login and bearer tokens** (`auth_login`, `require_auth`,
  `server/server.py`): module `Auth`, a registry object holding the
  `TOKENS` map.

Modelling choices:

- Timestamps are whole seconds. `created_at` equals the timestamp, because it
  is the same instant in UTC. The UTC day is `created_at / 86400`.
- Message ids are `|messages| + 1` at insertion, which is SQLite's rowid for a
  table that is never deleted from.
- A negative `LIMIT` means no limit, as in SQLite.
- Everything the code takes from the outside world is a parameter:
  - fresh uuids;
  - the random part of a login token;
  - clock readings;
  - the events the model backend produces;
  - the point at which a client disconnects.

Behaviour of the code, as written, that its own comments and docstrings do
not announce:

- `history` keeps the OLDEST `limit` messages: it sorts ascending and then
  applies `LIMIT` (server/db.py:125-126). It feeds the engine
  (server/db.py:119).
  - Once a conversation holds 500 messages, the agent's prompt stops
    following the user (`Session.PromptAtHistoryLimit`).
- A backend error that reaches `ws_chat` is not caught.
  - No `error` frame is sent, although the handler's docstring lists one
    (server/server.py:145).
  - The handler ends (`Crashed`), instead of returning to the ready state.
- A JSON value that is not an object makes `data.get` raise, which ends the
  handler. It does not get an `error` frame.
- A `cancel` frame cannot stop a running stream, although `generate_stream`
  says a set event stops it promptly (server/strands_agent.py:149-150).
  While a stream runs, the receive loop is not reading frames, and the
  cancel handler sets and immediately replaces the event.
  - The only in-stream stop is a failed chunk send.
- Cursor paging can skip a row or repeat one.
  - Pages are ordered by `created_at`, but the cursor compares ids. A row
    stored while the clock stepped back has a larger id than older-looking
    rows.
  - A skip happens when a page ends between such a row and a newer row with
    a smaller id. For example, take rows (id 1, t 100), (id 2, t 50) and
    (id 3, t 200). With `page_size` 1 the pages are [3] and [1], and row 2
    is never visited.
  - A repeat happens when a page holds a row whose id is below the page's
    last id. With the same rows and `page_size` 3, the first page is
    [3, 1, 2]. Its cursor is 2, so the next page is [1], and row 1 is
    visited twice.
  - `History.CursorSkipsOutOfOrderRow` states the general skip: any row that
    is off a page and whose id is not below that page's cursor is never
    visited by the later pages.
  - `History.CursorRevisitsOutOfOrderRow` states the general repeat. Take a
    page row whose id is below the page's cursor. If the next page holds
    every row the cursor selects, the walk visits that row at least twice.
  - When ids grow with `created_at` and `page_size` is not 0, paging visits
    every message exactly once (`History.PagesVisitEachOnce`). The converse does not hold.
    Rows (id 1, t 50), (id 2, t 100) and (id 3, t 75) with `page_size` 3
    give [2, 3, 1] and then an empty page.
- `GET /history?limit=0` is accepted: the `limit` query parameter has an
  upper bound but no lower one (server/server.py:250-251). `LIMIT 0` returns
  an empty first page, so `next_cursor` is null and the client is told there
  are no more pages, even for a conversation with messages
  (`History.ZeroPageSizeVisitsNothing`).

## Model

| member | source | states |
|---|---|---|
| Store.DBStore.constructor | server/db.py:67-68 | the store starts with both tables empty, and valid |
| Store.DBStore.GetOrCreate | server/db.py:83-95 | returns the given id when it is present and non-empty, else the fresh one; that conversation exists afterwards; if it already existed, nothing changes, otherwise exactly one untitled conversation is added; messages are untouched |
| Store.WithConversationFacts | server/db.py:88-92 | making a conversation exist adds at most one conversation and no other; an existing id leaves the table unchanged; doing it twice equals doing it once; unique keys stay unique |
| Store.DBStore.Append | server/db.py:97-116 | the conversation exists afterwards; exactly one row is appended, with the input's role, content and timestamp and `created_at` derived from the timestamp; its id exceeds every existing id; the tables stay valid |
| Store.AppendKeepsTablesValid | server/db.py:100-114 | an append keeps keys unique, ids auto-increment and the foreign key held, and gives the new row an id larger than every stored id |
| Store.TablesValidIds | server/db.py:105-114 | valid tables have positive, strictly increasing, distinct message ids |
| History.Matching | server/db.py:122-124 | the WHERE clause keeps exactly the table rows it selects, and never more rows than the table holds |
| History.MatchingCount | server/db.py:145-151 | the WHERE clause keeps each selected row as often as the table holds it, and drops every other row |
| History.HistoryOf | server/db.py:118-131 | `history` returns one `ChatMessage` per row read, in order, with the id rendered as a string |
| History.HistoryRows | server/db.py:122-127 | the rows `history` reads: the conversation's rows sorted by `(created_at, id)` ascending, then `LIMIT`; stated by HistoryWindow |
| Store.DBStore.History | server/db.py:118-131 | `history` over the store's current message table; stated by HistoryOf and HistoryWindow |
| History.HistoryWindow | server/db.py:122-129 | `history` returns only that conversation's rows, ascending by `(created_at, id)`, `min(limit, count)` of them, none more often than it is stored; every row left out is newer than every row returned, so the oldest rows are kept |
| Store.HistoryAfterAppend | server/db.py:118-129 | storing a conversation's newest message adds it at the end of `history` while fewer than `limit` messages preceded it; from `limit` on, `history` does not change |
| Store.NewestSortsLast | server/db.py:125 | sorting by `(created_at, id)` puts a row newer than all the others last |
| History.PageWindow | server/db.py:145-152 | a page holds only the conversation's rows, with ids below a truthy `before_id`; it is sorted descending by `(created_at, id)` and holds `min(page_size, count)` rows, none more often than it is stored; selected rows left out are older than every row on the page; its last row is its oldest |
| History.Page | server/db.py:145-152 | the page query: filter, newest first by `(created_at, id)`, `LIMIT page_size`; stated by PageWindow and PageIsFront |
| History.NextCursor | server/db.py:165 | the cursor is absent exactly when the page is empty |
| History.PageRowSelected | server/db.py:145-152 | every row on a page is a table row that the page's WHERE clause selects |
| History.MatchingShrinks | server/db.py:150-151 | a narrower cursor filter selects no more rows, and strictly fewer when some row passes only the wider one |
| History.CursorProgress | server/db.py:150-152 | feeding a non-empty page's cursor back gives a positive cursor, strictly below a truthy previous one, and strictly fewer selected rows, so paging terminates |
| History.PagesStaySelected | server/db.py:150-152 | every row the cursor walk visits is a stored row selected by the starting cursor |
| History.PagesVisitEachOnce | server/db.py:145-165 | when ids grow with `created_at` and `page_size` is not 0, following the cursors from `before_id` visits exactly the selected rows, newest first |
| History.PagingVisitsEveryMessageOnce | server/db.py:145-165 | under the same conditions (growing ids, non-zero `page_size`), paging from no cursor visits every message of the conversation exactly once, in newest-first order |
| History.CursorSkipsOutOfOrderRow | server/db.py:148-151 | any row that is off a non-empty page and whose id is not below that page's cursor is visited by none of the pages, that one or later; a row stored while the clock stepped back can be in that position |
| History.CursorRevisitsOutOfOrderRow | server/db.py:148-151 | a page row whose id is below the page's cursor passes the next filter again; when the next page takes every row that filter selects, the walk holds the row at least twice |
| History.ZeroPageSizeVisitsNothing | server/db.py:150-165 | with `page_size` 0 the page is empty, `next_cursor` is None and the walk visits nothing, whatever the table holds |
| History.WholeSelectionOnPage | server/db.py:145-152 | when `page_size` is negative or at least the number of selected rows, the walk visits every selected row |
| History.NewestFirstSelection | server/db.py:145-149 | when ids grow with `created_at`, the newest-first selection has strictly descending ids and holds each selected row as often as the table does |
| History.DescendingIds | server/db.py:148 | when ids grow with `created_at`, every newest-first arrangement of table rows has strictly descending ids |
| History.RestAfterPage | server/db.py:150-152 | the rows below a page's last id are exactly the rows that follow the page in newest-first order |
| History.PageIsFront | server/db.py:148-152 | for a non-zero `page_size`, a page is the front of the newest-first selection; it is empty only when the selection is; its cursor is the id of its last row |
| History.PagesFromFront | server/db.py:152-165 | one page followed by the walk from its cursor is the whole newest-first selection |
| History.OnDay | server/db.py:155-157 | one day's bucket holds exactly the page rows of that day |
| History.OnDayCount | server/db.py:155-157 | one day's bucket holds each of that day's rows as often as the page does |
| History.GroupsStep | server/db.py:155-157 | one pass of the grouping loop appends the row to its day's bucket, creating the bucket when missing |
| History.GroupsPartition | server/db.py:154-163 | each page row lies in exactly one group, keyed by its UTC day, as often as on the page; no group is empty; a newest-first page gives newest-first groups |
| History.OnDaySorted | server/db.py:155-157 | the rows of one day, taken from a newest-first page, stay newest first |
| History.GroupsOf | server/db.py:154-163 | the `groups` dictionary: one bucket per day of the page; stated by GroupsPartition |
| Store.DBStore.HistoryGroupedByDay | server/db.py:133-168 | the loop builds exactly the day grouping of the page; the cursor is the page's last id, or absent for an empty page |
| Store.DBStore.CreateConversation | server/db.py:170-181 | on a free id, stores and returns a titled conversation; on a taken id, fails with a duplicate key and changes nothing |
| History.LastAt | server/db.py:191-198 | `max(created_at)` of a conversation's messages: absent exactly when it has none, otherwise the time of one of its messages and at least every other |
| History.Summaries | server/db.py:200-207 | the outer join pairs each conversation with its last message time |
| History.RanksBeforeIsPreorder | server/db.py:208-211 | the listing order is total and transitive |
| History.RankedAreSummaries | server/db.py:200-214 | each listed row is a stored conversation with its true last message time |
| History.Ranked | server/db.py:200-214 | the listing query: the outer join, ordered by the ORDER BY clause, then `LIMIT`; stated by ListingOrder and RankedAreSummaries |
| History.ListingOrder | server/db.py:200-214 | the listing holds `min(limit, count)` conversations, none more often than it is stored; ordered by last message time descending; conversations without messages after all others; ties by creation time descending; every conversation left out ranks after every listed one |
| History.NewestRowIsNewest | server/db.py:221-228 | the snippet's source is the conversation's newest message by `(created_at, id)`, whose time is `last_at` |
| History.Snippet | server/db.py:219-230 | the first 140 characters of the newest message, or none; stated by ListingSnippet |
| History.ItemOf | server/db.py:218-237 | one listing entry: id, title, creation time, last message time and the snippet only when there is a last message time; stated by ListingSnippet |
| History.ListingSnippet | server/db.py:216-237 | each entry is a stored conversation; it has a snippet exactly when it has messages; the snippet is the first 140 characters of its newest message |
| History.Listing | server/db.py:217-237 | one entry per ranked row, in rank order |
| Store.DBStore.ListConversations | server/db.py:183-240 | the loop builds exactly that listing |
| Agent.LastUserContent | server/strands_agent.py:157-158 | the prompt is the content of the last message whose role is `user`, or `""` when there is none |
| Agent.Visible | server/strands_agent.py:166-169 | the yielded deltas are never empty and never more numerous than the events |
| Agent.VisibleAppend | server/strands_agent.py:163-169 | filtering events distributes over concatenation |
| Agent.VisibleIsFilter | server/strands_agent.py:167-169 | an event adds its `data` exactly when that is truthy, unchanged and in order |
| Agent.NothingVisible | server/strands_agent.py:167-169 | a stream of events without truthy data yields nothing |
| Agent.CancelIndex | server/strands_agent.py:163-165 | a cancel point inside an attempt is seen at the first check at or after it; no cancel point, or one beyond the attempt, is not seen |
| Agent.StreamOnce | server/strands_agent.py:163-170 | the loop over one attempt's events yields the filtered deltas up to the cancel check that fires, then reports a finish, a cancel or the attempt's error |
| Agent.Bridge | server/strands_agent.py:157-179 | the whole generator as a function of the cancel point and the backend; it ends cancelled only when a cancel point is set, and yields at most one delta per event of the two attempts |
| Agent.Taken | server/server.py:209-221 | a consumer that stops after delta `k` takes a prefix of the stream, `k + 1` deltas long when the stream gets that far, and the whole stream otherwise |
| Agent.StopBeforeExpiryKeepsAgent | server/strands_agent.py:163-178 | a consumer that stops during the first attempt's deltas takes a prefix of them, and the agent is not rebuilt, because the generator never reaches the expiry |
| Agent.BridgeWithoutCancel | server/strands_agent.py:161-179 | without cancellation: a normal end yields the visible deltas; other errors propagate after them; an expiry restarts once, and whatever the rebuilt stream raises propagates |
| Agent.ExpiryBeforeOutputNoDuplicates | server/strands_agent.py:172-178 | an expiry before any visible delta yields exactly the rebuilt stream's deltas, with nothing duplicated |
| Agent.SecondExpiryPropagates | server/strands_agent.py:175-179 | a second expiry is raised, not retried |
| Agent.RebuiltOnlyAfterExpiry | server/strands_agent.py:172-179 | the rebuilt agent's stream matters only when the first attempt ran into an expiry |
| Agent.CancelTruncates | server/strands_agent.py:163-165 | a cancel point yields a prefix of the uncancelled deltas: those before the point |
| Agent.CancelInFirstAttempt | server/strands_agent.py:163-165 | a cancel point within the first attempt stops that attempt there and ends the stream as cancelled |
| Agent.CancelInSecondAttempt | server/strands_agent.py:163-178 | a cancel point within the rebuilt attempt keeps all of the first attempt's deltas and stops the rebuilt one there |
| Agent.CancelBoundsOutput | server/strands_agent.py:164-165 | a stream cancelled from the `k`-th check on yields at most `k` deltas, since the flag is checked before each event |
| Agent.Engine.constructor | server/strands_agent.py:61-62 | the engine builds its model once from the settings |
| Agent.Provider | server/strands_agent.py:65-67 | `(STRANDS_PROVIDER or "bedrock").lower().strip()`; its properties are stated by ProviderSelection, ProviderIsNormalised and BlankProviderBuildsBedrock |
| Agent.ModelId | server/strands_agent.py:69-76 | `MODEL_ID` when set, else the default model of the provider; stated by ProviderSelection |
| Agent.BuildModel | server/strands_agent.py:85-112 | builds the OpenAI model exactly for provider `openai`, otherwise Bedrock in `AWS_REGION` or `us-east-1`; stated by ProviderSelection |
| Agent.Engine.BuildAgent | server/strands_agent.py:85-112 | a rebuild reads the settings again and counts one more build |
| Agent.Engine.GenerateStream | server/strands_agent.py:137-179 | the retry loop, driven by a consumer that may stop pulling after some delta, selects the prompt and yields the bridge's deltas up to that stop; it reports the bridge's ending, or none when left suspended; it rebuilds the agent exactly when the first attempt hit an expiry that the generator reached, and at most once |
| Agent.ProviderSelection | server/strands_agent.py:66-112 | an unset or empty provider means `bedrock`; only `openai` builds the OpenAI model; default model ids per provider; `MODEL_ID` wins when set |
| Agent.ProviderIsNormalised | server/strands_agent.py:68 | the provider has no upper-case ASCII letters and no surrounding whitespace |
| Agent.StripBedrock | server/strands_agent.py:68 | the default provider normalises to itself |
| Agent.BlankProviderBuildsBedrock | server/strands_agent.py:68-112 | a blank provider is not the default: it normalises to `""`, gets the OpenAI default model id, and still builds the Bedrock branch |
| Common.Limit | server/db.py:126 | `LIMIT n` keeps the first `min(n, len)` elements, or all of them when `n` is negative |
| Common.Strip | server/server.py:109 | `strip()` removes whitespace only, from both ends, and leaves no whitespace at either end |
| Common.Lower | server/server.py:123 | `lower()` maps each character to its lower-case form (ASCII only) |
| Common.JoinAppend | server/server.py:224 | joining two lists of chunks concatenates their joins |
| Common.JoinLength | server/server.py:224 | joining non-empty chunks gives at least one character per chunk |
| Session.HeartbeatThreshold | server/server.py:155 | a heartbeat is not due exactly 25 seconds after a ping and due one second later; once due it stays due; a ping makes it not due |
| Session.MakeUserMsg | server/server.py:103-104 | a `user` ChatMessage from the content, with the uuid and clock reading given |
| Session.MakeAssistantMsg | server/server.py:99-100 | an `assistant` ChatMessage from the content, with the uuid and clock reading given |
| Session.Dispatch | server/server.py:165-195 | the receive loop's choice for one inbound frame; stated by DispatchCases |
| Session.Connection.HeartbeatTick | server/server.py:152-159 | one heartbeat pass sends a heartbeat only while the handler runs and one is due, and changes nothing else |
| Session.DispatchCases | server/server.py:172-195 | only an object with type `message` starts a turn, with its text or `""`; undecodable text and unknown types get their error; a non-object ends the handler; a disconnect closes it |
| Session.Connection.Accept | server/server.py:147-164 | a new connection has no session, the cancel event clear, the ping clock at now, and has sent exactly `ready` |
| Session.Connection.Receive | server/server.py:165-234 | disconnect closes; a non-object crashes; an error reply, a `pong` (updating `last_ping`) or `cancelled` is the only frame sent and leaves the store untouched; a `message` performs a turn; a turn never begins with the cancel event set; only a turn can rebuild the agent or change its model, and it does so as `Rebuilds` says |
| Session.Connection.HandleMessage | server/server.py:195-234 | a chat turn changes the state exactly as `TurnAfter` says, and rebuilds the agent (count and model) exactly as `Rebuilds` says |
| Session.Connection.StartTurn | server/server.py:195-205 | the user message is stored before `start` is sent; `start` carries the resolved session id and the user message's id |
| Session.Connection.StreamReply | server/server.py:207-234 | the agent gets the stored history; chunks are forwarded; a stream error ends the handler; the turn then finishes as `ReplyAfter` says; the agent is rebuilt, with the model `BuildModel` gives, only when the expiry came before the client left; otherwise the model is unchanged |
| Session.Connection.AskAgent | server/server.py:207-221 | the agent is prompted with the last user turn of the stored history (500 messages); the handler takes the bridge's deltas through the one whose send fails, with no cancel point, so the stream never ends cancelled; the ending is known only when no send failed; the agent is rebuilt exactly as `Rebuilds` says for that stop; the store is untouched |
| Session.Connection.Deliver | server/server.py:209-234 | over the deltas taken, the chunk loop sends what it would send over the whole stream; a disconnect leaves the event set for `Finish`; a stream error ends the handler with only the chunks sent; the resulting state is the one `ReplyAfter` describes |
| Session.Connection.Finish | server/server.py:223-234 | with the event clear, the joined reply is stored and `done` is sent; after a disconnect, nothing is stored and the event is cleared again |
| Session.ForwardChunks | server/server.py:209-221 | the chunk loop sends one chunk per delta up to the failed send, records the chunks including the one that failed, and reports the disconnect exactly when a send failed |
| Session.CompletedTurnFrames | server/server.py:209-232 | a turn is done exactly when no send failed and the stream finished; then one chunk per delta in order, then exactly one `done`, with the assistant's content equal to the concatenated chunks, `prompt_tokens` 0, and `completion_tokens` the chunk count, which is at most the reply's length |
| Session.UnfinishedTurnFrames | server/server.py:216-234 | a turn without `done` sends only chunks; after a disconnect, the client received a prefix of what it would have received by staying, cut just before the failed send |
| Session.TakenSendsAlike | server/server.py:209-221 | over the deltas the handler takes, the chunk loop hits the same failed send and sends the same chunks as over the whole stream |
| Session.StartAfter | server/server.py:195-205 | the first half of a turn as a state function: the conversation made to exist, the user row stored, `start` sent; its properties are TurnStoresItsMessages and StartTurn |
| Session.ReplyAfter | server/server.py:207-234 | the second half as a state function: the prompt recorded, the turn's frames sent, the reply stored exactly on `done`, the handler ended on a stream error; stated case by case by RaisedReply, DoneReply and DisconnectedReply |
| Session.RaisedReply | server/server.py:209-221 | a turn whose stream raises after every chunk was sent sends only the chunks, stores nothing and ends the handler |
| Session.DoneReply | server/server.py:223-232 | a done turn sends the chunks then `done`, and stores the joined reply |
| Session.DisconnectedReply | server/server.py:216-221 | a turn whose client left sends the chunks before the failed one and stores nothing |
| Session.TurnAfter | server/server.py:195-234 | a whole chat turn: StartAfter then ReplyAfter; stated by TurnStoresItsMessages, TurnPrompt, CompletedTurnFrames and UnfinishedTurnFrames |
| Session.NoCancelPointNoCancel | server/server.py:184-188 | with the cancel event never set during a stream, the stream never ends cancelled |
| Session.BridgeDeltasNonEmpty | server/strands_agent.py:168-169 | every delta forwarded to the client is non-empty |
| Session.TurnStoresItsMessages | server/server.py:195-226 | a turn keeps the tables valid and only appends: the user message, then the assistant reply (the joined deltas) exactly when the turn is done; the conversation exists afterwards |
| Session.NewestRowOlderEq | server/server.py:197-198 | a user message whose clock is not behind the conversation's rows is newest by `(created_at, id)` |
| Session.PromptIsNewTurn | server/server.py:208-214 | with fewer than 500 stored messages and the clock not gone back, the prompt is the text just sent |
| Session.PromptAtHistoryLimit | server/server.py:208 | with 500 or more stored messages, the history the agent sees is what it was before the new message |
| Session.TurnPrompt | server/server.py:195-214 | each turn hands the agent one prompt: the new text below 500 messages, the last user turn of the oldest 500 from then on |
| Auth.Authorize | server/server.py:122-125 | succeeds exactly when credentials are present, the scheme lower-cases to `bearer` and the token is known; it returns the token's user, and otherwise fails with 401 `Unauthorized` |
| Auth.BearerSchemeCase | server/server.py:123 | `Bearer` and `BEARER` are accepted; `Basic` is refused |
| Auth.IssueKeepsOthers | server/server.py:112-113 | a new token authorizes its user; every token that authorized before still does, and for the same user unless it is the token just issued |
| Auth.BlankUsernameRejected | server/server.py:109-111 | a missing or blank username never matches a non-blank configured user |
| Auth.TokenRegistry.constructor | server/server.py:52-56 | the expected credentials come from the environment or the defaults; the token table starts empty |
| Auth.TokenRegistry.Login | server/server.py:107-115 | succeeds exactly when the stripped username and the password match; then exactly one `tok_` token is mapped to the username, and it authorizes; otherwise 401 with `TOKENS` unchanged |

## Left out

- Day keys: the UTC day is taken as `created_at / 86400`. That matches server/db.py:156 only on a UTC host or with a database that keeps the time zone. If the database hands back a datetime without its offset, `astimezone(timezone.utc)` reads it in the host's local zone, and the day key can shift on a host that is not on UTC.
- asyncio scheduling is not modelled.
  - Heartbeat passes are modelled only between inbound frames, not during a stream.
  - The task's creation, cancellation and teardown are not modelled.
  - A heartbeat send that fails, which only ends the heartbeat task, is not modelled.
- Timestamps are whole integer seconds, not floats. ISO-8601 strings are not modelled: a date key is a day number and `created_at` is an integer. Each step uses one clock reading where the code reads the clock per frame.
- Dictionary key order in the `groups` response is not modelled; groups are a `map`.
- `_temperature` parsing is not modelled, because it is a float.
- The SDK calls are foreign code:
  - the Strands `Agent`;
  - the `BedrockModel` and `OpenAIModel` constructors;
  - the tools.

  A built model is represented only by its provider, model id and region.
- The SQLAlchemy engine, sessions, `init_db` and indexes are not modelled. The tables are in-memory sequences.
- No database error is modelled except the duplicate key in `create_conversation`.
- JSON field values of the wrong type are not modelled:
  - a non-string `text`, `session_id` or `null` text, which would make the pydantic validation or the lookup raise;
  - non-string login fields.
- Common.Lower: lower-cases ASCII letters only, as Dafny has no Unicode case tables; Python's `lower()` also maps other letters.
- Session.Connection.Receive: sends other than chunk sends (`ready`, `start`, `pong`, `done`) are treated as always succeeding; a failure there would end the handler.
- Session.Connection.StreamReply: each attempt of the bridge is evaluated whole, and the deltas are forwarded afterwards. The engine is told after which delta the handler stops pulling, so it hands over the same deltas and rebuilds the agent only when the generator would have reached the expiry. The interleaving of backend events and sends is not modelled.
- Agent.Engine.BuildAgent: the environment is read once, when the engine is created. A variable that changes between builds is not modelled.
- History.Ranked: conversations with equal `last_at` and equal `created_at` come out in table order, because the sort is stable. SQLite leaves the order of such ties unspecified, so this order is the model's own choice. `History.ListingOrder` states only the order the `ORDER BY` clause fixes.
- The HTTP handlers `get_history`, the conversation endpoints and `/healthz` are not modelled. They pass through to the store.
- CORS, logging and module-level wiring are not modelled.
