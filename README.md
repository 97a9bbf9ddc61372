# Telegram bot dashboard: verified model of its core logic

This project models the sequential logic of a Telegram-bot administration
dashboard in Dafny and proves properties of that model. The dashboard is an
Express/Socket.IO server with a React front end, and its logic is spread over
many small, independent pieces. Each piece becomes its own module:

- **Parsers.**
  - The AI assistant's action parser and the "attached files" suffix of a chat prompt (`AIActions`).
  - The bulk `name|token` bot importer (`BotImport`).
- **State kept in place.**
  - The in-memory bot and administrator tables with their id counters (`MemoryDb`, over `KeyedTable`).
  - The server's bounded newest-first log list (`ServerLogs`, over `LogBuffer`).
  - The browser log controller with its reconnect counter and offline switch (`ClientLogs`).
  - The bot status reconciliation and message handlers (`BotControl`).
  - The per-bot analytics counters and sessions (`Analytics`).
- **Decisions.**
  - The notification store (`Notifications`).
  - The login store and its permission check (`Auth`), and the route guard (`ProtectedRoute`).
  - The bearer-token middleware (`TokenCheck`) and the login endpoint (`Login`).
  - The error-to-response mapping (`ErrorHandling`).
  - The blocked-address settings (`IpBlocking`) and the Redis retry delay (`RedisRetry`).
  - The filter bar (`FilterBar`) and the sort menu (`SortMenu`).
- **Page views.** One module per page:
  - `Kullanicilar` (users), `Mesajlar` (messages), `Veritabani` (database tables) and `SistemLoglari` (system logs);
  - `TopluMesaj` (bulk send), `MesajSablonlari` (message templates) and `MedyaKutuphanesi` (media library);
  - `ZamanlanmisMesajlar` (scheduled messages), `Performans` (performance) and `GuvenlikRaporu` (security report).

  These share the `TableSort`, `FieldOrder`, `Csv`, `Strings` and `Lists` helpers.

**How the model is built.**

- **Inputs supplied by the caller.** These outside pieces become parameters:
  - the clock;
  - `toLowerCase` (`lower`);
  - `localeCompare` (`compare`);
  - `new Date(...).getTime()` (`time`);
  - `JSON.stringify` (`pretty`);
  - JWT signing and verification (`sign`, `verify`);
  - the outcome of every database, Redis or network call the code waits on.
- **Classes for objects updated in place.** Objects whose fields the code updates in place are Dafny classes. Their methods are proved against a state function of the class.
  - This covers `InMemoryDB`, both log controllers, `BotController`, `AnalyticsController` and the login store.
  - For example, `ensures State() == AfterCheck(old(State()), ...)`.
  - The properties are then lemmas about those functions.
- **Functions for pure code.** Filter chains, spreads and conditional expressions are functions.
- **Methods for in-place changes.** The in-place `sort` of each page and the array copy in `handleButonGuncelle` are methods.
- **JavaScript falsiness is written out.**
  - `undefined` and `null` become `None`.
  - The empty string and the number 0 are handled where the code tests truthiness.

Behaviour modelled as written, and shown by the lemmas named here:

- **Messages page (`Mesajlar.OrderIsTextOrder`).** The sort compares only string fields. Every value of a message row is either a string or a number. So the `tarih` branch that uses `getTime` is never reached, and numeric fields compare equal.
- **Users page.** The filter bar's state does not narrow the user list. Only the search text and the status select do.
- **Templates page (`MesajSablonlari.EditSecond`).**
  - The second input of a new button edits `callback_data`, because a new button's `url` is the empty string.
  - When the type select sets two fields, the second update works on the state from before the first update. The first update is lost (`MesajSablonlari.SelectKind`).
- **Bulk send page.**
  - Select-all selects every bot, not only the filtered ones.
  - A template id of 0 counts as "no template".
- **Browser log controller (`ClientLogs.OfflineNotReentered`).** The reconnect counter is not reset when offline mode is entered. So a socket opened after offline mode never goes offline through connection failures alone; only a successful connect, which resets the counter, lets the fifth failure after it enter offline mode again.
- **Scheduled messages page.** The delete button has no handler.
- **Analytics (`Analytics.Track`).** The event name used for the bus log is missing from the event-type table, so `undefined` is logged.

## Model

All paths are relative to the repository root.

| member | source | states |
|---|---|---|
| AIActions.ProcessMessage | project/src/server/controllers/AIController.ts:90-96 | with no files the message is unchanged; otherwise it is the message, a blank line, the heading and one `- name` line per file in upload order |
| AIActions.FileLinesSnoc | project/src/server/controllers/AIController.ts:93-95 | each further file appends exactly its own `- name\n` line after the earlier ones |
| AIActions.FileLinesSplit | project/src/server/controllers/AIController.ts:93-95 | the file list splits back into one bullet per file name, in order |
| AIActions.ProcessedMessageLines | project/src/server/controllers/AIController.ts:90-96 | the decorated prompt's lines are the message's lines, a blank line, the heading, then one bullet per file |
| AIActions.ParseActions | project/src/server/controllers/AIController.ts:143-188 | the loop over the response lines computes exactly the line-by-line fold `ParseFrom` (header, field and end-of-input handling) |
| AIActions.StepKeepsTrimmed | project/src/server/controllers/AIController.ts:153-178 | one line keeps the draft's component, description and code trimmed and emits only complete pending actions |
| AIActions.FlushWellFormed | project/src/server/controllers/AIController.ts:183-185 | at end of input only a complete draft is emitted, as a pending action |
| AIActions.ParseFromWellFormed | project/src/server/controllers/AIController.ts:152-187 | every emitted action is pending, has a non-empty trimmed component and description, and its code, if any, is trimmed |
| AIActions.ParseActionsWellFormed | project/src/server/controllers/AIController.ts:143-188 | the same for the whole response |
| AIActions.ParseFromAtMostHeaders | project/src/server/controllers/AIController.ts:152-187 | there are never more actions than header lines (plus the open draft) |
| AIActions.PreambleIgnored | project/src/server/controllers/AIController.ts:152-166 | lines before the first header do not change the result |
| AIActions.HeaderOpensDraft | project/src/server/controllers/AIController.ts:154-165 | any header line emits the open draft exactly when it is complete and opens an empty draft of the header's type |
| AIActions.LastValueAt | project/src/server/controllers/AIController.ts:167-178 | a field takes the value of the last line carrying its label, whatever earlier lines said |
| AIActions.LastValueNone | project/src/server/controllers/AIController.ts:167-178 | a field no line of the block labels keeps its earlier value |
| AIActions.TagsExclusive | project/src/server/controllers/AIController.ts:168-176 | a line starts with at most one of `Component:`, `Description:` and the code fence, so the else-if order never hides a label |
| AIActions.AdvanceSnoc | project/src/server/controllers/AIController.ts:152-179 | reading one more line applies exactly that line's step to the draft left by the earlier ones |
| AIActions.BlockFields | project/src/server/controllers/AIController.ts:152-179 | inside a block with no header line, component, description and code are each the value of the last line with that label, or unchanged |
| AIActions.ParseFromBlock | project/src/server/controllers/AIController.ts:152-179 | lines without a header emit nothing; what follows is read with the draft the block leaves open |
| AIActions.HeaderThenBlock | project/src/server/controllers/AIController.ts:152-179 | a header and the header-free lines after it emit the previously open draft (when complete) and leave open a draft of the header's type holding the block's last labelled values |
| AIActions.BlockClosed | project/src/server/controllers/AIController.ts:152-187 | the next header, or the end of the answer, emits the open draft when complete before anything after it |
| AIActions.HeaderBlock | project/src/server/controllers/AIController.ts:152-187 | each block's action has the type of the header that opened it and the values of the block's last `Component:`, `Description:` and fence lines, and comes out after the previous block's action and before the next block's |
| AIActions.FieldValueSingleLine | project/src/server/controllers/AIController.ts:169-177 | the label-stripped, trimmed value of a line holds no line break |
| AIActions.StepSingleLine | project/src/server/controllers/AIController.ts:152-179 | one line keeps every field of the draft free of line breaks and emits only such actions |
| AIActions.ParseFromSingleLine | project/src/server/controllers/AIController.ts:152-187 | no emitted action has a line break in its component, description or code |
| AIActions.ParseActionsSingleLine | project/src/server/controllers/AIController.ts:148-188 | since the answer is split at line breaks, no field of any extracted action, code included, spans two lines |
| AIActions.IncompleteDropped | project/src/server/controllers/AIController.ts:153-164 | a new header drops an incomplete draft silently and opens an empty draft of the header's type |
| AIActions.SingleBlock | project/src/server/controllers/AIController.ts:153-185 | a header, component and description block yields one pending action with the trimmed values |
| AIActions.ParseFromCons | project/src/server/controllers/AIController.ts:152-187 | actions come out in line order: one line's output precedes everything after it |
| BotImport.ParseLineWellFormed | project/src/components/BotEkleModal.tsx:50-51 | an accepted line yields a trimmed non-empty name and token without `\|` |
| BotImport.ParseAllSpec | project/src/components/BotEkleModal.tsx:47-53 | the batch is accepted iff every line parses, and then holds one bot per line in order |
| BotImport.ParseLineFormat | project/src/components/BotEkleModal.tsx:50 | a well-formed bot written as `name\|token` parses back to itself |
| BotImport.FormatLineNonBlank | project/src/components/BotEkleModal.tsx:47-48 | a written bot line is not skipped as blank |
| BotImport.LineNonBlank | project/src/components/BotEkleModal.tsx:47-48 | a line starting with a non-space character is kept |
| BotImport.ParseBulkFormat | project/src/components/BotEkleModal.tsx:45-64 | a non-empty list of well-formed bots, one per line, imports as exactly that list |
| BotImport.ParseBulkWellFormed | project/src/components/BotEkleModal.tsx:47-60 | a successful import is non-empty and all its names and tokens are trimmed and non-empty |
| BotImport.NoBotsIffBlank | project/src/components/BotEkleModal.tsx:55-58 | "no bots" is reported iff the text is only whitespace |
| BotImport.NoBotsIffNoLines | project/src/components/BotEkleModal.tsx:55-58 | "no bots" is reported iff no non-blank line remains |
| MemoryDb.FindByName | project/src/server/db/setup.ts:77-81 | the earliest administrator with that user name, or none iff there is none |
| MemoryDb.InMemoryDB.constructor | project/src/server/db/setup.ts:47-61 | empty tables, both counters at 0, the start-up log line |
| MemoryDb.InMemoryDB.InsertYonetici | project/src/server/db/setup.ts:64-75 | the administrator gets id = counter + 1, a fresh key, and is appended; bots and the bot counter are untouched |
| MemoryDb.InMemoryDB.DeleteYonetici | project/src/server/db/setup.ts:83-85 | returns true iff the id was present and removes exactly that entry; counters unchanged |
| MemoryDb.InMemoryDB.InsertBot | project/src/server/db/setup.ts:88-100 | the bot gets id = counter + 1, a fresh key and `aktif = true`, and is appended; administrators untouched |
| MemoryDb.InMemoryDB.UpdateBotStatus | project/src/server/db/setup.ts:110-119 | unknown id: none and nothing changes; known id: that bot alone gets the new `aktif` and update time and is returned |
| MemoryDb.InMemoryDB.DeleteBot | project/src/server/db/setup.ts:121-123 | returns true iff the id was present, removes exactly that entry; the counter never goes back, so ids are not reused |
| MemoryDb.RemoveKeepsBound | project/src/server/db/setup.ts:121-123 | after a delete every remaining id stays between 1 and the counter |
| KeyedTable.Get | project/src/server/db/setup.ts:106-108 | a found entry has the key and is in the table; none iff no entry has the key |
| KeyedTable.Remove | project/src/server/db/setup.ts:121-123 | the key is gone and the table did not grow |
| KeyedTable.Replace | project/src/server/db/setup.ts:114 | exactly the entries with the key are replaced, the rest keep their place |
| KeyedTable.GetUnique | project/src/server/db/setup.ts:106-108 | with increasing keys each entry is what a lookup of its key returns |
| KeyedTable.GetAppend | project/src/server/db/setup.ts:98 | appending entries with other keys does not change a lookup |
| KeyedTable.AppendFresh | project/src/server/db/setup.ts:88-100 | appending a larger key keeps keys increasing, finds the new entry and changes no other lookup |
| KeyedTable.RemoveSpec | project/src/server/db/setup.ts:121-123 | removal keeps keys increasing, shrinks by one iff the key was present, and changes no other lookup |
| KeyedTable.RemoveSubset | project/src/server/db/setup.ts:121-123 | removal introduces no entry |
| KeyedTable.GetSame | project/src/server/db/setup.ts:106-108 | tables differing only at other keys answer a lookup alike |
| KeyedTable.ReplaceSpec | project/src/server/db/setup.ts:110-119 | replacing a present entry finds the new one and changes no other lookup |
| LogBuffer.NewestFirstSpec | project/src/server/controllers/LogController.ts:31-34 | the new entry is first, the length is min(old + 1, cap), and the rest is the old list's prefix of length min(old, cap - 1) |
| LogBuffer.AddAllIsNewestWindow | project/src/server/controllers/LogController.ts:14-34 | after any number of adds the buffer is the newest `cap` entries, newest first |
| ServerLogs.LogController.constructor | project/src/server/controllers/LogController.ts:12-19 | an empty buffer and nothing broadcast |
| ServerLogs.LogController.AddLog | project/src/server/controllers/LogController.ts:21-41 | the entry, with its fields exactly as passed, is put first in the bounded newest-first buffer and broadcast once |
| ServerLogs.LogController.ClearLogs | project/src/server/controllers/LogController.ts:62-66 | the buffer is empty and a clear is broadcast |
| ClientLogs.Offline | project/src/utils/logController.ts:86-90 | offline mode drops the socket and the connecting flag and keeps the counter |
| ClientLogs.InitializeGuard | project/src/utils/logController.ts:25-51 | with a socket or a connection in progress nothing changes; otherwise a new unconnected socket, or none when creation throws |
| ClientLogs.CounterRules | project/src/utils/logController.ts:56-71 | `connect` resets the counter to 0; `connect_error` adds exactly 1 and drops the socket exactly at the limit of 5 |
| ClientLogs.ErrorsBelowLimit | project/src/utils/logController.ts:64-71 | below the limit failures only count up and keep the socket |
| ClientLogs.FifthFailureGoesOffline | project/src/utils/logController.ts:16-71 | from zero, the first four failures keep the socket and the fifth drops it |
| ClientLogs.ErrorsSnoc | project/src/utils/logController.ts:64-71 | n + 1 failures are n failures and then one more |
| ClientLogs.ErrorsPastLimit | project/src/utils/logController.ts:64-71 | past the limit failures count up and never drop the socket |
| ClientLogs.OfflineNotReentered | project/src/utils/logController.ts:64-90 | after offline mode and a new socket, no number of failures goes offline again |
| ClientLogs.AddLogSendsOnlyWhenConnected | project/src/utils/logController.ts:108-115 | an entry is sent iff a connected socket was already there |
| ClientLogs.LogController.constructor | project/src/utils/logController.ts:12-23 | no logs, no socket, counter 0, not connecting |
| ClientLogs.LogController.HandleOfflineMode | project/src/utils/logController.ts:86-90 | the new state is `Offline` of the old, with no socket being created; logs and sends unchanged |
| ClientLogs.LogController.InitializeSocket | project/src/utils/logController.ts:25-51 | the new state is `Initialize` of the old, and the controller's invariant (log bound, no creation in progress) still holds |
| ClientLogs.LogController.OnConnect | project/src/utils/logController.ts:56-62 | the counter restarts at 0; the reconnect toast shows iff there were failed attempts |
| ClientLogs.LogController.OnConnectError | project/src/utils/logController.ts:64-71 | the new state is `ConnectError` of the old |
| ClientLogs.LogController.OnDisconnect | project/src/utils/logController.ts:73-79 | the socket becomes disconnected; counter unchanged |
| ClientLogs.LogController.AddLog | project/src/utils/logController.ts:92-133 | the entry goes first into the newest 1000, is sent iff the socket is connected, and an error toast shows iff the level is error |
| ClientLogs.LogController.ClearLogs | project/src/utils/logController.ts:139-142 | the local list is empty and a clear request is sent iff there is a socket |
| BotControl.SetStatus | project/src/server/controllers/BotController.ts:60-74 | only the bot's entry is replaced (time and error included) and one status broadcast is added |
| BotControl.TransitionRule | project/src/server/controllers/BotController.ts:35-53 | no change iff the bot is in `error` or already in the status its connection implies; otherwise it moves to that status |
| BotControl.StepSpec | project/src/server/controllers/BotController.ts:27-53 | an active bot ends settled, no other bot's entry changes, an inactive or settled bot changes nothing, and a change emits one status-changed event |
| BotControl.CheckAllSettles | project/src/server/controllers/BotController.ts:25-58 | after a check every active bot is settled |
| BotControl.CheckAllStable | project/src/server/controllers/BotController.ts:25-58 | a check over settled bots changes nothing |
| BotControl.CheckIdempotent | project/src/server/controllers/BotController.ts:25-58 | a second check with the same connections changes nothing |
| BotControl.CheckAllKeeps | project/src/server/controllers/BotController.ts:27-53 | a bot in `error`, or one not active, keeps its entry |
| BotControl.CheckAllEvents | project/src/server/controllers/BotController.ts:35-52 | a check adds at most one event per bot, each announcing an active bot's new status, and queues no reply |
| BotControl.ShouldReplyIff | project/src/server/controllers/BotController.ts:96-104 | a reply is queued iff the text is present, non-empty and does not start with `/` |
| BotControl.OnMessageSpec | project/src/server/controllers/BotController.ts:90-121 | one reply is queued iff handling succeeds and the text qualifies; a failure sets `error` with its message |
| BotControl.PollingErrorSticky | project/src/server/controllers/BotController.ts:113-121 | a polling error sets `error` with the message, emits it, and later checks keep it |
| BotControl.SetupThenCheckQuiet | project/src/server/controllers/BotController.ts:35-126 | a bot just set up and connected is left alone by the next check |
| BotControl.BotController.constructor | project/src/server/controllers/BotController.ts:11-23 | empty status map and history |
| BotControl.BotController.UpdateBotStatus | project/src/server/controllers/BotController.ts:60-74 | the new state is `SetStatus` of the old |
| BotControl.BotController.EmitEvent | project/src/server/utils/eventBus.ts:10-13 | emitting logs `Event tetiklendi: <name>` once and changes nothing else |
| BotControl.BotController.CheckBotsStatus | project/src/server/controllers/BotController.ts:25-58 | the loop over the bots computes `CheckAll`; a failed query only logs |
| BotControl.BotController.OnMessage | project/src/server/controllers/BotController.ts:90-112 | the new state is `AfterMessage` of the old |
| BotControl.BotController.OnPollingError | project/src/server/controllers/BotController.ts:113-121 | the new state is `AfterPollingError` of the old |
| BotControl.BotController.SetupBotHandlers | project/src/server/controllers/BotController.ts:76-127 | the bot's status becomes online with no error |
| Analytics.AddCard | project/src/server/controllers/AnalyticsController.ts:56-62 | adding a user to a set grows it by at most one |
| Analytics.UpdateSpec | project/src/server/controllers/AnalyticsController.ts:46-84 | one event adds its user to the bot's set; `activeUsers` never falls; message or command count rises by exactly one for its kind; other users and other bots are untouched |
| Analytics.TouchSpec | project/src/server/controllers/AnalyticsController.ts:68-77 | a session keeps its first start time, platform and location, moves `lastActivity` and counts one more event |
| Analytics.UpdateAllCounts | project/src/server/controllers/AnalyticsController.ts:46-84 | from empty, `activeUsers` is the number of distinct users with events and the counts are the numbers of message and command events |
| Analytics.UpdateAllSessions | project/src/server/controllers/AnalyticsController.ts:68-77 | from empty, a user has a session iff it produced an event, and it counts them |
| Analytics.Track | project/src/server/controllers/AnalyticsController.ts:23-44 | metrics and emission happen only after a successful store; a failure changes neither; exactly one log entry is appended: `Info` with the text `Event tetiklendi: undefined` after a store, `Error` with the store's error message after a failure |
| Analytics.AnalyticsController.constructor | project/src/server/controllers/AnalyticsController.ts:14-21 | empty maps |
| Analytics.AnalyticsController.UpdateRealtimeMetrics | project/src/server/controllers/AnalyticsController.ts:46-84 | the in-place update of the maps computes `Update` on the tracked state and changes nothing else |
| Analytics.AnalyticsController.TrackEvent | project/src/server/controllers/AnalyticsController.ts:23-44 | the new state is `Track` of the old |
| Notifications.Add | project/src/components/NotificationCenter.tsx:26-37 | one unread entry is put first and the others keep their order |
| Notifications.Remove | project/src/components/NotificationCenter.tsx:38-41 | the list does not grow |
| Notifications.ClearAll | project/src/components/NotificationCenter.tsx:42 | the list is empty |
| Notifications.MarkAsRead | project/src/components/NotificationCenter.tsx:43-48 | same length and order; exactly the entries with the id become read |
| Notifications.MarkAllAsRead | project/src/components/NotificationCenter.tsx:49-52 | same length and order; every entry becomes read |
| Notifications.UnreadCount | project/src/components/NotificationCenter.tsx:71 | never more than the number of entries |
| Notifications.UnreadZeroIff | project/src/components/NotificationCenter.tsx:71 | the count is zero iff every entry is read |
| Notifications.AddUnread | project/src/components/NotificationCenter.tsx:26-71 | adding raises the unread count by one |
| Notifications.RemoveSpec | project/src/components/NotificationCenter.tsx:38-41 | no entry with the id remains, every other entry keeps its multiplicity, and an absent id changes nothing |
| Notifications.RemoveAppend | project/src/components/NotificationCenter.tsx:38-41 | removal works piecewise, so the others keep their order |
| Notifications.RemoveUnread | project/src/components/NotificationCenter.tsx:38-71 | removal never raises the unread count |
| Notifications.MarkAsReadSpec | project/src/components/NotificationCenter.tsx:43-48 | the marked entries are read, the unread count does not rise, and marking twice is marking once |
| Notifications.MarkAllAsReadSpec | project/src/components/NotificationCenter.tsx:49-71 | the unread count becomes 0 and nothing but `read` changes |
| Auth.WithPermissions | project/src/hooks/useAuth.ts:43-50 | the stored user is forced to `admin` with the default permissions and keeps its identity |
| Auth.AllowedSpec | project/src/hooks/useAuth.ts:54-57 | a logged-in store user passes every check, no user passes none, and a non-admin passes iff the permission is listed |
| Auth.AuthStore.constructor | project/src/hooks/useAuth.ts:37-42 | logged out, no token, no user |
| Auth.AuthStore.GirisYap | project/src/hooks/useAuth.ts:43-50 | logged in with the token and the forced admin user; every permission check then succeeds |
| Auth.AuthStore.CikisYap | project/src/hooks/useAuth.ts:51-53 | logged out with no token or user; every permission check then fails |
| ProtectedRoute.DecideSpec | project/src/components/KorunmusRota.tsx:4-30 | logged out goes to the login page; an unlisted path renders; home iff the path is listed and none of its permissions is held |
| ProtectedRoute.StoreDecides | project/src/components/KorunmusRota.tsx:20-30 | a user logged in through the store sees every path |
| ProtectedRoute.NonAdminNeedsListed | project/src/components/KorunmusRota.tsx:4-30 | a non-admin sees a listed path iff it holds one of its permissions |
| TokenCheck.HeaderToken | project/src/server/middleware/auth.ts:7 | a found token is non-empty and has no space |
| TokenCheck.TokenDogrulaSpec | project/src/server/middleware/auth.ts:6-19 | `next` iff a token is present and verifies; "Yetkilendirme gerekli" iff there is no token |
| TokenCheck.BearerToken | project/src/server/middleware/auth.ts:7 | `Bearer <token>` yields the token |
| TokenCheck.NoSpaceNoToken | project/src/server/middleware/auth.ts:7-11 | a header without a space has no token |
| Login.LoginSpec | project/src/server/controllers/AuthController.ts:7-26 | 400 iff a field is missing or empty; a token signed over the fixed claims iff `test`/`test`; 401 otherwise |
| Login.LoginThenAccess | project/src/server/controllers/AuthController.ts:15-23 | the issued token, sent as a bearer header, passes the middleware |
| ErrorHandling.HandleErrorSpec | project/src/server/middleware/errorHandler.ts:13-31 | 400 iff `ValidationError`, 401 iff `UnauthorizedError`, 500 otherwise; the message is shown iff named or in development |
| ErrorHandling.ProductionHidesMessage | project/src/server/middleware/errorHandler.ts:28-31 | outside development an unnamed error shows the generic text |
| IpBlocking.Reason | project/src/server/controllers/GuvenlikController.ts:55 | the reason is never empty and is the given one when that is non-empty |
| IpBlocking.KeyRoundTrip | project/src/server/controllers/GuvenlikController.ts:18-55 | decoding an encoded address gives it back, and encoding a decoded prefixed key gives the key back |
| IpBlocking.Listing | project/src/server/controllers/GuvenlikController.ts:18-24 | the listing has at most one row per setting |
| IpBlocking.ListingAppend | project/src/server/controllers/GuvenlikController.ts:18-24 | listing works row by row |
| IpBlocking.Without | project/src/server/controllers/GuvenlikController.ts:71-75 | the key is gone and no row is added |
| IpBlocking.BlockThenList | project/src/server/controllers/GuvenlikController.ts:48-64 | blocking a new address succeeds iff the database does not fail otherwise; it then lists the address last with its reason and time and logs `IP engellendi: <ip>` |
| IpBlocking.WithoutAbsent | project/src/server/controllers/GuvenlikController.ts:71-75 | deleting an absent key changes nothing |
| IpBlocking.WithoutAppend | project/src/server/controllers/GuvenlikController.ts:71-75 | deletion works piecewise |
| IpBlocking.BlockThenUnblock | project/src/server/controllers/GuvenlikController.ts:48-83 | with no database failure, unblocking deletes exactly the key blocking created and logs `IP engeli kaldırıldı: <ip>` |
| IpBlocking.FailuresChangeNothing | project/src/server/controllers/GuvenlikController.ts:48-83 | blocking fails iff the key is taken or the database fails, unblocking iff the key is missing or the database fails; a failure answers 500, changes nothing and logs the error's message |
| IpBlocking.ListingIgnoresOthers | project/src/server/controllers/GuvenlikController.ts:18-24 | settings without the prefix are not listed |
| RedisRetry.RetryDelayShape | project/src/server/utils/redis.ts:8-11 | the delay is 50 times the attempt up to 40 attempts and 2000 from then on, never more |
| RedisRetry.RetryDelayMonotone | project/src/server/utils/redis.ts:9 | the delay never decreases with the attempt number |
| FilterBar.HandleFilterChange | project/src/components/Filters.tsx:30-38 | `''` or null removes the key, any other value sets it; other keys keep their values; the count changes by at most one |
| FilterBar.ClearFilters | project/src/components/Filters.tsx:40-44 | no filters and empty search text |
| FilterBar.FindOption | project/src/components/Filters.tsx:153 | the first option with the key, or none iff there is none |
| FilterBar.FindChoice | project/src/components/Filters.tsx:158 | the first choice with the value, or none iff there is none |
| FilterBar.ChipValueSpec | project/src/components/Filters.tsx:156-161 | a select chip shows the matching choice's label, falling back to the raw value; other chips show the value |
| FilterBar.ChipValueFirstMatch | project/src/components/Filters.tsx:156-161 | a select chip shows the label of the first choice with the value, or the value when that label is empty; other chips show the value |
| FilterBar.Chip | project/src/components/Filters.tsx:152-168 | no chip iff no option has the key; otherwise the first such option's label, `: ` and the chip value |
| SortMenu.ClickSpec | project/src/components/SortButton.tsx:72-77 | the clicked field is reported; descending iff the active field was clicked while ascending; clicks alternate |
| SortMenu.FindSort | project/src/components/SortButton.tsx:40 | the first option with the field, or none iff there is none |
| SortMenu.ButtonLabelSpec | project/src/components/SortButton.tsx:40-54 | the label is the first active option's label, or "Sırala" when that label is empty |
| SortMenu.UnknownFieldLabel | project/src/components/SortButton.tsx:40-54 | an unknown field shows "Sırala" |
| TableSort.Sort | project/src/pages/Kullanicilar.tsx:87-112 | the array ends sorted by the comparator and a permutation of what it held |
| TableSort.SortedPairs | project/src/pages/Kullanicilar.tsx:87-112 | in a sorted list every earlier element compares at most equal to every later one |
| TableSort.SortedCopy | project/src/pages/Kullanicilar.tsx:75-87 | the filtered list is copied and sorted, so the input is not reordered |
| FieldOrder.Compare | project/src/pages/Kullanicilar.tsx:87-110 | numbers compare by difference in the chosen direction; mismatched kinds compare equal |
| FieldOrder.DescendingReverses | project/src/pages/Kullanicilar.tsx:87-110 | descending is ascending with the arguments swapped |
| FieldOrder.ByTotal | project/src/pages/Kullanicilar.tsx:87-110 | with a total string order the field order is total |
| FieldOrder.NumbersInOrder | project/src/pages/Veritabani.tsx:74-97 | a list sorted by a numeric field is in numeric order |
| FieldOrder.TextInOrder | project/src/pages/Kullanicilar.tsx:87-110 | a list sorted by a text field is in `compare` order |
| Kullanicilar.FiltrelenmisKullanicilar | project/src/pages/Kullanicilar.tsx:74-113 | exactly the kept users, each as often as in the input, sorted by the chosen field and direction |
| Kullanicilar.EmptySearchKeepsAll | project/src/pages/Kullanicilar.tsx:76-81 | empty search with `hepsi` keeps every user in order |
| Kullanicilar.ExportLayout | project/src/pages/Kullanicilar.tsx:115-128 | the CSV is the 8-column header and one line per user in order, each splitting back into its cells |
| Kullanicilar.CountsSum | project/src/pages/Kullanicilar.tsx:185-213 | the aktif, pasif and engelli counts add up to the total |
| Mesajlar.OrderIsTextOrder | project/src/pages/Mesajlar.tsx:67-88 | the comparator is the text-field order: the date branch is never reached |
| Mesajlar.BotFilterById | project/src/pages/Mesajlar.tsx:61 | filtering by a bot's id text keeps exactly that bot's messages |
| Mesajlar.FiltrelenenMesajlar | project/src/pages/Mesajlar.tsx:54-89 | exactly the kept messages, each as often as in the input, in the sort order |
| Mesajlar.ExportLayout | project/src/pages/Mesajlar.tsx:91-102 | the CSV is the 6-column header and one line per message in order |
| Mesajlar.UserIds | project/src/pages/Mesajlar.tsx:173 | the set holds exactly the messages' user ids |
| Mesajlar.DistinctUserCount | project/src/pages/Mesajlar.tsx:173 | the distinct-user count is at most the number of messages, and equal iff no user id repeats |
| Veritabani.FiltrelenenTablolar | project/src/pages/Veritabani.tsx:66-99 | no status gives no tables; otherwise exactly the tables whose name matches, sorted by the chosen field |
| Veritabani.NumericFieldsInOrder | project/src/pages/Veritabani.tsx:74-97 | sorting by row count or size orders numerically |
| Veritabani.BoyutBirimi | project/src/pages/Veritabani.tsx:50-55 | the unit's scale fits the size, and every unit below GB is the largest that fits |
| Veritabani.BirimMonotone | project/src/pages/Veritabani.tsx:50-55 | a larger size never gets a smaller unit |
| SistemLoglari.Receive | project/src/pages/SistemLoglari.tsx:47-58 | the initial list replaces the shown one, clearing empties it, and a pushed entry goes first in a non-empty list of at most 1000 |
| SistemLoglari.ClientLogSpec | project/src/pages/SistemLoglari.tsx:51-53 | an incoming log goes first and the list keeps the newest 1000 |
| SistemLoglari.FilteredLogsSpec | project/src/pages/SistemLoglari.tsx:71-81 | `all`, `all` and empty search keep every log; a source filter keeps only that source |
| SistemLoglari.Sources | project/src/pages/SistemLoglari.tsx:83-86 | the distinct non-empty sources, each present in some log, and every present source listed |
| SistemLoglari.LineStart | project/src/pages/SistemLoglari.tsx:89-90 | each line starts `[time] [LEVEL] ` |
| SistemLoglari.LineNoBreak | project/src/pages/SistemLoglari.tsx:89-90 | a log without line breaks gives one line |
| SistemLoglari.DownloadLayout | project/src/pages/SistemLoglari.tsx:88-91 | the file splits back into one line per log, in order |
| TopluMesaj.ActivePassiveSplit | project/src/pages/TopluMesaj.tsx:54-60 | with empty search the `aktif` and `pasif` filters split the bots between them |
| TopluMesaj.ToggleSpec | project/src/pages/TopluMesaj.tsx:222-228 | checking appends the id, unchecking removes every occurrence and no other, and undoes a check |
| TopluMesaj.RecipientsEnds | project/src/pages/TopluMesaj.tsx:194-305 | no selection gives 0 recipients and select-all gives every bot's users, whatever the counts |
| TopluMesaj.RecipientsSpec | project/src/pages/TopluMesaj.tsx:194-305 | with non-negative counts a larger selection never estimates fewer recipients |
| TopluMesaj.HandleGonder | project/src/pages/TopluMesaj.tsx:62-85 | a request iff a template and a bot are chosen and a scheduled send has a time; it carries the choices and a time iff scheduled |
| MesajSablonlari.FilteredSpec | project/src/pages/MesajSablonlari.tsx:38-41 | exactly the matching templates, in order; empty search keeps all |
| MesajSablonlari.ButonEkle | project/src/pages/MesajSablonlari.tsx:43-45 | exactly one new empty button is appended |
| MesajSablonlari.ButonSilSpec | project/src/pages/MesajSablonlari.tsx:47-49 | exactly the indexed button is removed, others keep their order; removing the one just added restores the list |
| MesajSablonlari.SetFieldSpec | project/src/pages/MesajSablonlari.tsx:51-55 | the named field gets the value, the other fields are kept |
| MesajSablonlari.ButonGuncelle | project/src/pages/MesajSablonlari.tsx:51-55 | only the named field of the indexed button changes |
| MesajSablonlari.SecondValue | project/src/pages/MesajSablonlari.tsx:335 | the second input shows the URL when it reads non-empty, else the callback data, else nothing; it always shows the very field it writes (`SecondTarget`) |
| MesajSablonlari.SecondInputEcho | project/src/pages/MesajSablonlari.tsx:335-336 | a non-empty value typed into the second input is what it then shows; clearing a URL reveals the callback data |
| MesajSablonlari.EditSecond | project/src/pages/MesajSablonlari.tsx:335-336 | the second input edits `url` when it is non-empty and `callback_data` otherwise, so a url appears only on a button that had one |
| MesajSablonlari.SelectKind | project/src/pages/MesajSablonlari.tsx:320-327 | of the two updates the type select makes, only the second takes effect |
| MedyaKutuphanesi.AnyTagSpec | project/src/pages/MedyaKutuphanesi.tsx:39-41 | some tag matches iff there is an index of a matching tag |
| MedyaKutuphanesi.Filtered | project/src/pages/MedyaKutuphanesi.tsx:36-44 | exactly the kept items, each as often as in the input |
| MedyaKutuphanesi.FilteredOrder | project/src/pages/MedyaKutuphanesi.tsx:36-44 | the kept items stay in list order: filtering two joined lists is joining their filtered parts |
| MedyaKutuphanesi.TagMatchShows | project/src/pages/MedyaKutuphanesi.tsx:36-44 | an item matched only by a tag is shown |
| MedyaKutuphanesi.ToggleSpec | project/src/pages/MedyaKutuphanesi.tsx:324-330 | a click flips the item's selection and no other; two clicks restore membership |
| MedyaKutuphanesi.SelectAll | project/src/pages/MedyaKutuphanesi.tsx:380-386 | checking selects exactly the ids of the shown items; unchecking clears |
| MedyaKutuphanesi.DosyaYukle | project/src/pages/MedyaKutuphanesi.tsx:52-82 | an empty queue sends nothing and changes nothing; otherwise the queue is sent and cleared with the dialog closed on success, kept on failure |
| MedyaKutuphanesi.UploadCycle | project/src/pages/MedyaKutuphanesi.tsx:52-88 | choosing files then uploading sends exactly them; a failure keeps them for a retry |
| MedyaKutuphanesi.QueueRemove | project/src/pages/MedyaKutuphanesi.tsx:543 | exactly the indexed file is dropped |
| MedyaKutuphanesi.BoyutBirimi | project/src/pages/MedyaKutuphanesi.tsx:46-50 | never GB; the scale fits the size; B and KB are chosen only when the next unit does not fit |
| MedyaKutuphanesi.CountsSum | project/src/pages/MedyaKutuphanesi.tsx:151-193 | the four type counts add up to the total |
| MedyaKutuphanesi.CardsTotal | project/src/pages/MedyaKutuphanesi.tsx:151-193 | image, video and file cards sum to at most the total, and to the total iff there is no gif |
| ZamanlanmisMesajlar.Filtered | project/src/pages/ZamanlanmisMesajlar.tsx:55-59 | exactly the kept messages, each as often as in the input |
| ZamanlanmisMesajlar.FilteredOrder | project/src/pages/ZamanlanmisMesajlar.tsx:55-59 | the kept messages stay in list order: filtering two joined lists is joining their filtered parts |
| ZamanlanmisMesajlar.FilterByStatus | project/src/pages/ZamanlanmisMesajlar.tsx:55-59 | a status filter shows only messages in that status |
| ZamanlanmisMesajlar.Eylemler | project/src/pages/ZamanlanmisMesajlar.tsx:205-241 | delete always; edit and pause iff waiting; restart iff cancelled |
| ZamanlanmisMesajlar.Gecisler | project/src/pages/ZamanlanmisMesajlar.tsx:205-234 | the requestable statuses are those of the card's buttons; a message never requests its own status; waiting can request only cancelled, cancelled only waiting, completed and failed nothing |
| ZamanlanmisMesajlar.GecislerSpec | project/src/pages/ZamanlanmisMesajlar.tsx:61-234 | waiting can only be cancelled, cancelled only put back to waiting, others not changed; every change can be undone |
| ZamanlanmisMesajlar.CountsSum | project/src/pages/ZamanlanmisMesajlar.tsx:95-137 | the four status counts add up to the total |
| Performans.FormatUptime | project/src/pages/Performans.tsx:77-82 | hours < 24, minutes < 60, and the parts stand for the seconds less under a minute |
| Performans.FormatUptimeInverse | project/src/pages/Performans.tsx:77-82 | every in-range triple is what its own total formats to, so the split is unique |
| Performans.UnderAMinute | project/src/pages/Performans.tsx:77-82 | under a minute shows `0g 0s 0d` |
| Performans.IndirLayout | project/src/pages/Performans.tsx:44-59 | no data gives no file; otherwise the CPU section, a blank line and the memory section, one line per sample |
| GuvenlikRaporu.Detay | project/src/pages/Guvenlik.tsx:58 | a missing or empty detail is written as empty, any other as it is |
| GuvenlikRaporu.Bitis | project/src/pages/Guvenlik.tsx:67 | a missing or empty end date is written "Süresiz", any other as it is |
| GuvenlikRaporu.ShownUnlimited | project/src/pages/Guvenlik.tsx:264-266 | the table shows "Süresiz" exactly when the report writes it for want of a date |
| GuvenlikRaporu.RaporLayout | project/src/pages/Guvenlik.tsx:45-69 | no data gives no report; otherwise 7 fixed lines plus one per login and one per blocked address, logins first |
| GuvenlikRaporu.BasarisizSpec | project/src/pages/Guvenlik.tsx:122 | failed plus successful logins are all logins; none failed iff every login succeeded |

## Left out

- I/O and outside services are not modelled: HTTP handlers' request plumbing, axios clients, Socket.IO servers and clients, Prisma and Supabase queries, Redis, Bull queues, OpenAI calls, toasts and file downloads. Their outcomes are parameters (for example `failed`, `storeFailure`, `creationFails`, the query `Result`), and the model returns the request it would send instead of sending it.
- The pages' network actions beyond the request built are not modelled: bulk delete, media delete, the status change PUT of the scheduled-messages page, template saving.
- Timers (`setInterval` checks and metric refreshes) and concurrency are left out; one tick or one call is modelled at a time.
- `Promise.all` batches are left out for the same reason.
- Zustand `persist` storage is left out.
- Floating-point values are not modelled: averages, `toFixed`, the numeric part of `formatBoyut`, upload progress, fractional uptime seconds, and the analytics `interactionRate`. Only the unit choice and integer counts are modelled.
- Performance samples and report dates are kept as the text JavaScript renders for them. Date display formatting on the security page is not modelled.
- `toLowerCase`, `localeCompare`, `getTime`, `JSON.stringify` and JWT signing and verification are parameters. No Unicode or locale rule is modelled.
- TableSort.Sort: the JavaScript engine's sort algorithm is not specified, so an insertion sort stands for it. Its contract (sorted, and a permutation of the input) is what any correct sort gives. It does not fix the order of elements that compare equal, since engine stability is not relied on.
- TableSort.Sort requires a total comparator. `localeCompare` is assumed to be one through the `compare` parameter.
- The BotController methods that the controller refers to but whose code is not present are not part of this model.
- Template creation and update dates, and the other template fields the page only displays, are not modelled.
- Notifications.Remove: its contract only bounds the length; what it removes is stated by `Notifications.RemoveSpec`.
- IpBlocking.Listing: its contract only bounds the length; its content is stated by `IpBlocking.BlockThenList` and `IpBlocking.ListingIgnoresOthers`.
- The 32-bit and double-precision limits of JavaScript numbers are not modelled; ids, counters and sizes are unbounded integers.
- ServerLogs.LogController.GetLogs: `getLogs` hands out the live `this.logs` array (project/src/server/controllers/LogController.ts:59-61), so a caller that kept it sees later entries added at the front until the array is next cut down or cleared, both of which replace it. The model returns the list as a value, so this aliasing is not modelled.
- MemoryDb.InMemoryDB.UpdateBotStatus: `updateBotStatus` changes the stored bot object in place (project/src/server/db/setup.ts:113-115), so a bot obtained earlier from `getBot`, `getAllBots` or `insertBot` shows the new status too. The model stores a new record, and the aliasing is not modelled.
- MemoryDb.InMemoryDB.InsertBot: `insertBot` reads the clock twice, once for each date (project/src/server/db/setup.ts:94-95). The model takes one `now` parameter for both, so the two dates may differ by a tick in the source but not in the model.
- BotControl.SetStatus / BotControl.CheckAll: the source reads the clock separately for the stored `lastUpdate`, for the broadcast `lastUpdate` (project/src/server/controllers/BotController.ts:63 and 71) and for each status-changed event (lines 42 and 51). The model takes one `now` for a whole check, so these times are all equal in the model, while in the source they can differ within one update and from bot to bot.
