# Teletasker dashboard logic in Dafny

This project models the logic of the Teletasker web dashboard, a React
front end. The dashboard lets a user connect a Telegram account, pick chats
for an AI assistant to watch, and see the tasks extracted from those chats.
The model covers the parts of the front end that carry behaviour rather than
markup:

- the per-chat **task cache** over the browser's string store, with its
  five-minute time to live and its whole-cache clear (`TaskCache`);
- the **API layer's decisions**: the response interceptor that re-sends a
  request whose token expired (at most three times), the `withRetry` rule
  that repeats a call after a 401, the unwrapping of the task list in
  `getChatTasks`, the status **poll chain** of `pollChatProcessingStatus`,
  and the `update` event filter of `useTaskUpdates` (`ApiRetry`,
  `ApiTasks`, `ApiPolling`, `ApiUpdates`);
- **chat selection**: the `selectedChats` and `chatConfigs` lists of
  `useChatSelection`, with the rules of the chat list and of the mode step
  drawn from them (`ChatSelection`, `ChatList`, `AssistantModeConfig`);
- the **projections and formatters**: the raw-chat conversion and fetch
  state of `useTelegramChats`, the time-saved figures of the usage dialog,
  the copy-to-clipboard text, the notification list, and the error
  messages of the metrics request (`TelegramChats`, `UsageModal`,
  `CopyTasks`, `Notifications`, `AnalyticsApi`).

State that the source changes in place is a class: the string store
(`TaskCache.Storage`), the selection hook's state, the notification list,
the copy button's flag, the chat-fetch state and the update feed. Each method
states its new state in terms of a pure function, and lemmas prove what the
front end relies on about those functions. Servers are scripts: `answer(n)`
or `statusAt(n)` is the reply to the n-th request. Times, random ids and
locale-dependent strings are parameters.

Shared modules: `Wrappers` (an `Option` type), `Seqs` (`Filter` standing for
`Array.prototype.filter`, with its lemmas), `Decimal` (how JavaScript prints
an integral number, with the proof that the text reads back), and `Types`
(the records of `src/types/index.ts`).

Two behaviours of the code that the model keeps as they are:

- The `update` event handler of `useTaskUpdates` keeps only updates of
  type `new_tasks` (src/services/api.ts:424-434); a `new_task` update is
  dropped there. `ApiUpdates.Kept` keeps only `new_tasks`.
- `pollChatProcessingStatus` does not touch the task cache
  (src/services/api.ts:307-362), also when a chain ends in `error`. The
  model has no cache invalidation after a poll.

## Model

| member | source | states |
|---|---|---|
| TaskCache.CacheKey | src/utils/taskCache.ts:13 | the key carries the `task_cache_` prefix, followed by the chat id when that id is truthy, else by `all` |
| TaskCache.Storage.GetItem | src/utils/taskCache.ts:14 | `getItem` returns the value stored under the key, and null exactly when there is none |
| TaskCache.Storage.SetItem | src/utils/taskCache.ts:41 | `setItem` stores the value under the key; an existing key keeps its place, a new key is enumerated last; no other item changes |
| TaskCache.Storage.RemoveItem | src/utils/taskCache.ts:22 | `removeItem` drops the key and its item, and only those; the other keys keep their order |
| TaskCache.ReadEntry | src/utils/taskCache.ts:14-30 | nothing stored or an empty string reads as missing; text that is not an entry is unreadable; an entry is expired exactly when `now - timestamp > 300000`, and is fresh with its tasks otherwise (an entry exactly 300000 ms old is fresh) |
| TaskCache.GetCachedTasks | src/utils/taskCache.ts:11-31 | returns the tasks of a fresh entry and null otherwise; an expired entry's key is removed and nothing else changes; every other outcome, including an unreadable value, leaves the store unchanged |
| TaskCache.SetCachedTasks | src/utils/taskCache.ts:33-45 | the entry under the chat's key becomes the tasks stamped `now`; every other key keeps its value; a new key is added last |
| TaskCache.SetThenGet | src/utils/taskCache.ts:11-41 | a write followed by a read of the same chat no more than the time to live later returns the written tasks, exactly in their modelled fields |
| TaskCache.ClearTaskCache | src/utils/taskCache.ts:47-59 | with a chat id, removes exactly that key; without one, the keys left are those of the index walk (`SweepFrom`); no unprefixed key is removed and no value changes |
| TaskCache.SweepKeepsOtherKeys | src/utils/taskCache.ts:51-56 | the keys `SweepFrom` leaves (the index walk of `clearTaskCache()`) are old keys, and include every key without the prefix |
| TaskCache.SweepKeepsPrefix | src/utils/taskCache.ts:52-56 | `SweepFrom` never changes the keys before its current index |
| TaskCache.SweepMissesSecondOfTwo | src/utils/taskCache.ts:52-56 | when the first two keys both carry the prefix, the second survives the clear |
| TaskCache.ClearAllLeavesAnEntry | src/utils/taskCache.ts:52-56 | on the store `task_cache_1, task_cache_2` the clear leaves `task_cache_2` |
| TaskCache.ClearAllTaskCaches | src/utils/taskCache.ts:50-57 | corrected clear: removes every prefixed key, keeps every other key in its order with its value |
| ApiRetry.OnResponseError | src/services/api.ts:42-62 | re-send exactly when the error is 403 with detail "Token has expired" and the count is below 3, with the count raised by one; otherwise reject with the error unchanged |
| ApiRetry.SendRequest | src/services/api.ts:40-63 | a request is sent at most four times; every re-send follows a token-expired reply and announces it; the outcome is the last reply; a token-expired reply is passed on only after three re-sends |
| ApiRetry.AttemptBudget | src/services/api.ts:78-79 | the attempt budget is `maxAttempts`, raised to 1 when smaller |
| ApiRetry.WithRetry | src/services/api.ts:74-91 | between 1 and the budget attempts; every attempt but the last failed with 401; a 401 is passed on only when the budget is spent; one token-expired event per 401 |
| ApiTasks.UnwrapTasks | src/services/api.ts:294-296 | a bare array is the list; otherwise `tasks` if truthy, else `data` if truthy, else the empty list |
| ApiTasks.UnwrapRecoversList | src/services/api.ts:294-296 | every accepted envelope hands back the list it carries |
| ApiTasks.GetChatTasks | src/services/api.ts:286-304 | at most three attempts; success exactly when the last attempt succeeded, with its unwrapped body; a failure is passed on unchanged; a 401 is passed on only after the third attempt |
| ApiPolling.ErrorText | src/services/api.ts:334 | the backend's error message when it is present and non-empty; "Unknown error during chat processing" when it is null or empty |
| ApiPolling.PollChatProcessingStatus | src/services/api.ts:307-362 | the loop of `poll` calls makes exactly the callbacks, status queries and task fetches of the chain `Chain(…, 0)` |
| ApiPolling.Settle | src/services/api.ts:332-349 | the end of a chain after a terminal status: no further query; an `error` status taken by `onError` ends the callbacks with its error text; otherwise the tasks are fetched once exactly when `onComplete` is given, and fetched tasks go to `onComplete`, a failed fetch to `onError`, as the last callback |
| ApiPolling.ChainQueries | src/services/api.ts:315-323 | `Chain` (the calls of `poll`) sends at most `maxAttempts` status queries, and none once the budget is spent |
| ApiPolling.ChainContinuesOnlyOnProgress | src/services/api.ts:332-353 | every query before the last got a successful status that is neither `completed` nor `error` |
| ApiPolling.ChainStopsOnProgressOnlyAtBudget | src/services/api.ts:318-353 | the converse: a chain whose last query got a status that is neither `completed` nor `error` has spent the whole budget, so within the budget such a status is always followed by another query |
| ApiPolling.ChainExhaustsBudget | src/services/api.ts:315-353 | when every status within the budget is non-terminal, the chain uses the whole budget, fetches nothing, and its last callback reports "Maximum polling attempts reached" |
| ApiPolling.ChainFetchesOnce | src/services/api.ts:332-349 | tasks are fetched at most once, exactly when the last status is terminal, is not an `error` taken by `onError`, and `onComplete` is given; fetched tasks go to `onComplete` as the last callback, a failed fetch to `onError` |
| ApiPolling.ChainReportsError | src/services/api.ts:328-356 | with `onError` given, a chain whose last query failed ends its callbacks with that request's error, and one whose last status is `error` ends them with the status's error text |
| ApiPolling.ChainSilentWithoutOnError | src/services/api.ts:317-358 | without `onError` a chain reports no error at all: not a spent budget, a failed query, an `error` status or a failed fetch |
| ApiPolling.SettleUpdatesOnce | src/services/api.ts:326-349 | the end of a chain calls `onStatusUpdate` once when it is given and never otherwise |
| ApiPolling.ChainUpdatesComeFirst | src/services/api.ts:326-357 | every callback but the last is `onStatusUpdate` |
| ApiPolling.ChainUpdatesOncePerStatus | src/services/api.ts:326-329 | `onStatusUpdate` is called once per successful status reply and never otherwise |
| ApiUpdates.Kept | src/services/api.ts:424-434 | only updates of type `new_tasks` are kept, never more than the events received |
| ApiUpdates.KeptAppend | src/services/api.ts:424-434 | updates are kept in arrival order |
| ApiUpdates.KeptMembers | src/services/api.ts:424-434 | an update is kept exactly when an event carried it parsed and of type `new_tasks` |
| ApiUpdates.TaskUpdatesFeed.constructor | src/services/api.ts:383 | `updates` starts empty |
| ApiUpdates.TaskUpdatesFeed.OnUpdateEvent | src/services/api.ts:424-434 | a parsed `new_tasks` update is appended at the end; anything else leaves `updates` unchanged |
| TelegramChats.FormatChat | src/hooks/useTelegramChats.ts:36-46 | the id is decimal text that reads back as the numeric id; name is the title and unread the unread count; the avatar is 👤 exactly for type `user`, else 👥; the last message is its text when non-empty and "No messages" when empty |
| TelegramChats.FormatChats | src/hooks/useTelegramChats.ts:36-46 | one display chat per raw chat, in order |
| TelegramChats.FormatChatsKeepsIdsDistinct | src/hooks/useTelegramChats.ts:37 | display ids are distinct exactly when raw ids are |
| TelegramChats.ChatsState.constructor | src/hooks/useTelegramChats.ts:24-26 | no chats, not loading, no error |
| TelegramChats.ChatsState.FetchChats | src/hooks/useTelegramChats.ts:28-54 | no request and no state change unless both connections are up; on success the chats are replaced and the error cleared; on failure the chats are kept and the error is "Failed to load chats. Please try again."; loading is off afterwards |
| ChatSelection.ModeOf | src/hooks/useChatSelection.ts:34 | a mode is found exactly when some config has the id, and it is the mode of a config for that id |
| ChatSelection.ModeOfFirst | src/hooks/useChatSelection.ts:34 | the mode found is that of the first config with the id |
| ChatSelection.Toggle | src/hooks/useChatSelection.ts:24-31 | after `handleToggleChat(id)` the id is selected exactly when it was not and the selection was below the limit; at most one id more; a newly selected id is appended at the end of the unchanged selection |
| ChatSelection.DropConfig | src/hooks/useChatSelection.ts:27 | the configs left are the old ones, modes included, with the id's configs filtered out in order; their ids are the old ids without the id |
| ChatSelection.DropConfigMembers | src/hooks/useChatSelection.ts:27 | a config is kept exactly when it was there and is for another chat |
| ChatSelection.Relabel | src/hooks/useChatSelection.ts:36-38 | same ids in the same order; configs of other ids unchanged; configs of the id get the new mode |
| ChatSelection.SetMode | src/hooks/useChatSelection.ts:33-42 | after `handleSetMode(id, mode)` the id has `mode`; the list keeps its length when the id had a config and grows by one otherwise |
| ChatSelection.ConfiguredChats | src/hooks/useChatSelection.ts:44-49 | never more configured chats than chats, each listed with the mode its chat's config gives |
| ChatSelection.ConfiguredChatsAppend | src/hooks/useChatSelection.ts:44-49 | the chats are listed in `chats` order: the list for `a + b` is that for `a` followed by that for `b` |
| ChatSelection.ToggleMembers | src/hooks/useChatSelection.ts:24-31 | toggling removes a selected id, adds an unselected one exactly when below the limit, and leaves all other ids as they were |
| ChatSelection.ToggleKeepsSelectionValid | src/hooks/useChatSelection.ts:21-31 | toggling keeps the selection free of duplicates and within the limit |
| ChatSelection.ToggleDeselectKeepsOrder | src/hooks/useChatSelection.ts:25-26 | deselecting an id removes just it: the ids before and after it keep their order |
| ChatSelection.ToggleTwiceRestores | src/hooks/useChatSelection.ts:24-31 | selecting a chat and toggling it again restores the selection |
| ChatSelection.ToggleAtLimitIsNoOp | src/hooks/useChatSelection.ts:28-30 | at the limit, toggling an unselected chat changes nothing |
| ChatSelection.SetModeLookup | src/hooks/useChatSelection.ts:33-42 | after setting a mode the chat has that mode, and every other chat keeps its mode or lack of one |
| ChatSelection.SetModeIds | src/hooks/useChatSelection.ts:33-42 | config ids keep their order; a new id is appended; config ids stay unique |
| ChatSelection.SetModeIdempotent | src/hooks/useChatSelection.ts:33-42 | setting the same mode twice is setting it once |
| ChatSelection.ConfiguredChatsMembers | src/hooks/useChatSelection.ts:44-49 | a chat is listed with a mode exactly when it is in `chats` and its config has that mode |
| ChatSelection.ConfiguredChatsAll | src/hooks/useChatSelection.ts:44-49 | when every chat has a config, all chats are listed in their order |
| ChatSelection.ChatSelectionState.constructor | src/hooks/useChatSelection.ts:21-22 | both lists start empty, which satisfies the invariants |
| ChatSelection.ChatSelectionState.HandleToggleChat | src/hooks/useChatSelection.ts:24-31 | the selection becomes `Toggle`; deselecting drops the chat's config; the invariants and "configs only for selected chats" are preserved |
| ChatSelection.ChatSelectionState.HandleSetMode | src/hooks/useChatSelection.ts:33-42 | the configs become `SetMode`; the selection is unchanged; config ids stay unique; configs stay on selected chats when the chat is selected |
| ChatList.Rows | src/components/ChatList.tsx:29-31 | one row per chat in order; selected exactly when the id is selected; disabled (`IsDisabled`) exactly when unselected and the selection is at the limit; never both |
| ChatList.Click | src/components/ChatList.tsx:37 | the toggle handler is called, with the chat's id, exactly when the row is not disabled |
| ChatList.ClickChangesSelection | src/components/ChatList.tsx:37 | the selection after a click (`AfterClick`) differs from the old one exactly when the row is not disabled |
| ChatList.ClickIsToggle | src/components/ChatList.tsx:31-37 | the click guard never blocks a change: `AfterClick` is what the hook's toggle does |
| ChatList.BannerWhenFull | src/components/ChatList.tsx:54 | within a positive limit, the banner (`BannerShown`) shows exactly when the selection is full, and then every unselected row is disabled |
| AssistantModeConfig.ConfigureLabel | src/components/AssistantModeConfig.tsx:75 | the label starts with "Configure " |
| AssistantModeConfig.StartLabel | src/components/AssistantModeConfig.tsx:70-75 | the label is "Start AI Assistant" exactly when the button is enabled (`StartEnabled`: equal counts), else the "Configure k more" label for `k = selected - configs` |
| AssistantModeConfig.ConfigureLabelReadsBack | src/components/AssistantModeConfig.tsx:75 | the count in the label reads back as `k`, followed by " more chat" exactly for `k = 1` and " more chats" otherwise |
| AssistantModeConfig.ActiveButtons | src/components/AssistantModeConfig.tsx:40-56 | at most one mode button of a chat is active (`ButtonActive`), and one is exactly when the chat has a config |
| AssistantModeConfig.PressActivates | src/components/AssistantModeConfig.tsx:40-57 | pressing a mode button makes it active for its chat and leaves other chats' buttons unchanged |
| AssistantModeConfig.StartEnabledIffAllConfigured | src/components/AssistantModeConfig.tsx:70-75 | under the selection invariants, `k` is the number of selected chats without a config, and the start button is enabled exactly when every selected chat has one |
| UsageModal.UnitFor | src/components/UsageModal.tsx:17-22 | seconds below 60, minutes below 3600, hours below 86400, days otherwise |
| UsageModal.RoundDiv | src/components/UsageModal.tsx:18-21 | the result is the integer nearest to `s / k`, the upper one on a tie |
| UsageModal.ShownMonotone | src/components/UsageModal.tsx:17-22 | `Shown` (the number and unit `formatTimeSaved` prints) never prints more seconds as less: a larger unit, or the same unit with a number no smaller |
| UsageModal.HeadlineCoversCards | src/components/UsageModal.tsx:44-49 | `calculateTimeSaved` adds the three cards' figures, so for non-negative counts the headline never prints as less than any card |
| UsageModal.ShownApproximates | src/components/UsageModal.tsx:18-21 | the printed number is within half a unit of the duration |
| UsageModal.ShownBands | src/components/UsageModal.tsx:17-22 | under a minute the seconds are printed exactly; minutes print as 1 to 60, hours as 1 to 24, days as at least 1 |
| UsageModal.RoundDivMonotone | src/components/UsageModal.tsx:18-21 | more seconds never print as fewer units |
| UsageModal.FormatTimeSavedReadsBack | src/components/UsageModal.tsx:17-22 | the text of `FormatTimeSaved` is the number `Shown` gives, which reads back, then a space and the plural unit word |
| CopyTasks.SelectTasks | src/components/CopyTasksButton.tsx:25-31 | never more tasks than given; with no chat chosen, all tasks |
| CopyTasks.SelectTasksMembers | src/components/CopyTasksButton.tsx:25-31 | exactly the tasks of the chosen chat are copied; with no chat chosen, every task |
| CopyTasks.SelectTasksKeepsOrder | src/components/CopyTasksButton.tsx:27 | selection keeps the tasks' order |
| CopyTasks.FormatTask | src/components/CopyTasksButton.tsx:39 | a block starts with "Task: " and ends with a blank line |
| CopyTasks.FormatTasks | src/components/CopyTasksButton.tsx:38-40 | the text is empty exactly when there are no tasks |
| CopyTasks.FormatTasksAppend | src/components/CopyTasksButton.tsx:38-40 | the text is one block per task, in order |
| CopyTasks.CopyText | src/components/CopyTasksButton.tsx:22-40 | nothing is written when no task is selected; otherwise the non-empty text of the selected tasks |
| CopyTasks.ShownButtonCopiesAll | src/components/CopyTasksButton.tsx:22-56 | a shown button (`ButtonShown`: a non-empty task list) with no chat chosen copies the text of all tasks |
| CopyTasks.ButtonLabel | src/components/CopyTasksButton.tsx:64 | the caption is "✓ Copied!" exactly while `copySuccess` holds, and "Copy Tasks" otherwise |
| CopyTasks.CopyButton.constructor | src/components/CopyTasksButton.tsx:20 | `copySuccess` starts false |
| CopyTasks.CopyButton.CopyTasksToClipboard | src/components/CopyTasksButton.tsx:22-52 | writes `CopyText`; `copySuccess` becomes true after an accepted write, so the caption reads "✓ Copied!", and is unchanged otherwise |
| CopyTasks.CopyButton.ResetCopySuccess | src/components/CopyTasksButton.tsx:47 | `copySuccess` becomes false and the caption reads "Copy Tasks" again |
| Notifications.Prefix | src/components/Notifications.tsx:36 | `substring(0, n)`: exactly the first `min(|s|, n)` characters of the text |
| Notifications.CreateNotification | src/components/Notifications.tsx:28-57 | a notification exactly for `new_task`, `new_tasks` and `polling_update`, with the given id and time; `success` exactly for `new_task`, `info` otherwise |
| Notifications.NewTaskMessage | src/components/Notifications.tsx:33-39 | "New task: ", the whole description when it has at most 50 characters and else its first 50, then "..." |
| Notifications.NewTasksMessage | src/components/Notifications.tsx:40-46 | the count, which reads back, then " new task(s) added" |
| Notifications.PollingUpdateMessage | src/components/Notifications.tsx:47-53 | "Processed ", the count of processed messages, which reads back, then " message(s)" |
| Notifications.LatestNotification | src/components/Notifications.tsx:24-25 | an empty update list gives no notification |
| Notifications.OnlyLatestUpdateCounts | src/components/Notifications.tsx:24-25 | only the last update decides the notification |
| Notifications.Dismissed | src/components/Notifications.tsx:19-21 | never more notifications than before |
| Notifications.DismissedMembers | src/components/Notifications.tsx:19-21 | exactly the notifications with that id are removed |
| Notifications.DismissedKeepsOrder | src/components/Notifications.tsx:19-21 | the rest keep their order |
| Notifications.DismissedIdempotent | src/components/Notifications.tsx:19-21 | dismissing twice is dismissing once |
| Notifications.DismissedUnknownId | src/components/Notifications.tsx:19-21 | dismissing an id no notification has changes nothing |
| Notifications.NotificationList.constructor | src/components/Notifications.tsx:16 | the list starts empty |
| Notifications.NotificationList.OnUpdates | src/components/Notifications.tsx:23-62 | the latest update's notification, if any, is appended at the end; otherwise the list is unchanged |
| Notifications.NotificationList.DismissNotification | src/components/Notifications.tsx:19-21 | the list becomes `Dismissed` of the old one |
| AnalyticsApi.ClassifyError | src/services/analytics_api.ts:49-59 | 401, 403, 500 and above, and no response each map to their message; any other status rethrows the error unchanged |
| AnalyticsApi.GetUserMetrics | src/services/analytics_api.ts:17-61 | with a working API client: the request is made whatever the token; at most three attempts; the metrics of a successful last attempt, else the classified error of the last one; "Authentication expired" only after all three attempts got 401 |
| AnalyticsApi.GetUserMetricsAsWritten | src/services/analytics_api.ts:2-59 | with the client the default import yields: every call fails after one attempt with "Network error. Please check your connection." |

## Left out

- Network, timers and the browser: axios instances and headers, the
  `exponential-backoff` delays, the `setTimeout` waits (1 s after a token
  expiry, the poll interval, the 2 s copy reset, the 5 s auto-dismiss), the
  10 s timeout race of the metrics request, and the clipboard API. Replies are
  scripts, and a timer firing is a method call.
- The stream connection of `useTaskUpdates` (open, close, reconnect after
  5 s or after a token expiry, `ping`). Only the `update` event filter is
  modelled.
- Concurrency: overlapping poll chains, stale React closures, and two
  handlers racing on the same state. Every operation runs alone.
- `Math.random` notification ids, `new Date()` timestamps and
  `toLocaleTimeString` chat times. They are parameters.
- `src/contexts/AuthContext.tsx`, the chat sort of `ChatSelectionModal.tsx`,
  and the markup-only components are not part of this model.
- The `Chat` and `Message` records of `src/types/index.ts`. Where a
  component receives `Chat` records, the model takes their ids.
- Failing `localStorage.setItem` (quota errors). It is caught and only logged.
- TaskCache.SetThenGet: the round trip is exact only for tasks without the
  optional `createdAtRaw` and `messageDateRaw` dates (src/types/index.ts:18-19),
  which the model's `Task` does not carry. `JSON.stringify` writes such a
  `Date` as an ISO string and `JSON.parse` gives it back as a string, so a
  task that carries them comes back changed.
- ApiTasks.UnwrapTasks: a truthy `tasks` or `data` that is not an array (an
  object, a number, a non-empty string) is returned as it is by the source
  (src/services/api.ts:294-296); the model's envelope fields are either
  falsy or a list, so that shape is not modelled. A null `response.data`
  makes `response.data.tasks` throw inside the request operation; that
  error carries no `response`, so `withRetry` does not retry it and
  `getChatTasks` rethrows it (src/services/api.ts:294-301). The model
  expresses that case only as a scripted reply that fails without a
  response.
- TaskCache.ReadEntry: JSON that parses but is not a `{tasks, timestamp}`
  object (`{}`, `null`) is not distinguished from other unparseable text.
  In the source, `{}` returns `undefined` and `null` is caught as an error.
- TaskCache.Storage: models `localStorage` as keys in enumeration order plus
  a map. It assumes that removing a key keeps the order of the others; the
  Web Storage standard leaves the order to the browser.
- ApiRetry.AttemptBudget: the attempt budget follows the `exponential-backoff`
  library, which lifts a budget below 1 to 1 and asks the retry predicate
  after every failure. That library is not part of this model.
- ApiRetry.SendRequest: a request with no `config` (where the interceptor
  itself would throw) is not modelled.
- The defaults of `pollChatProcessingStatus` (`intervalMs` 2000, `maxAttempts`
  30) are not modelled: the interval is a timer, and `maxAttempts` is a
  parameter of the model.
- ApiPolling.Chain: exceptions thrown by the caller's own callbacks are not
  modelled.
- TelegramChats.FormatChat: a raw chat without `last_message` (which would
  throw inside the `map`) is not modelled; a failing conversion counts as a
  failed fetch only through `reply`.
- UsageModal.RoundDiv: exact for integer second counts. Floating point only
  matters beyond 2^53 seconds, which is not modelled.
- Notifications.CreateNotification: counts are integers. A missing
  `new_task_count` or `processed_messages` (printed `undefined`) is not
  modelled. `substring` counts UTF-16 code units, the model counts
  characters.
- AssistantModeConfig.StartLabel: the component receives `Chat` records
  (`selectedChats: Chat[]`, src/components/AssistantModeConfig.tsx:19); no
  caller in the source shows how they are built. The model takes the
  selected ids, so `selectedChats.length` is the number of selected ids.
- The fetch state of the usage dialog (loading, "Failed to load usage
  metrics") is view state around `getUserMetrics` and is not modelled.
- Decimal: numbers of magnitude 1e21 or more, which JavaScript prints in
  exponent notation, are not modelled; the counts printed here are far
  smaller.

## Findings

| source | as written | input that shows it | evidently intended | confidence | as-written member | corrected member |
|---|---|---|---|---|---|---|
| src/services/analytics_api.ts:2 | `import localApi from './api'` is a default import, but src/services/api.ts:68 exports `localApi` only by name, so `localApi` is undefined and `localApi.get` (analytics_api.ts:34) throws a TypeError that has no `response`; `withRetry` does not retry it and the catch turns it into the network message | any call of `getUserMetrics`: it fails after one attempt with "Network error. Please check your connection." | `import { localApi } from './api'`, so the request reaches the server | not executed; assumes a build that does not type-check the import (a type-checked build stops there instead) | AnalyticsApi.GetUserMetricsAsWritten | AnalyticsApi.GetUserMetrics |
| src/utils/taskCache.ts:52-56 | `clearTaskCache()` walks `localStorage.key(i)` upward while removing keys; each removal shifts the later keys down, so the key after a removed one is skipped | store holding `task_cache_1`, `task_cache_2` in that order: the clear leaves `task_cache_2` | every key with the `task_cache_` prefix is removed | not executed; assumes the store keeps the remaining keys' order on removal | TaskCache.ClearTaskCache, TaskCache.SweepMissesSecondOfTwo, TaskCache.ClearAllLeavesAnEntry | TaskCache.ClearAllTaskCaches |
