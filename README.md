# Sparkle core, modelled in Dafny

Sparkle is a desktop front end for the mihomo proxy core. This project models
three pieces of it and proves properties of each.

- **The controller client** (`src/main/core/mihomoApi.ts`), in two modules:
  - `MihomoStreams` covers the four streaming subscriptions: traffic, memory,
    logs and connections.
    - The source keeps four hand-written copies of the same globals and
      handlers. Here they are one `StreamSession` class with a `topic`.
    - Each session has a retry budget, a retry counter, a stop flag, the
      socket handle, the scheduled reconnect timers and the events sent to
      the window.
    - Every handler is a method: `start*`, `stop*`, `restartMihomoConnections`,
      `onmessage`, `onclose`, `onerror`, and the reconnect timer firing.
    - The jittered exponential backoff (`getBackoffDelay`) is modelled with
      the jitter as a parameter.
  - `MihomoApi` covers:
    - the shared HTTP client cache keyed by socket path (`getAxios`) and its
      error interceptor;
    - closing connections by proxy chain (`mihomoCloseAllConnections`);
    - the proxy-group list (`mihomoGroups`): filter the runtime groups,
      append GLOBAL, reorder in global mode.
- **The configuration store** (`src/main/config/app.ts`), module `AppConfig`:
  - validation;
  - encryption of the four sensitive fields at the disk boundary;
  - the temp-file / backup / rename write;
  - loading with fallback to the backup and to the default;
  - the synchronous loader;
  - patch-then-persist through a chained write queue.

  The file system is a map from path to content, with a platform flag and
  injected failures. The imported helpers are function values; what the model
  assumes of them is stated once, in `AppConfig.Lawful`.
- **The log page's cache** (`src/renderer/src/pages/logs.tsx`), module
  `LogsPage`:
  - the shared cache capped at 500 entries, and its `clean`;
  - the pending buffer, and the throttled flush whose timer is armed at most
    once;
  - trigger registration;
  - the filter applied before display.

`Json` holds the parsed-value type and the few JavaScript rules the core relies
on: truthiness, `typeof`, and object spread.

Behaviours of the code worth knowing, which the model keeps:

- **First reconnect delay.** The counter is incremented before the delay is
  computed, so the first reconnect waits about 2 s, not 1 s.
- **Traffic messages.** Traffic parses its payload before it resets the budget,
  so a malformed traffic message resets nothing. The other three topics reset
  first.
- **Stop.** `stop*` closes the socket only when it is open.
- **Restart.** Only the connections topic has a restart.
- **Error handler.** `onerror` closes the current handle, which need not be the
  socket that raised the error.
- **Stale timer.** A reconnect timer scheduled before a stop-then-start still
  opens a socket when it fires, so a second socket can be opened.
- **Valid configuration.** `isValidConfig` accepts a `sysProxy` that is an
  array.
- **Failed backup copy.** A failure to copy the backup aborts the write, like
  any other step.
- **Loading.** `getAppConfig` falls back to the default, not to the backup,
  when reading or parsing the primary file throws. The backup it falls back to
  is not validated.
- **Decryption.** A single field that fails to decrypt makes the whole load
  return the default.

## Model

| member | source | states |
|---|---|---|
| `MihomoStreams.BaseDelay` | src/main/core/mihomoApi.ts:30-32 | the pre-jitter delay lies between 1000 and 30000 ms |
| `MihomoStreams.BaseDelayMonotone` | src/main/core/mihomoApi.ts:30-32 | the base delay never decreases as the attempt counter grows |
| `MihomoStreams.BaseDelayCapped` | src/main/core/mihomoApi.ts:30-32 | from attempt 5 on, the base delay is the 30000 ms ceiling |
| `MihomoStreams.BaseDelayDoubles` | src/main/core/mihomoApi.ts:30-32 | below the ceiling (attempts 0 to 4), each attempt doubles the base delay |
| `MihomoStreams.BackoffDelay` | src/main/core/mihomoApi.ts:30-36 | with jitter within ±20% of the base, the delay is at least 1000 ms and within 0.8 to 1.2 times the base |
| `MihomoStreams.EndpointFor` | src/main/core/mihomoApi.ts:353-413 | a socket targets the session's path and topic; only logs carries a level and only connections an interval, each the configured value when there is one and "info" or 500 otherwise |
| `MihomoStreams.StreamSession.constructor` | src/main/core/mihomoApi.ts:12-27 | a topic starts with budget 10, counter 0, not stopped, no handle, nothing scheduled |
| `MihomoStreams.StreamSession.Open` | src/main/core/mihomoApi.ts:245-246 | creating a socket adds one socket, makes it the handle and attaches its handlers; it closes and detaches nothing and changes no other state |
| `MihomoStreams.StreamSession.Connect` | src/main/core/mihomoApi.ts:353-356 | calling the open function creates the socket at once for traffic and memory; logs and connections are suspended at their configuration read, with no socket yet |
| `MihomoStreams.StreamSession.ResumeOpen` | src/main/core/mihomoApi.ts:353-356 | a suspended logs or connections call creates its socket and makes it the handle, whether or not the topic was stopped meanwhile |
| `MihomoStreams.StreamSession.ResumeOpenChecked` | src/main/core/mihomoApi.ts:353-356 | corrected resumption: a stopped topic gets no socket and keeps holding no handle; otherwise one socket is created as before |
| `MihomoStreams.StreamSession.Start` | src/main/core/mihomoApi.ts:229-232 | start clears the stop flag and calls the open function once; budget and counter are kept |
| `MihomoStreams.StreamSession.Stop` | src/main/core/mihomoApi.ts:234-243 | stop sets the flag and drops the handle; it detaches that socket and closes it only when open; budget, counter and timers are kept; a second stop changes nothing |
| `MihomoStreams.StreamSession.Restart` | src/main/core/mihomoApi.ts:404-407 | restart (connections only) is a stop followed by a start: the old socket is detached and closed iff it is open, the flag is cleared, and one open call waits for the configuration with no handle held |
| `MihomoStreams.StreamSession.OnMessage` | src/main/core/mihomoApi.ts:248-252 | a message on a listening socket restores budget 10 and counter 0, except a malformed traffic payload; only parsed payloads are emitted, in order |
| `MihomoStreams.StreamSession.OnClose` | src/main/core/mihomoApi.ts:269-278 | a close spends one retry, adds one to the counter and schedules exactly one reconnect after the backoff delay, iff budget > 0 and not stopped; otherwise nothing changes |
| `MihomoStreams.StreamSession.OnError` | src/main/core/mihomoApi.ts:280-285 | an error closes and drops the current handle, whichever socket raised it |
| `MihomoStreams.StreamSession.FireReconnect` | src/main/core/mihomoApi.ts:274-276 | a fired timer leaves the schedule; it calls the open function iff the topic is not stopped at that moment |
| `MihomoStreams.StreamSession.CloseRepeatedly` | src/main/core/mihomoApi.ts:269-278 | k closes without a message or stop, each with any jitter within 20% of its own attempt's base delay, schedule min(k, budget) reconnects, at most 10 |
| `MihomoStreams.StreamSession.StopDuringConfigRead` | src/main/core/mihomoApi.ts:337-356 | as written: a stop during a started topic's configuration read ends with the topic stopped and a new attached socket held as its handle |
| `MihomoStreams.StreamSession.StopDuringConfigReadChecked` | src/main/core/mihomoApi.ts:337-356 | corrected: the same sequence ends stopped with no handle and no new socket |
| `MihomoStreams.ConsecutiveClosesSchedule` | src/main/core/mihomoApi.ts:13-14 | k closes spend exactly min(k, budget) retries |
| `MihomoApi.ClientCache.constructor` | src/main/core/mihomoApi.ts:11 | no client is cached at start |
| `MihomoApi.ClientCache.GetAxios` | src/main/core/mihomoApi.ts:38-65 | the cached client is reused iff there is one, `force` is unset and its socket path is current; otherwise a new client (localhost, 15000 ms) is built and cached; afterwards the cache is bound to the current path |
| `MihomoApi.OnRejected` | src/main/core/mihomoApi.ts:57-62 | a failed request rejects with the response body iff there is a response with a truthy body, and otherwise with the error itself |
| `MihomoApi.OnChainOf` | src/main/core/mihomoApi.ts:96-98 | the targets are exactly the listed connections whose chain names the group |
| `MihomoApi.OnChainOfAppend` | src/main/core/mihomoApi.ts:96-98 | the target selection keeps list order |
| `MihomoApi.CloseAllConnections` | src/main/core/mihomoApi.ts:92-109 | with a non-empty name, one close request per target, in list order (a missing list gives none); otherwise a single bulk delete |
| `MihomoApi.ListedDecls` | src/main/core/mihomoApi.ts:127-129 | a runtime group is kept iff the proxy table has it, with members, and not hidden |
| `MihomoApi.ListedDeclsAppend` | src/main/core/mihomoApi.ts:127-135 | the kept groups are in runtime order |
| `MihomoApi.TaggedTable` | src/main/core/mihomoApi.ts:129-131 | tagging the runtime url changes no key, member list or hidden flag of the proxy table |
| `MihomoApi.TaggedTableLastUrl` | src/main/core/mihomoApi.ts:127-131 | a listed group's entry gets as `testUrl` the url of the last listed runtime group of that name |
| `MihomoApi.TaggedTableUntouched` | src/main/core/mihomoApi.ts:129-131 | an entry that no listed runtime group names is left exactly as it was |
| `MihomoApi.MoveToFront` | src/main/core/mihomoApi.ts:145 | the splice/unshift step keeps the length (an empty list becomes one element) and puts the element at the index first, the last one for -1, `undefined` for an empty list |
| `MihomoApi.FindIndex` | src/main/core/mihomoApi.ts:144 | the result is -1 iff no group has the name; otherwise it is the first group with that name |
| `MihomoApi.CollectRuntimeGroups` | src/main/core/mihomoApi.ts:127-135 | the loop yields the listed groups with their runtime urls, and the tagged table |
| `MihomoApi.MihomoGroups` | src/main/core/mihomoApi.ts:121-148 | direct mode gives []; otherwise the result is the specified list, or the TypeError the code throws |
| `MihomoApi.GroupsSpec` | src/main/core/mihomoApi.ts:121-148 | direct mode gives [] and the table; otherwise a successful result carries the tagged table and the runtime groups plus at most one more entry |
| `MihomoApi.RuntimeGroupsHaveGlobal` | src/main/core/mihomoApi.ts:136 | GLOBAL is among the collected groups iff a listed runtime group is named GLOBAL |
| `MihomoApi.GroupsInRuleMode` | src/main/core/mihomoApi.ts:126-142 | outside global mode the listed runtime groups come first, and GLOBAL is appended iff it is missing and not hidden |
| `MihomoApi.GroupsFailure` | src/main/core/mihomoApi.ts:136-142 | the call throws iff GLOBAL is not collected and the table has no GLOBAL entry, or has a visible one without members |
| `MihomoApi.GlobalModeReordersRuleMode` | src/main/core/mihomoApi.ts:143-146 | global mode gives the rule-mode list after the splice/unshift step, and fails exactly when rule mode fails |
| `MihomoApi.MoveGlobalToFront` | src/main/core/mihomoApi.ts:143-146 | when GLOBAL is listed, the reordering puts it first and keeps the others in order, as a permutation |
| `MihomoApi.GlobalModeWithoutGlobal` | src/main/core/mihomoApi.ts:143-146 | with GLOBAL hidden in global mode, the last group moves to the front, and an empty list becomes [undefined] |
| `MihomoApi.GlobalFirst` | src/main/core/mihomoApi.ts:143-146 | the intended reordering: a permutation with GLOBAL first when present, and the list unchanged otherwise |
| `AppConfig.IsValidConfig` | src/main/config/app.ts:20-24 | valid iff the value is a mapping whose `sysProxy` entry is a mapping or an array |
| `AppConfig.SensitiveFieldsDistinct` | src/main/config/app.ts:13-18 | the four encrypted field names are distinct |
| `AppConfig.Encrypted` | src/main/config/app.ts:72-83 | encryption adds and drops no key and leaves every unlisted field as it was |
| `AppConfig.EncryptConfig` | src/main/config/app.ts:72-83 | the loop encrypts exactly the listed fields that hold non-empty strings |
| `AppConfig.Decrypted` | src/main/config/app.ts:54-70 | decryption fails iff a listed marked string does not decrypt; otherwise it keeps the keys and every unlisted field |
| `AppConfig.DecryptConfig` | src/main/config/app.ts:54-70 | the loop decrypts exactly the listed fields holding marked non-empty strings, keeps legacy plaintext, and aborts when a decryption throws |
| `AppConfig.DecryptUndoesEncrypt` | src/main/config/app.ts:54-83 | decrypting an encrypted configuration gives back the original |
| `AppConfig.EncryptedOnDisk` | src/main/config/app.ts:72-83 | after encryption every listed non-empty string is in marked form, every other entry is unchanged, and no key is added or lost |
| `AppConfig.DecryptKeepsUnmarked` | src/main/config/app.ts:54-70 | decryption keeps the keys, legacy plaintext and every unlisted entry |
| `AppConfig.PathsDistinct` | src/main/config/app.ts:27-29 | the primary, temp and backup paths are three different files |
| `AppConfig.LoadConfig` | src/main/config/app.ts:85-99 | a valid primary is returned decrypted (the default if that throws); any other non-default result is the decrypted backup of a primary that parses but is invalid |
| `AppConfig.LoadFallsBackToBackup` | src/main/config/app.ts:88-95 | an invalid primary makes the load use the backup, while the synchronous loader still returns an object primary |
| `AppConfig.GetAppConfigSync` | src/main/config/app.ts:114-125 | a primary that parses to a non-null object is returned decrypted (the default if that throws); any other case gives the default |
| `AppConfig.SyncLoadIgnoresBackup` | src/main/config/app.ts:114-125 | the synchronous loader never reads the backup |
| `AppConfig.SavedConfigLoadsBack` | src/main/config/app.ts:104-125 | a configuration saved the way a patch saves it loads back as itself; through getAppConfig this needs it to be valid |
| `AppConfig.ConfigStore.constructor` | src/main/config/app.ts:9-10 | nothing is cached and the write queue is resolved |
| `AppConfig.ConfigStore.SafeWrite` | src/main/config/app.ts:26-52 | success: new primary, old primary in the backup, no temp file. Failure: the primary is kept, except after the win32 unlink, and the temp file is removed unless that also fails. Only the three paths change |
| `AppConfig.ConfigStore.WriteSteps` | src/main/config/app.ts:31-41 | the try block performs write, copy, unlink (win32 only) and rename in order, stopping at the first that throws; the resulting files and the primary's history are those of the step sequence |
| `AppConfig.AfterSteps` | src/main/config/app.ts:31-41 | the step that throws is the injected one; when none throws, the primary holds the new content and no temp file is left |
| `AppConfig.TraceAdded` | src/main/config/app.ts:31-41 | the primary changes at most twice: it is emptied only by the win32 unlink of an existing file, and receives the new content iff no step throws |
| `AppConfig.StepsOutcome` | src/main/config/app.ts:31-41 | the try block throws exactly at the first injected step it performs; the copy and unlink are performed only when a primary exists, and the unlink only on win32 |
| `AppConfig.StepsTouchThreePaths` | src/main/config/app.ts:26-41 | the steps change no path other than the primary, temp and backup files |
| `AppConfig.StepsKeepPrimaryOnFailure` | src/main/config/app.ts:31-41 | a throwing step keeps the primary, except a failed rename after the win32 unlink, which leaves no primary |
| `AppConfig.StepsSuccess` | src/main/config/app.ts:31-41 | when no step throws, the primary holds the new content, the backup holds the previous primary, and the temp file is gone |
| `AppConfig.ConfigStore.GetAppConfig` | src/main/config/app.ts:85-102 | the cache is returned unless `force` or empty; otherwise the load result is cached and returned |
| `AppConfig.ConfigStore.MergeAndWrite` | src/main/config/app.ts:106-110 | a queued patch merges into the cache and then writes the encrypted YAML; the merge stays even if the write fails |
| `AppConfig.ConfigStore.Patch` | src/main/config/app.ts:104-112 | as written: after a failed write, each later patch rejects with that error without merging or writing |
| `AppConfig.ConfigStore.PatchSettled` | src/main/config/app.ts:104-112 | as intended: every patch merges and writes once the previous one has settled |
| `AppConfig.ConfigStore.FailedWriteBlocksLaterPatches` | src/main/config/app.ts:104-112 | as written: a failed write makes the next fault-free patch fail and leaves it unmerged |
| `AppConfig.ConfigStore.PatchesApplyInCallOrder` | src/main/config/app.ts:104-112 | corrected queue: a patch after a failed one is still written; the last patch's plain values win, and the file loads back as the cache |
| `LogsPage.Push` | src/renderer/src/pages/logs.tsx:36-41 | one push ends the cache with the entry and, from under 500 entries, leaves min(499, n + 1) entries |
| `LogsPage.Appended` | src/renderer/src/pages/logs.tsx:36-42 | a flush keeps the cache under 500 entries and ends it with the last buffered entry |
| `LogsPage.PushKeepsNewest` | src/renderer/src/pages/logs.tsx:38-41 | pushing onto the newest min(499, n) entries of a log gives the newest min(499, n + 1) entries of the log with the entry added |
| `LogsPage.AppendedKeepsNewest` | src/renderer/src/pages/logs.tsx:36-42 | a flush into a cache of at most 499 entries leaves the newest min(499, old + new) entries of old ++ new, in order |
| `LogsPage.LogCache.constructor` | src/renderer/src/pages/logs.tsx:13-30 | empty cache, no trigger, empty buffer, no timer armed |
| `LogsPage.LogCache.Clean` | src/renderer/src/pages/logs.tsx:20-25 | clean empties the cache and calls a registered trigger once with the empty cache |
| `LogsPage.LogCache.FlushLogs` | src/renderer/src/pages/logs.tsx:32-51 | an empty buffer changes nothing and calls nothing; otherwise the entries go into the cache in order, the buffer is emptied, and a registered trigger is called once with the cache |
| `LogsPage.LogCache.HandleLog` | src/renderer/src/pages/logs.tsx:70-80 | every entry is buffered, and a flush timer is armed only when none is, so at most one flush is pending |
| `LogsPage.LogCache.FireFlushTimer` | src/renderer/src/pages/logs.tsx:75-78 | a timer that fires flushes and disarms, leaving no flush pending |
| `LogsPage.LogCache.RegisterTrigger` | src/renderer/src/pages/logs.tsx:100-105 | a mount installs its trigger and returns the one it replaces |
| `LogsPage.LogCache.UnregisterTrigger` | src/renderer/src/pages/logs.tsx:107-110 | an unmount restores the trigger it replaced |
| `LogsPage.LogCache.MountFlushUnmount` | src/renderer/src/pages/logs.tsx:100-111 | a flush while a page is mounted reaches that page's trigger once, and unmounting restores the previous trigger |
| `LogsPage.Select` | src/renderer/src/pages/logs.tsx:61-63 | the selection holds exactly the entries whose payload or type matches, and is no longer than the input |
| `LogsPage.SelectAppend` | src/renderer/src/pages/logs.tsx:61-63 | the selection keeps order |
| `LogsPage.FilteredLogs` | src/renderer/src/pages/logs.tsx:59-64 | an empty filter shows every log unchanged; otherwise exactly the matching entries |
| `LogsPage.EmptyFilterSelectsAll` | src/renderer/src/pages/logs.tsx:59-64 | when every string contains "", the empty-filter shortcut agrees with filtering |

## Left out

- The WebSocket, HTTP over the unix socket and Electron IPC transports are not modelled:
  - a socket is an id and its events are method calls;
  - a request is a `Request` value;
  - an event sent to a window is an entry of `emitted` or `notified`.
- The tray tooltip, the floating window and `calcTraffic` are not modelled; they are display only.
- Timers are modelled as entries that a separate method fires, with no clock.
- The only suspension point of the streams that is modelled is the configuration read of the logs and connections open functions (`ResumeOpen`); other interleavings of awaited calls are not modelled.
- `MihomoStreams.BackoffDelay` takes the jitter as an integer number of milliseconds, not `Math.random` in floating point.
- Numbers are modelled as unbounded integers.
- `mihomoIpcPath`, `getRuntimeConfig`, `getControledMihomoConfig` and `getAppConfig` (as called by the connections stream) are parameters: a socket path, a mode, a runtime group list, a log level and an interval.
- A failing fetch of the connection list in `mihomoCloseAllConnections` is not modelled; a failing single close is ignored, as in the code.
- `MihomoApi.MihomoGroups` assumes each proxy entry's `name` equals its key in the table, and resolves the members of `all` by name in the returned table instead of copying references. It models only the `all`, `hidden` and `testUrl` fields of a proxy entry.
- The thin forwarding calls (`mihomoVersion`, `mihomoRules`, `mihomoProxyDelay`, the upgrade calls and the rest) are not modelled: each only forwards one request.
- Object spread copies only mappings; spreading a string or an array (which JavaScript turns into index keys) gives an empty mapping.
- The imported helpers are known only through `AppConfig.Lawful`:
  - encryption, decryption and the encrypted-marker test;
  - YAML parse and print;
  - `deepMerge`, where only "a non-mapping patch value replaces the old one" is assumed;
  - the case-insensitive substring test.
- `AppConfig.ConfigStore.GetAppConfig` leaves out the final `typeof appConfig !== 'object'` check: a cached configuration is always a mapping here.
- `AppConfig.ConfigStore.Patch` does not model concurrency: queued patches are applied one after another in call order, and the asynchronous interleaving is not modelled.
- The `time` stamp that a flush writes into each log entry is not modelled; it is wall-clock formatting.
- The React state of the log page is not modelled, apart from the trigger's identity and the snapshots it receives. That includes the scroll-to-end effect and the initial `useState` aliasing of the cache array.
- The route table and the editor component are not modelled: they are UI configuration.

## Findings

| source | as written | input that shows it | evidently intended | confidence | as-written member | corrected member |
|---|---|---|---|---|---|---|
| src/main/config/app.ts:104-112 | each patch awaits the previous write promise, which stays rejected after one failed write | a patch whose temp-file write throws, then any patch with no fault | a failed write does not block later patches: each waits for the previous one to settle, then merges and writes | high; not executed | `AppConfig.ConfigStore.FailedWriteBlocksLaterPatches` | `AppConfig.ConfigStore.PatchesApplyInCallOrder` |
| src/main/core/mihomoApi.ts:337-356 | the logs open function awaits the configuration after the stop check, then creates and stores the socket without checking the stop flag again (the connections topic, lines 388-413, is the same) | start the logs topic, stop it before the configuration read returns, then let the read return | a topic stopped during the read opens no socket and holds no handle | medium; not executed | `MihomoStreams.StreamSession.StopDuringConfigRead` | `MihomoStreams.StreamSession.StopDuringConfigReadChecked` |
| src/main/core/mihomoApi.ts:143-146 | in global mode, `splice(findIndex(...), 1)` runs even when findIndex returns -1 | global mode with the GLOBAL entry hidden: the last group moves to the front; with no groups, the list becomes [undefined] | GLOBAL moves to the front only when it is in the list | medium; not executed | `MihomoApi.GlobalModeWithoutGlobal` | `MihomoApi.GlobalFirst` |
