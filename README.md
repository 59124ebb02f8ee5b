# vscxr workstation command channel, modelled in Dafny

The vscxr extension runs a WebSocket server inside the editor. A handheld
device connects to it, pushes its list of commands, and then asks for one
command at a time by id. This project models the extension's side of that
channel, which is `extension.js`:

- **Message handler.** The `ws.on('message')` handler decodes a message.
  An `init` message with `commands` *merges* each command into the global
  `commandMap`, keyed by its `id`. A `run` message with a truthy `id`
  dispatches that id. Everything else is logged and dropped. The model
  covers the exceptions the handler's own code can raise: a `null`
  message, a `commands` value that is not an array, and a `null` entry
  that stops the `forEach` part-way.
- **Dispatcher `handleCommand`.** It looks the id up and reads the active
  editor and terminal at call time. It then picks exactly one action: a
  warning, a snippet insertion, a terminal dispose, or executing
  `vscodeCommand`. Any `type` other than `snippet` or `terminal`, or no
  `type` at all, is executed as an editor command.
- **Server flag.** The toggle command calls `startServer` or `stopServer`.
  A failed start leaves the flag as it was. The status bar shows a green
  filled circle while the server runs and a red slashed circle otherwise.
- **`getLocalIpAddress`.** It returns the first non-internal IPv4 address,
  or `127.0.0.1` when there is none.

Layout, one module per file:

- `values.dfy`: `Option`, plus how JavaScript renders an optional string
  and when it counts as truthy.
- `protocol.dfy`: commands, parsed messages, and the handler's choice of
  branch (`Classify`).
- `registry.dfy`: the command table. `Merge` is what a sync does to it;
  `Leading` is how far the `forEach` gets. The lemmas state what a merge
  keeps and what it overwrites.
- `dispatcher.dfy`: `handleCommand` as a function that returns an
  `Action`, plus the operator-facing messages.
- `status_bar.dfy`: `updateStatusBar` as a function of the flag.
- `handler.dfy`: the handler as a function of the table and one message
  (`NextMap`, `Reaction`), plus the lemmas about message kinds.
- `extension.dfy`: class `Globals`. It holds the module-level variables
  `isServerRunning`, `wss`, `commandMap` and the status-bar item. Its
  methods are the sync loop, the handler, start, stop and toggle. Each is
  proved against the pure functions above.
- `network.dfy`: `getLocalIpAddress` as two nested loops with an early
  return, proved against a first-match search over the flattened list.

Host inputs are parameters of the model:

- the parsed JSON value (`Message`);
- whether an editor or a terminal is active (`HostContext`);
- whether the server constructor succeeds, and its error message;
- whether the promise of `executeCommand` is fulfilled;
- the list `os.networkInterfaces()` returns.

Calls into the editor are returned as `Action` and `Notice` values, not
performed.

Where the code differs from the intended design, the model follows the
code:

- A sync merges and never deletes. Ids sent only in an earlier list keep
  their entries (`SecondSyncKeepsFirst`).
- The sync message is `{type: "init", commands: [...]}` and the run
  message is `{type: "run", id}`. No other message names exist.
- `commandMap` is one table for the whole process. All connections share
  it, and it survives a stop and a restart of the server
  (`RestartKeepsCommands`).
- The handler does not check the server flag.

## Model

| member | source | states |
|---|---|---|
| `Protocol.Classify` | extension.js:52-68 | A message is a sync exactly when it is a record whose `type` is "init" and whose `commands` is an array. It is a run exactly when `type` is "run" and `id` is a non-empty string. It goes to the catch block exactly when it failed to parse, is `null`, or is an `init` whose truthy `commands` is not an array. Anything else is an unknown message. |
| `Registry.Merge` | extension.js:57-59 | The `forEach` assignment `commandMap[cmd.id] = cmd`, one command after another. Every old key stays, and every listed key is present afterwards. Its full meaning, key by key, is `MergeAt`, with `MergeLastWins` and `MergeKeepsUnlisted` derived from it. |
| `Registry.Leading` | extension.js:57-58 | The commands the `forEach` reaches: at most the whole list, and when it stops short, the entry it stops at is `null`, where reading `cmd.id` throws. Its contents are pinned down by `LeadingAll` and `LeadingStopsAtNull`. |
| `Registry.MergeAt` | extension.js:57-59 | After the `forEach`, a key is present exactly when it was present before or some command in the list carries it. Its value is the latest command carrying it, or else the old entry. |
| `Registry.MergeLastWins` | extension.js:57-59 | A command not followed in the list by another command with the same key is the key's value after the sync. |
| `Registry.MergeKeepsUnlisted` | extension.js:57-59 | A key that no command in the list carries keeps its entry, or stays absent. |
| `Registry.MergeKeys` | extension.js:57-59 | The keys after a sync are the old keys plus the keys of the list, so nothing is deleted. |
| `Registry.MergeAppend` | extension.js:55-59 | Syncing list `a` and then list `b` gives the same table as syncing `a + b`. |
| `Registry.MergeIdempotent` | extension.js:57-59 | Syncing the same list again leaves the table unchanged. |
| `Registry.LeadingAll` | extension.js:57-59 | When no entry is `null`, the `forEach` merges every command of the list, in order. |
| `Registry.LeadingStopsAtNull` | extension.js:57-58 | With a `null` entry at position `j` and objects before it, the `forEach` merges exactly the first `j` commands. |
| `Dispatcher.Dispatch` | extension.js:102-142 | The decision table of `handleCommand`. An absent id gives only the not-found warning. A snippet gives an insertion of `cmd.snippet` exactly when an editor is active, otherwise only the no-editor warning. A terminal command gives a dispose exactly when `vscodeCommand` is "closeTerminal" and a terminal is active, otherwise the no-terminal warning. Any other or absent `type` executes `cmd.vscodeCommand`. |
| `Dispatcher.WarningFor` | extension.js:104-127 | Exactly the three warning actions show a warning, with the source's texts. Insert, dispose and execute show none. |
| `Dispatcher.ExecutionNotice` | extension.js:132-140 | An error "Failed to execute command: …" is shown exactly when the promise of `executeCommand` is rejected. |
| `Dispatcher.DispatchAsWritten` | extension.js:103-104 | The lookup as written, on a plain object: synced ids behave as in `Dispatch`. An unsynced id that names an `Object.prototype` member executes `undefined`. Any other unsynced id gives the not-found warning. |
| `Dispatcher.InheritedNameIsNotReportedMissing` | extension.js:103-107 | With an empty table, id "toString" executes `undefined` as written. The intended dispatcher warns "Command not found: toString". |
| `Dispatcher.DispatchAgreesOffPrototype` | extension.js:103-107 | For every id that is not an inherited name, the as-written and intended dispatchers agree. |
| `StatusBar.Indicator` | extension.js:92-100 | The status bar shows text "$(circle-filled) vscxr" and colour green iff the server runs, and "$(circle-slash) vscxr" in red iff it does not. |
| `StatusBar.IndicatorReflectsFlag` | extension.js:92-100 | Two flags give the same display only when the flags are equal. |
| `Handler.NextMap` | extension.js:51-69 | The handler's effect on the table. It never deletes a key, and only a sync changes the table. `InitMergesCommands`, `InitStopsAtNull`, `RunDispatchesOnce`, `OtherMessagesChangeNothing` and `NonArrayCommandsChangeNothing` say what it does for each kind of message. |
| `Handler.Reaction` | extension.js:51-69 | The handler's one outcome. It dispatches exactly when the message is a run, and with `Dispatch` on the table it finds. It reports a completed sync exactly for an `init` array without `null` entries, and an unknown message exactly for the else branch. `RunMatchesSourceOffPrototype` ties its dispatch to the as-written lookup. |
| `Handler.InitMergesCommands` | extension.js:55-60 | An `init` whose array holds objects only completes. Each listed id maps to the last command carrying it. Every other id keeps its previous entry or stays absent. |
| `Handler.InitStopsAtNull` | extension.js:57-67 | An `init` with a `null` at position `j` keeps the merge of the first `j` commands and is logged as invalid. |
| `Handler.RunDispatchesOnce` | extension.js:61-62 | A `run` with a truthy id leaves the table unchanged and dispatches that id exactly once, against that table. |
| `Handler.RunMatchesSourceOffPrototype` | extension.js:61-62 | For a run whose id is not an `Object.prototype` name, the handler's dispatch is the one the source's plain-object lookup makes (`DispatchAsWritten`). |
| `Handler.OtherMessagesChangeNothing` | extension.js:52-68 | These messages leave the table unchanged and dispatch nothing: unparseable input, `null`, an unknown `type`, `init` without `commands`, and `run` without a truthy `id`. Only unparseable input and `null` reach the catch block. |
| `Handler.NonArrayCommandsChangeNothing` | extension.js:55-67 | An `init` whose `commands` is truthy but not an array throws at `forEach`, before the table changes. |
| `Handler.SecondSyncKeepsFirst` | extension.js:55-59 | After two syncs, an id sent only in the first is still in the table. |
| `Handler.SnippetScenario` | extension.js:55-62 | Syncing `{id: "a", type: "snippet", snippet: "{"}` and then running "a" with an editor inserts "{". Running "b" on an empty table only warns. |
| `Extension.Globals.constructor` | extension.js:6-17 | The initial state: flag clear, no server, empty table, status bar showing "stopped". |
| `Extension.Globals.UpdateStatusBar` | extension.js:92-100 | The status-bar item shows `Indicator` of the current flag. |
| `Extension.Globals.SyncCommands` | extension.js:57-59 | The loop leaves the table equal to `Merge` of the old table with the commands before the first `null`. It reports completion exactly when no entry is `null`. |
| `Extension.Globals.HandleMessage` | extension.js:51-69 | The new table is `NextMap` of the old table and the message. The outcome is `Reaction`. Only the table may change. |
| `Extension.Globals.StartServer` | extension.js:42-78 | On success, a server exists, the flag is set and the bar shows "running". On failure, the flag, the server and the bar are unchanged and "Failed to start server: …" is shown. The table is never touched. |
| `Extension.Globals.StopServer` | extension.js:80-90 | From any state, it ends with no server, the flag clear and the bar showing "stopped". The table is never touched. |
| `Extension.Globals.Toggle` | extension.js:24-33 | A running server stops. A stopped server runs exactly when the start succeeds. The table is unchanged, and the invariant `hasWss == isServerRunning` with a matching bar is kept. |
| `Network.FirstExternal` | extension.js:146-153 | The nested search, interface by interface. It finds nothing exactly when no interface's entries contain a match. Otherwise it finds the first match within one of the interfaces. `FirstExternalIsFlatSearch` and `FirstInIsFirstMatch` make it the first match overall. |
| `Network.FirstInIsFirstMatch` | extension.js:146-153 | Reaches the fallback exactly when no entry is an IPv4 address that is not internal. Otherwise returns the address of the first such entry. |
| `Network.FirstExternalIsFlatSearch` | extension.js:146-153 | Searching interface by interface is the same as searching the concatenation of all interfaces' entries. |
| `Network.GetLocalIpAddress` | extension.js:144-154 | Returns the address of the first non-internal IPv4 entry in visiting order, or "127.0.0.1" when there is none. |

## Findings

| source | as written | input that shows it | evidently intended | confidence | as-written member | corrected member |
|---|---|---|---|---|---|---|
| extension.js:103-104 | `commandMap` is a plain object, so `commandMap[id]` also finds members inherited from `Object.prototype` | with nothing synced, `{"type":"run","id":"toString"}` finds `Object.prototype.toString` and runs `executeCommand(undefined)`, which ends in "Failed to execute command: undefined" | an id never synced warns "Command not found: toString" | medium, not executed | `Dispatcher.DispatchAsWritten` (shown by `Dispatcher.InheritedNameIsNotReportedMissing`) | `Dispatcher.Dispatch` |

The rest of the model (`Handler`, `Extension`) uses the corrected lookup,
which only sees entries a sync has written.

## Left out

- The device side (App.js) and any connect, reconnect or disconnect state
  machine. App.js sends bare strings rather than JSON messages, and no
  connection manager is part of this model.
- `JSON.parse`: its result is the abstract `Message`, with `Unparseable`
  for a parse error.
- `commands` entries that are numbers, strings or booleans, and ids or
  types that are not strings. Only objects and `null` entries are
  modelled. A non-string id would be looked up by its string form.
- A command whose id is `__proto__`. In JavaScript, that assignment
  replaces the object's prototype instead of adding an entry. The model
  stores it as an ordinary key.
- Extension.Globals.HandleMessage: dispatches through the corrected
  own-entries lookup `Dispatch`, not the plain-object lookup the code
  uses. For an unsynced id naming an `Object.prototype` member, such as
  "toString", it warns "Command not found" where the code executes
  `undefined`; see Findings. On every other id the two agree
  (`RunMatchesSourceOffPrototype`).
- Handler.RunDispatchesOnce: states the single dispatch with the
  corrected `Dispatch`. For the inherited names, the code's dispatch is
  `DispatchAsWritten` instead.
- Handler.Reaction: dispatches with the corrected `Dispatch`, for the
  same reason as the two lines above.
- Network plumbing: building the server, port 8080, `connection` events,
  the asynchronous `close` callback, and `error` events the server emits
  later, such as a port already in use. Whether the constructor throws is
  an input.
- Calls into the editor. Warnings, errors, `insertSnippet`,
  `terminal.dispose` and `executeCommand` become `Action` and `Notice`
  values. How the editor reads snippet syntax is not modelled.
- The QR code and webview (`showQrCode`, `getQrWebviewContent`), command
  registration in `activate`, and `deactivate`, which calls `stopServer`
  and disposes the item. These are presentation and lifecycle glue.
- Console logging. The handler's three log lines ("Commands synced",
  "Unknown message", "Invalid message") survive only as the outcomes
  `Synced`, `Ignored` and `Rejected`. The log texts are not modelled.
- Concurrency across connections. There is one table, and messages are
  handled one after another.
- The order `Object.keys` gives interface names. It is taken to be the
  order of the input list.
