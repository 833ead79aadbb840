# file-tree client synchroniser, modelled in Dafny

This project models the client half of `file-tree`. The client keeps a local
replica of a remote directory tree. It applies the actions its transport
delivers: `initialState`, `batch`, `event` and `response`. Its `run` operation
mutates the replica optimistically, then sends a `request` whose later
`response` settles a promise stored under a fresh id.

Files:

- `Wire.dfy` (module `Wire`): the message taxonomy. It holds inbound `Action`s
  (with a recursive `Batch`), outbound `Msg`s, work-queue `Task`s, promise
  `Status` and JSON values.
- `Replica.dfy` (module `Replica`): the calls the client makes on its tree
  replica (`TreeCall`) and an abstract view of the replica (`Tree`: root, node
  kinds, metadata, transaction depth). `Apply` gives each call its assumed
  effect. `Replay` applies a sequence of calls.
- `Sync.dfy` (module `Sync`): the protocol as functions over one `SyncState`.
  `Dispatch` and `DispatchFrom` are `_performAction`, with the batch's `forEach`
  as structural recursion. `Optimistic` and `Run` are `run`. The flattening
  functions `Trace`, `Tasks`, `Known` and `RespIds` say what a dispatch should do, read off
  the action alone. The lemmas tie `Dispatch` to them.
- `Client.dfy` (module `Client`): the client object. `IdCounter` is the
  module-level `initialId` counter. It is one object that every client built on
  it shares, so ids are unique across instances (within the range where
  JavaScript numbers count exactly; see "## Left out"). `FileTreeClient` has the
  replica view, the replica-call trace, the work queue, the outbox and
  `_requestMap` as mutable fields. Each method is proved to change exactly those
  fields, as the matching `Sync` function says. `PerformAction` is a recursive
  method (`decreases a`) whose batch case loops over the children.

Behaviour kept from the code:

- Request entries are never removed. A second response for a settled id is a
  no-op, because a settled promise ignores later `resolve`/`reject` calls. No
  line removes an entry from `_requestMap`.
- A response whose `meta` or `meta.id` is absent, or whose id has no entry,
  dereferences `undefined` and throws. This is `Outcome.ok == false`, with the
  state unchanged by that response. `DispatchOkIffKnown` shows that dispatch
  throws exactly when such a response occurs anywhere in the action.
- Nothing catches the throw. It propagates out of `forEach`, so the rest of the
  batch is skipped, the batch's `finishTransaction` is never called and its
  transaction stays open. `FailedDispatchDepth` shows that the depth then stays
  above where the batch found it.
- A rejected request does not roll back its optimistic mutation.
  `WriteFileThenResponse` shows the file node surviving either outcome.
- In `run`, the request is sent before the promise is registered. Both happen
  before `run` returns.

Assumptions about collaborators that are not part of this model:

- `Tree` is not part of this model. `Apply` is its assumed effect: add or
  overwrite a node with its metadata, move one node, remove one node, set one
  metadata field, replace everything on `set`, and count transactions.
  `RemoveDir` and `RemoveFile` have the same effect on the view. They differ in
  the recorded call.
- `index.js:59` reads `tree` before its `const` declaration. Under native
  ES2015 block scoping that throws. The package is built with Babel, which
  turns `const` into `var`, so the line only logs `undefined`. The model treats
  it as logging.

## Model

The functions `Sync.Dispatch`/`Sync.DispatchFrom` (index.js:54-88) and
`Sync.Optimistic`/`Sync.Run` (index.js:102-148) carry no contract of their own:
the `Client.FileTreeClient.PerformAction` and `Client.FileTreeClient.Run` rows tie
the methods to them, and the `Sync` lemma rows state what they promise.

| member | source | states |
|---|---|---|
| `Client.IdCounter.constructor` | packages/file-tree-client/src/index.js:5 | a new counter has given out no id, so the first id is 1 |
| `Client.IdCounter.GetId` | packages/file-tree-client/src/index.js:5-6 | the id returned is one more than the last one given out, and becomes the new last id |
| `Client.FileTreeClient.constructor` | packages/file-tree-client/src/index.js:26-52 | a new client has an empty replica at depth 0, an empty queue, nothing sent, no requests, and shares the given counter |
| `Client.FileTreeClient.PerformAction` | packages/file-tree-client/src/index.js:54-88 | the new state and whether it threw are exactly `Dispatch` of the old state; every registered id stays issued |
| `Client.FileTreeClient.StartOperation` | packages/file-tree-client/src/index.js:90-92 | makes exactly one `startTransaction` call, raising the depth by one, and changes nothing else |
| `Client.FileTreeClient.FinishOperation` | packages/file-tree-client/src/index.js:94-96 | makes exactly one `finishTransaction` call, lowering the depth by one, and changes nothing else |
| `Client.FileTreeClient.OnQueueStart` | packages/file-tree-client/src/index.js:43-46 | the queue's start hook opens exactly one transaction and changes nothing else |
| `Client.FileTreeClient.OnQueueFinish` | packages/file-tree-client/src/index.js:47 | the queue's finish hook closes exactly one transaction and changes nothing else |
| `Client.FileTreeClient.UpdateNodeMetadata` | packages/file-tree-client/src/index.js:98-100 | makes exactly one `setMetadataField(path, field, value)` call and changes nothing else |
| `Client.FileTreeClient.WatchPath` | packages/file-tree-client/src/index.js:150-155 | appends one `watchPath` message with no id to the outbox and changes nothing else |
| `Client.FileTreeClient.Run` | packages/file-tree-client/src/index.js:102-148 | takes the next id from the shared counter; the id was not registered before; the new state is the optimistic mutation, then one request sent, then a pending entry under that id |
| `Client.RunOnTwoClients` | packages/file-tree-client/src/index.js:5-6 | two clients sharing the counter get different, increasing ids, and neither id was registered with either client before |
| `Client.WriteFileThenResponse` | packages/file-tree-client/src/index.js:102-147 | after `run('writeFile', p)` and a response for its id, the promise is resolved (or rejected, when `error`) with the payload, and the file node at `p` remains |
| `Sync.DispatchFrame` | packages/file-tree-client/src/index.js:54-88 | dispatch sends nothing, adds and removes no request entry, never changes an entry that is already settled or that no response in the action (nested batches included) names, and, when it completes, leaves every registered entry its responses name settled |
| `Sync.DispatchFromFrame` | packages/file-tree-client/src/index.js:67 | the same for a batch's remaining children, with `RespIdsFrom` |
| `Sync.DispatchOkIffKnown` | packages/file-tree-client/src/index.js:54-88 | dispatch completes if and only if every response in the action, nested batches included, carries a registered id |
| `Sync.DispatchFromOkIffKnown` | packages/file-tree-client/src/index.js:67 | the same for a batch's remaining children |
| `Sync.DispatchEnqueues` | packages/file-tree-client/src/index.js:64-76 | dispatch only appends to the work queue; when it completes it has appended one task per event, in listed order, with nested batches flattened |
| `Sync.DispatchFromEnqueues` | packages/file-tree-client/src/index.js:67 | the same for a batch's remaining children |
| `Sync.DispatchTrace` | packages/file-tree-client/src/index.js:57-70 | dispatch only appends replica calls, and the view is the replay of those calls; when it completes, the calls are exactly `Trace(a)` |
| `Sync.DispatchFromTrace` | packages/file-tree-client/src/index.js:67 | the same for a batch's remaining children, with `TraceFrom` |
| `Sync.TraceBalanced` | packages/file-tree-client/src/index.js:64-70 | the calls of a completed action open as many transactions as they close |
| `Sync.TraceFromBalanced` | packages/file-tree-client/src/index.js:67 | the same for a batch's remaining children |
| `Sync.DispatchKeepsDepth` | packages/file-tree-client/src/index.js:64-70 | a dispatch that completes leaves the transaction depth where it found it |
| `Sync.BatchBrackets` | packages/file-tree-client/src/index.js:64-70 | a completed batch calls `startTransaction` first and `finishTransaction` last, with its children's calls in listed order between them, and ends at its starting depth |
| `Sync.FailedDispatchDepth` | packages/file-tree-client/src/index.js:64-85 | a dispatch that throws never lowers the depth; one that throws inside a batch leaves it above its starting value |
| `Sync.FailedDispatchFromDepth` | packages/file-tree-client/src/index.js:67 | a batch's children that throw never lower the depth |
| `Sync.ResponseSettles` | packages/file-tree-client/src/index.js:78-85 | a response for a registered id rejects the entry with the payload if `error` is truthy and resolves it otherwise (if still pending); the entry is kept, other entries and the rest of the state are untouched |
| `Sync.UnknownResponseFails` | packages/file-tree-client/src/index.js:79-83 | a response with no id or an unregistered id throws and changes nothing |
| `Sync.InitialStateReplaces` | packages/file-tree-client/src/index.js:58-62 | `initialState` makes one `set(rootPath, tree, stat)` call that replaces root, stat, nodes and metadata; the depth and the rest of the state are kept |
| `Sync.EventEnqueuesOnly` | packages/file-tree-client/src/index.js:71-87 | an event appends exactly one task bound to its name, path and stat and changes nothing else; an unrecognised type changes nothing |
| `Sync.EventBatchDefers` | packages/file-tree-client/src/index.js:64-76 | a batch of events completes, enqueues their tasks in listed order, makes only one start and one finish call, and leaves nodes, metadata and depth unchanged |
| `Sync.RunRegistersOneRequest` | packages/file-tree-client/src/index.js:136-147 | `run` with the next id sends exactly one request carrying that id, method name and arguments, and adds exactly one pending entry under an id not used before; the queue is kept |
| `Sync.RunOptimistic` | packages/file-tree-client/src/index.js:106-121 | `writeFile` adds a file node and `mkdir` a directory node, each with `{loading: true}`; `rename` moves the node; any other method name leaves the replica untouched |
| `Sync.RunRemove` | packages/file-tree-client/src/index.js:122-133 | `remove` calls `removeDir` when the recorded kind is directory and `removeFile` otherwise; with no node the replica is untouched, but the request is still sent and registered |
| `Sync.RunAllIssuesConsecutiveIds` | packages/file-tree-client/src/index.js:102-148 | successive `run` calls send their requests in call order with ids `last+1`, `last+2`, …, each left pending; no id is reused (for unbounded ids) and earlier entries are kept |

## Left out

- Transport I/O: sent messages are only appended to `outbox`, and inbound messages arrive as `PerformAction` calls. Decoding wire JSON into `Action`, and payloads of the wrong shape, are not modelled.
- The work queue runs tasks one at a time and asynchronously. It is not modelled. `queue` records the tasks pushed, and the start and finish hooks are methods the environment calls between the client's own operations; the model cannot express a hook firing inside `_performAction`.
- Sync.DispatchTrace, Sync.DispatchKeepsDepth, Sync.BatchBrackets, Sync.EventBatchDefers: assume the queue's 'start' and 'finish' hooks fire only between the client's own calls, never synchronously inside `push` at index.js:75. `WorkQueue` is not part of this model; if its `push` emitted 'start' on leaving idle, `Batch([Event(..)])` would make the calls start, start, finish and end one level deeper than these lemmas state.
- Client.IdCounter.GetId: the model's ids are unbounded naturals. `initialId` is a JavaScript number, so past `Number.MAX_SAFE_INTEGER` (2^53 - 1) `++initialId` stops increasing, `getId` hands out the same id again and index.js:146 overwrites the earlier `_requestMap` entry. Uniqueness of ids (`Client.RunOnTwoClients`, `Sync.RunRegistersOneRequest`, `Sync.RunAllIssuesConsecutiveIds`) holds only below that bound.
- The chokidar adapter: a task records the `(name, path, stat)` it is bound to. The tree mutations a task makes when it runs are not modelled, so the replica view changes only through the client's own calls. `run('remove', p)` therefore picks its branch from a view that lacks the nodes queued events would have created; the source reads the live tree (`index.js:124`).
- Client.FileTreeClient.OnQueueFinish: assumes `Tree` binds its own `finishTransaction`. `index.js:47` registers `this._tree.finishTransaction` unbound; if `Tree` did not bind it, the work queue would call it with itself as `this` and the replica's transaction would not be closed. `Tree` is not part of this model.
- Promise asynchrony: a promise is its `Status` in `requests`. Awaiting callers are not modelled.
- EventEmitter plumbing, `_emitAction`, change notifications and `console.log` are not modelled.
- The getters (`tree`, `transport`, `rootPath`, `metadata`) only read fields. `_rootPath` is never assigned.
- `Tree` internals. What `move` and `removeDir` do to descendant nodes is not modelled. Adding a node that already exists, or under a missing parent, is modelled as an overwrite. What `finishTransaction` does with no open transaction is not modelled: `depth` counts opens minus closes and may go negative.
- `run` with a path argument that is absent or not a string: the model makes no replica call. The source would pass `undefined` or a non-string to `Tree`, whose handling of that is not part of this model.
- JavaScript truthiness of `error`: the model takes it as a `bool`. Response ids are integers. Property-name coercion of `_requestMap` keys is not modelled.
