/** The messages a file-tree client exchanges with its transport, and the values
    they carry. Actions arriving from the transport are typed here; their JSON
    decoding is not part of the model. */
module Wire {

  datatype Option<+T> = None | Some(value: T)

  /** A JSON value, as carried by payloads, `stat` objects and node metadata. */
  datatype Json =
    | JNull
    | JBool(b: bool)
    | JNum(n: int)
    | JStr(s: string)
    | JArr(items: seq<Json>)
    | JObj(fields: map<string, Json>)

  /** A node path, such as "/a.txt". */
  type Path = string

  /** The recorded `type` of a node: 'directory' or anything else (a file). */
  datatype Kind = File | Directory

  /** The metadata fields of one node. */
  type Metadata = map<string, Json>

  /** The `tree` part of an `initialState` payload. */
  datatype Snapshot = Snapshot(nodes: map<Path, Kind>, metadata: map<Path, Metadata>)

  /** An inbound action, discriminated by its `type`.
      `Response.id` is `None` when `meta` or `meta.id` is absent;
      `error` is the truthiness of the action's `error` field;
      `Other` is any `type` the dispatcher has no case for. */
  datatype Action =
    | InitialState(rootPath: Path, tree: Snapshot, stat: Json)
    | Batch(actions: seq<Action>)
    | Event(name: string, path: Path, stat: Json)
    | Response(id: Option<int>, error: bool, payload: Json)
    | Other(kind: string, payload: Json)

  /** An outbound action sent over the transport. */
  datatype Msg =
    | Request(id: nat, methodName: string, args: seq<Json>)
    | WatchPath(path: Path)

  /** A deferred work item: the watcher adapter bound to `(name, path, stat)`. */
  datatype Task = Task(name: string, path: Path, stat: Json)

  /** The settlement state of the promise registered under one request id. */
  datatype Status = Pending | Resolved(value: Json) | Rejected(reason: Json)

  /** The metadata `{loading: true}` given to optimistically created nodes. */
  const Loading: Metadata := map["loading" := JBool(true)]
}
