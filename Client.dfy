/** The file-tree client object: it mirrors a remote tree in a local replica,
    handles the actions its transport delivers, and sends mutating requests whose
    completion it correlates by id. Each method is proved to change the object's
    state exactly as the functions of module Sync say. */
module Client {
  import opened Wire
  import opened Replica
  import opened Sync

  /** The module-level `initialId` behind `getId`. One counter is shared by every
      client built on it, so ids are unique across instances. */
  class IdCounter {
    var last: nat

    constructor ()
      ensures last == 0
    {
      last := 0;
    }

    /** `++initialId`: the next id, starting at 1. */
    method GetId() returns (id: nat)
      modifies this
      ensures id == old(last) + 1 && last == id
    {
      last := last + 1;
      id := last;
    }
  }

  class FileTreeClient {
    /** The replica view and the calls made on the replica so far. */
    var tree: Tree
    var calls: seq<TreeCall>
    /** Work items pushed onto the work queue, oldest first. */
    var queue: seq<Task>
    /** Messages sent over the transport, oldest first. */
    var outbox: seq<Msg>
    /** `_requestMap`: one promise per request id. */
    var requests: map<int, Status>
    /** The shared id counter. */
    const ids: IdCounter

    function State(): SyncState
      reads this
    {
      SyncState(tree, calls, queue, outbox, requests)
    }

    /** Every registered request id was given out by the shared counter. */
    ghost predicate Valid()
      reads this, ids
    {
      IdsIssued(State(), ids.last)
    }

    constructor (ids: IdCounter)
      ensures this.ids == ids
      ensures State() == SyncState(Empty, [], [], [], map[])
      ensures Valid()
    {
      this.ids := ids;
      tree := Empty;
      calls := [];
      queue := [];
      outbox := [];
      requests := map[];
    }

    /** Makes call `c` on the replica. */
    method CallTree(c: TreeCall)
      modifies this
      ensures State() == Call(old(State()), c)
    {
      tree := Apply(tree, c);
      calls := calls + [c];
    }

    /** `_performAction(action)`; `ok` is false when it throws. */
    method PerformAction(a: Action) returns (ok: bool)
      requires Valid()
      modifies this
      ensures Valid()
      ensures Outcome(State(), ok) == Dispatch(old(State()), a)
      decreases a
    {
      DispatchFrame(State(), a);
      match a
      case InitialState(root, snap, stat) =>
        CallTree(SetTree(root, snap, stat));
        ok := true;
      case Batch(xs) =>
        CallTree(StartTransaction);
        ghost var start := State();
        var i := 0;
        while i < |xs|
          invariant 0 <= i <= |xs|
          invariant Valid()
          invariant DispatchFrom(start, xs, 0) == DispatchFrom(State(), xs, i)
        {
          ok := PerformAction(xs[i]);
          if !ok {
            return;
          }
          i := i + 1;
        }
        CallTree(FinishTransaction);
        ok := true;
      case Event(name, path, stat) =>
        queue := queue + [Task(name, path, stat)];
        ok := true;
      case Response(id, error, payload) =>
        if id.None? || id.value !in requests {
          ok := false;
          return;
        }
        requests := requests[id.value := Settle(requests[id.value], error, payload)];
        ok := true;
      case Other(_, _) =>
        ok := true;
    }

    /** `startOperation()`: opens one transaction. */
    method StartOperation()
      requires Valid()
      modifies this
      ensures Valid()
      ensures State() == Call(old(State()), StartTransaction)
    {
      CallTree(StartTransaction);
    }

    /** `finishOperation()`: closes one transaction. */
    method FinishOperation()
      requires Valid()
      modifies this
      ensures Valid()
      ensures State() == Call(old(State()), FinishTransaction)
    {
      CallTree(FinishTransaction);
    }

    /** The work queue's 'start' hook: opens one transaction. */
    method OnQueueStart(taskCount: nat)
      requires Valid()
      modifies this
      ensures Valid()
      ensures State() == Call(old(State()), StartTransaction)
    {
      CallTree(StartTransaction);
    }

    /** The work queue's 'finish' hook: closes one transaction. */
    method OnQueueFinish()
      requires Valid()
      modifies this
      ensures Valid()
      ensures State() == Call(old(State()), FinishTransaction)
    {
      CallTree(FinishTransaction);
    }

    /** `updateNodeMetadata(path, field, value)`. */
    method UpdateNodeMetadata(path: Path, field: string, value: Json)
      requires Valid()
      modifies this
      ensures Valid()
      ensures State() == Call(old(State()), SetMetadataField(path, field, value))
    {
      CallTree(SetMetadataField(path, field, value));
    }

    /** `watchPath(path)`: sends one uncorrelated message. */
    method WatchPath(path: Path)
      requires Valid()
      modifies this
      ensures Valid()
      ensures State() == old(State()).(outbox := old(outbox) + [Msg.WatchPath(path)])
    {
      outbox := outbox + [Msg.WatchPath(path)];
    }

    /** `run(methodName, ...args)`; returns the id under which the returned promise
        is registered. */
    method Run(methodName: string, args: seq<Json>) returns (id: nat)
      requires Valid()
      modifies this, ids
      ensures Valid()
      ensures id == old(ids.last) + 1 && ids.last == id
      ensures id !in old(requests)
      ensures State() == Sync.Run(old(State()), id, methodName, args)
    {
      RunRegistersOneRequest(State(), ids.last, methodName, args);
      id := ids.GetId();
      if methodName == "writeFile" {
        match PathArg(args, 0)
        case Some(p) => CallTree(AddFile(p, Loading));
        case None =>
      } else if methodName == "mkdir" {
        match PathArg(args, 0)
        case Some(p) => CallTree(AddDir(p, Loading));
        case None =>
      } else if methodName == "rename" {
        match (PathArg(args, 0), PathArg(args, 1))
        case (Some(o), Some(n)) => CallTree(Move(o, n));
        case _ =>
      } else if methodName == "remove" {
        match PathArg(args, 0)
        case Some(p) =>
          if p in tree.nodes {
            if tree.nodes[p] == Directory {
              CallTree(RemoveDir(p));
            } else {
              CallTree(RemoveFile(p));
            }
          }
        case None =>
      }
      outbox := outbox + [Request(id, methodName, args)];
      requests := requests[id := Pending];
    }
  }

  /** Two clients sharing one counter: a request from each gets a different id,
      the second larger, and neither is already registered with either client. */
  method RunOnTwoClients(a: FileTreeClient, b: FileTreeClient, ma: string, aa: seq<Json>, mb: string, ab: seq<Json>)
    returns (ia: nat, ib: nat)
    requires a != b && a.ids == b.ids
    requires a.Valid() && b.Valid()
    modifies a, b, a.ids
    ensures a.Valid() && b.Valid()
    ensures ia < ib && ib == a.ids.last
    ensures ia in a.requests && ib in b.requests
    ensures ia !in old(a.requests) && ia !in old(b.requests)
    ensures ib !in old(a.requests) && ib !in old(b.requests)
  {
    ia := a.Run(ma, aa);
    ib := b.Run(mb, ab);
  }

  /** `run('writeFile', p)` followed by a successful response for its id: the
      promise resolves with the payload and the optimistic file node stays; a
      rejecting response would not roll it back either. */
  method WriteFileThenResponse(c: FileTreeClient, p: Path, error: bool, payload: Json)
    returns (id: nat)
    requires c.Valid()
    modifies c, c.ids
    ensures c.Valid()
    ensures id in c.requests && c.requests[id] == (if error then Rejected(payload) else Resolved(payload))
    ensures p in c.tree.nodes && c.tree.nodes[p] == File
    ensures c.outbox == old(c.outbox) + [Request(id, "writeFile", [JStr(p)])]
  {
    RunOptimistic(c.State(), c.ids.last + 1, "writeFile", [JStr(p)]);
    id := c.Run("writeFile", [JStr(p)]);
    ResponseSettles(c.State(), id, error, payload);
    var ok := c.PerformAction(Response(Some(id), error, payload));
  }
}
