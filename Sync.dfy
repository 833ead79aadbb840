/** The synchronisation protocol of the file-tree client as functions over its
    state: dispatch of inbound actions (with nested batches), the optimistic
    mutation and request registration done by `run`, and what they promise. */
module Sync {
  import opened Wire
  import opened Replica

  /** Everything the client owns or drives: the replica view, the calls it made on
      the replica, the work queue, the messages it sent and its pending requests. */
  datatype SyncState = SyncState(
    tree: Tree,
    calls: seq<TreeCall>,
    queue: seq<Task>,
    outbox: seq<Msg>,
    requests: map<int, Status>)

  /** The state after handling an action, and whether the handler returned
      normally (`ok`) or threw part-way through. */
  datatype Outcome = Outcome(state: SyncState, ok: bool)

  /** The client makes call `c` on the replica. */
  function Call(s: SyncState, c: TreeCall): SyncState
  {
    s.(tree := Apply(s.tree, c), calls := s.calls + [c])
  }

  /** `resolve(payload)` or `reject(payload)` on a promise: the first settlement
      wins, later ones have no effect. */
  function Settle(st: Status, error: bool, payload: Json): Status
  {
    if !st.Pending? then st
    else if error then Rejected(payload)
    else Resolved(payload)
  }

  /** `_performAction`. A response whose id has no entry dereferences `undefined`
      and throws; inside a batch the throw stops the remaining children and skips
      `finishTransaction`. */
  function Dispatch(s: SyncState, a: Action): Outcome
    decreases a, 1, 0
  {
    match a
    case InitialState(root, snap, stat) =>
      Outcome(Call(s, SetTree(root, snap, stat)), true)
    case Batch(xs) =>
      var o := DispatchFrom(Call(s, StartTransaction), xs, 0);
      if o.ok then Outcome(Call(o.state, FinishTransaction), true) else o
    case Event(name, path, stat) =>
      Outcome(s.(queue := s.queue + [Task(name, path, stat)]), true)
    case Response(id, error, payload) =>
      if id.Some? && id.value in s.requests then
        Outcome(s.(requests := s.requests[id.value := Settle(s.requests[id.value], error, payload)]), true)
      else
        Outcome(s, false)
    case Other(_, _) =>
      Outcome(s, true)
  }

  /** The children `xs[i..]` of a batch, dispatched in order until one throws. */
  function DispatchFrom(s: SyncState, xs: seq<Action>, i: nat): Outcome
    requires i <= |xs|
    decreases Batch(xs), 0, |xs| - i
  {
    if i == |xs| then Outcome(s, true)
    else
      var o := Dispatch(s, xs[i]);
      if o.ok then DispatchFrom(o.state, xs, i + 1) else o
  }

  // Reference definitions: what an action does when it completes, read off the
  // action alone, with nested batches flattened in listed order.

  /** The replica calls a completed dispatch makes. */
  function Trace(a: Action): seq<TreeCall>
    decreases a, 1, 0
  {
    match a
    case InitialState(root, snap, stat) => [SetTree(root, snap, stat)]
    case Batch(xs) => [StartTransaction] + TraceFrom(xs, 0) + [FinishTransaction]
    case _ => []
  }

  function TraceFrom(xs: seq<Action>, i: nat): seq<TreeCall>
    requires i <= |xs|
    decreases Batch(xs), 0, |xs| - i
  {
    if i == |xs| then [] else Trace(xs[i]) + TraceFrom(xs, i + 1)
  }

  /** The work items a completed dispatch enqueues. */
  function Tasks(a: Action): seq<Task>
    decreases a, 1, 0
  {
    match a
    case Event(name, path, stat) => [Task(name, path, stat)]
    case Batch(xs) => TasksFrom(xs, 0)
    case _ => []
  }

  function TasksFrom(xs: seq<Action>, i: nat): seq<Task>
    requires i <= |xs|
    decreases Batch(xs), 0, |xs| - i
  {
    if i == |xs| then [] else Tasks(xs[i]) + TasksFrom(xs, i + 1)
  }

  /** Every response in `a` carries an id registered in `ids`. */
  predicate Known(a: Action, ids: set<int>)
    decreases a, 1, 0
  {
    match a
    case Response(id, _, _) => id.Some? && id.value in ids
    case Batch(xs) => KnownFrom(xs, 0, ids)
    case _ => true
  }

  predicate KnownFrom(xs: seq<Action>, i: nat, ids: set<int>)
    requires i <= |xs|
    decreases Batch(xs), 0, |xs| - i
  {
    i == |xs| || (Known(xs[i], ids) && KnownFrom(xs, i + 1, ids))
  }

  /** The ids named by the responses in `a`. */
  function RespIds(a: Action): set<int>
    decreases a, 1, 0
  {
    match a
    case Response(id, _, _) => if id.Some? then {id.value} else {}
    case Batch(xs) => RespIdsFrom(xs, 0)
    case _ => {}
  }

  function RespIdsFrom(xs: seq<Action>, i: nat): set<int>
    requires i <= |xs|
    decreases Batch(xs), 0, |xs| - i
  {
    if i == |xs| then {} else RespIds(xs[i]) + RespIdsFrom(xs, i + 1)
  }

  /** `s.calls` grew by `d` and the replica view moved by replaying `d`. */
  predicate Extends(s: SyncState, r: SyncState)
  {
    && |s.calls| <= |r.calls|
    && r.calls[..|s.calls|] == s.calls
    && r.tree == Replay(s.tree, r.calls[|s.calls|..])
  }

  // ---------------------------------------------------------------------------
  // Dispatch: what it never touches.

  /** Dispatch sends nothing, adds and removes no request entry, never changes an
      entry that is already settled or that no response in the action names, and,
      when it completes, leaves every registered entry its responses name settled. */
  lemma {:induction false} DispatchFrame(s: SyncState, a: Action)
    ensures Dispatch(s, a).state.outbox == s.outbox
    ensures Dispatch(s, a).state.requests.Keys == s.requests.Keys
    ensures forall k :: k in s.requests && !s.requests[k].Pending? ==>
              Dispatch(s, a).state.requests[k] == s.requests[k]
    ensures forall k :: k in s.requests && k !in RespIds(a) ==>
              Dispatch(s, a).state.requests[k] == s.requests[k]
    ensures Dispatch(s, a).ok ==>
              forall k :: k in s.requests && k in RespIds(a) ==>
                !Dispatch(s, a).state.requests[k].Pending?
    decreases a, 1, 0
  {
    match a
    case Batch(xs) =>
      DispatchFromFrame(Call(s, StartTransaction), xs, 0);
    case _ =>
  }

  lemma {:induction false} DispatchFromFrame(s: SyncState, xs: seq<Action>, i: nat)
    requires i <= |xs|
    ensures DispatchFrom(s, xs, i).state.outbox == s.outbox
    ensures DispatchFrom(s, xs, i).state.requests.Keys == s.requests.Keys
    ensures forall k :: k in s.requests && !s.requests[k].Pending? ==>
              DispatchFrom(s, xs, i).state.requests[k] == s.requests[k]
    ensures forall k :: k in s.requests && k !in RespIdsFrom(xs, i) ==>
              DispatchFrom(s, xs, i).state.requests[k] == s.requests[k]
    ensures DispatchFrom(s, xs, i).ok ==>
              forall k :: k in s.requests && k in RespIdsFrom(xs, i) ==>
                !DispatchFrom(s, xs, i).state.requests[k].Pending?
    decreases Batch(xs), 0, |xs| - i
  {
    if i < |xs| {
      DispatchFrame(s, xs[i]);
      var o := Dispatch(s, xs[i]);
      if o.ok {
        DispatchFromFrame(o.state, xs, i + 1);
      }
    }
  }

  // ---------------------------------------------------------------------------
  // Dispatch: when it throws.

  /** Dispatch completes exactly when every response it meets, nested batches
      included, names a registered id. */
  lemma {:induction false} DispatchOkIffKnown(s: SyncState, a: Action)
    ensures Dispatch(s, a).ok <==> Known(a, s.requests.Keys)
    decreases a, 1, 0
  {
    match a
    case Batch(xs) =>
      DispatchFromOkIffKnown(Call(s, StartTransaction), xs, 0);
    case _ =>
  }

  lemma {:induction false} DispatchFromOkIffKnown(s: SyncState, xs: seq<Action>, i: nat)
    requires i <= |xs|
    ensures DispatchFrom(s, xs, i).ok <==> KnownFrom(xs, i, s.requests.Keys)
    decreases Batch(xs), 0, |xs| - i
  {
    if i < |xs| {
      DispatchOkIffKnown(s, xs[i]);
      DispatchFrame(s, xs[i]);
      var o := Dispatch(s, xs[i]);
      if o.ok {
        DispatchFromOkIffKnown(o.state, xs, i + 1);
      }
    }
  }

  // ---------------------------------------------------------------------------
  // Dispatch: the work queue.

  /** Dispatch only appends to the work queue; when it completes, it has appended
      one task per event, in listed order with nested batches flattened. */
  lemma {:induction false} DispatchEnqueues(s: SyncState, a: Action)
    ensures s.queue <= Dispatch(s, a).state.queue
    ensures Dispatch(s, a).ok ==> Dispatch(s, a).state.queue == s.queue + Tasks(a)
    decreases a, 1, 0
  {
    match a
    case Batch(xs) =>
      DispatchFromEnqueues(Call(s, StartTransaction), xs, 0);
    case _ =>
  }

  lemma {:induction false} DispatchFromEnqueues(s: SyncState, xs: seq<Action>, i: nat)
    requires i <= |xs|
    ensures s.queue <= DispatchFrom(s, xs, i).state.queue
    ensures DispatchFrom(s, xs, i).ok ==> DispatchFrom(s, xs, i).state.queue == s.queue + TasksFrom(xs, i)
    decreases Batch(xs), 0, |xs| - i
  {
    if i < |xs| {
      DispatchEnqueues(s, xs[i]);
      var o := Dispatch(s, xs[i]);
      if o.ok {
        DispatchFromEnqueues(o.state, xs, i + 1);
        assert s.queue + Tasks(xs[i]) + TasksFrom(xs, i + 1) == s.queue + TasksFrom(xs, i);
      }
    } else {
      assert s.queue + TasksFrom(xs, i) == s.queue;
    }
  }

  // ---------------------------------------------------------------------------
  // Dispatch: the replica.

  /** Dispatch only appends calls to the replica, the view follows those calls, and
      a completed dispatch makes exactly the calls of `Trace(a)`. */
  lemma {:induction false} DispatchTrace(s: SyncState, a: Action)
    ensures Extends(s, Dispatch(s, a).state)
    ensures Dispatch(s, a).ok ==> Dispatch(s, a).state.calls == s.calls + Trace(a)
    decreases a, 1, 0
  {
    match a
    case Batch(xs) =>
      var s1 := Call(s, StartTransaction);
      DispatchFromTrace(s1, xs, 0);
      var o := DispatchFrom(s1, xs, 0);
      ExtendsStep(s, s1);
      ExtendsTrans(s, s1, o.state);
      if o.ok {
        ExtendsStep(o.state, Call(o.state, FinishTransaction));
        ExtendsTrans(s, o.state, Call(o.state, FinishTransaction));
      }
    case InitialState(_, _, _) =>
      ExtendsStep(s, Dispatch(s, a).state);
    case _ =>
      assert Dispatch(s, a).state.calls[|s.calls|..] == [];
  }

  lemma {:induction false} DispatchFromTrace(s: SyncState, xs: seq<Action>, i: nat)
    requires i <= |xs|
    ensures Extends(s, DispatchFrom(s, xs, i).state)
    ensures DispatchFrom(s, xs, i).ok ==> DispatchFrom(s, xs, i).state.calls == s.calls + TraceFrom(xs, i)
    decreases Batch(xs), 0, |xs| - i
  {
    if i < |xs| {
      DispatchTrace(s, xs[i]);
      var o := Dispatch(s, xs[i]);
      if o.ok {
        DispatchFromTrace(o.state, xs, i + 1);
        ExtendsTrans(s, o.state, DispatchFrom(o.state, xs, i + 1).state);
        assert s.calls + Trace(xs[i]) + TraceFrom(xs, i + 1) == s.calls + TraceFrom(xs, i);
      }
    } else {
      assert s.calls[|s.calls|..] == [];
      assert s.calls + TraceFrom(xs, i) == s.calls;
    }
  }

  /** One replica call extends the state. */
  lemma ExtendsStep(s: SyncState, r: SyncState)
    requires exists c :: r == Call(s, c)
    ensures Extends(s, r)
  {
    var c :| r == Call(s, c);
    assert r.calls[|s.calls|..] == [c];
    assert r.calls[..|s.calls|] == s.calls;
  }

  /** Extension is transitive. */
  lemma ExtendsTrans(s: SyncState, m: SyncState, r: SyncState)
    requires Extends(s, m) && Extends(m, r)
    ensures Extends(s, r)
  {
    var d1 := m.calls[|s.calls|..];
    var d2 := r.calls[|m.calls|..];
    assert r.calls == s.calls + d1 + d2 by {
      assert m.calls == s.calls + d1;
      assert r.calls == m.calls + d2;
    }
    assert r.calls[|s.calls|..] == d1 + d2;
    ReplayAppend(s.tree, d1, d2);
  }

  // ---------------------------------------------------------------------------
  // Dispatch: transactions.

  /** Every transaction a completed dispatch opens, it closes. */
  lemma {:induction false} TraceBalanced(a: Action)
    ensures Opens(Trace(a)) == Closes(Trace(a))
    decreases a, 1, 0
  {
    match a
    case Batch(xs) =>
      TraceFromBalanced(xs, 0);
    case _ =>
  }

  lemma {:induction false} TraceFromBalanced(xs: seq<Action>, i: nat)
    requires i <= |xs|
    ensures Opens(TraceFrom(xs, i)) == Closes(TraceFrom(xs, i))
    decreases Batch(xs), 0, |xs| - i
  {
    if i < |xs| {
      TraceBalanced(xs[i]);
      TraceFromBalanced(xs, i + 1);
    }
  }

  /** A completed dispatch leaves the transaction depth where it found it. */
  lemma DispatchKeepsDepth(s: SyncState, a: Action)
    requires Dispatch(s, a).ok
    ensures Dispatch(s, a).state.tree.depth == s.tree.depth
  {
    DispatchTrace(s, a);
    var r := Dispatch(s, a).state;
    assert r.calls[|s.calls|..] == Trace(a);
    TraceBalanced(a);
    ReplayDepth(s.tree, Trace(a));
  }

  /** A batch that completes calls `startTransaction` first and `finishTransaction`
      last, with its children's calls in listed order between them, and ends at the
      depth it started from. */
  lemma BatchBrackets(s: SyncState, xs: seq<Action>)
    requires Dispatch(s, Batch(xs)).ok
    ensures Dispatch(s, Batch(xs)).state.calls ==
              s.calls + [StartTransaction] + TraceFrom(xs, 0) + [FinishTransaction]
    ensures Dispatch(s, Batch(xs)).state.tree.depth == s.tree.depth
  {
    DispatchTrace(s, Batch(xs));
    DispatchKeepsDepth(s, Batch(xs));
  }

  /** A dispatch that throws inside a batch leaves that batch's transaction open:
      the depth ends above where it started. */
  lemma {:induction false} FailedDispatchDepth(s: SyncState, a: Action)
    requires !Dispatch(s, a).ok
    ensures Dispatch(s, a).state.tree.depth >= s.tree.depth + (if a.Batch? then 1 else 0)
    decreases a, 1, 0
  {
    match a
    case Batch(xs) =>
      FailedDispatchFromDepth(Call(s, StartTransaction), xs, 0);
    case _ =>
  }

  lemma {:induction false} FailedDispatchFromDepth(s: SyncState, xs: seq<Action>, i: nat)
    requires i <= |xs|
    requires !DispatchFrom(s, xs, i).ok
    ensures DispatchFrom(s, xs, i).state.tree.depth >= s.tree.depth
    decreases Batch(xs), 0, |xs| - i
  {
    var o := Dispatch(s, xs[i]);
    if o.ok {
      DispatchKeepsDepth(s, xs[i]);
      FailedDispatchFromDepth(o.state, xs, i + 1);
    } else {
      FailedDispatchDepth(s, xs[i]);
    }
  }

  // ---------------------------------------------------------------------------
  // Single actions.

  /** A response for a registered id settles that entry, rejecting it when
      `error` is truthy and resolving it otherwise, if it is still pending; every
      other entry and the rest of the state are untouched. */
  lemma ResponseSettles(s: SyncState, id: int, error: bool, payload: Json)
    requires id in s.requests
    ensures Dispatch(s, Response(Some(id), error, payload)).ok
    ensures var r := Dispatch(s, Response(Some(id), error, payload)).state;
      && r.requests.Keys == s.requests.Keys
      && (s.requests[id].Pending? ==>
            r.requests[id] == (if error then Rejected(payload) else Resolved(payload)))
      && (!s.requests[id].Pending? ==> r.requests[id] == s.requests[id])
      && (forall k :: k in s.requests && k != id ==> r.requests[k] == s.requests[k])
      && r.(requests := s.requests) == s
  {
  }

  /** A response whose id is missing or unregistered throws and changes nothing. */
  lemma UnknownResponseFails(s: SyncState, id: Option<int>, error: bool, payload: Json)
    requires id.None? || id.value !in s.requests
    ensures Dispatch(s, Response(id, error, payload)) == Outcome(s, false)
  {
  }

  /** An `initialState` replaces the root, its stat, the nodes and their metadata. */
  lemma InitialStateReplaces(s: SyncState, root: Path, snap: Snapshot, stat: Json)
    ensures var o := Dispatch(s, InitialState(root, snap, stat));
      && o.ok
      && o.state.tree == Tree(root, stat, snap.nodes, snap.metadata, s.tree.depth)
      && o.state.calls == s.calls + [SetTree(root, snap, stat)]
      && o.state.(tree := s.tree, calls := s.calls) == s
  {
  }

  /** An event enqueues one task bound to its name, path and stat, and changes
      nothing else; an action of any other type changes nothing at all. */
  lemma EventEnqueuesOnly(s: SyncState, name: string, path: Path, stat: Json, kind: string, payload: Json)
    ensures Dispatch(s, Event(name, path, stat)) ==
              Outcome(s.(queue := s.queue + [Task(name, path, stat)]), true)
    ensures Dispatch(s, Other(kind, payload)) == Outcome(s, true)
  {
  }

  /** A batch of events completes, enqueues one task per event in listed order,
      and leaves the nodes, their metadata and the depth as they were: the events
      take effect only when the work queue runs them. */
  lemma EventBatchDefers(s: SyncState, xs: seq<Action>)
    requires forall i :: 0 <= i < |xs| ==> xs[i].Event?
    ensures var o := Dispatch(s, Batch(xs));
      && o.ok
      && o.state.queue == s.queue + seq(|xs|, i requires 0 <= i < |xs| => Task(xs[i].name, xs[i].path, xs[i].stat))
      && o.state.calls == s.calls + [StartTransaction, FinishTransaction]
      && o.state.tree.nodes == s.tree.nodes
      && o.state.tree.metadata == s.tree.metadata
      && o.state.tree.depth == s.tree.depth
  {
    EventsFrom(s.requests.Keys, xs, 0);
    DispatchOkIffKnown(s, Batch(xs));
    DispatchEnqueues(s, Batch(xs));
    DispatchTrace(s, Batch(xs));
    DispatchKeepsDepth(s, Batch(xs));
    var ev := seq(|xs|, i requires 0 <= i < |xs| => Task(xs[i].name, xs[i].path, xs[i].stat));
    assert ev[0..] == ev;
    var cs := [StartTransaction, FinishTransaction];
    assert [StartTransaction] + TraceFrom(xs, 0) + [FinishTransaction] == cs;
    ReplayTransactionsOnly(s.tree, cs);
  }

  /** Events are known, trace nothing and enqueue their own tasks. */
  lemma {:induction false} EventsFrom(ids: set<int>, xs: seq<Action>, i: nat)
    requires i <= |xs|
    requires forall j :: 0 <= j < |xs| ==> xs[j].Event?
    ensures KnownFrom(xs, i, ids)
    ensures TraceFrom(xs, i) == []
    ensures TasksFrom(xs, i) ==
              seq(|xs|, j requires 0 <= j < |xs| => Task(xs[j].name, xs[j].path, xs[j].stat))[i..]
    decreases |xs| - i
  {
    if i < |xs| {
      EventsFrom(ids, xs, i + 1);
    }
  }

  // ---------------------------------------------------------------------------
  // run

  /** The `k`-th argument of `run`, when it is present and a string. */
  function PathArg(args: seq<Json>, k: nat): Option<Path>
  {
    if k < |args| && args[k].JStr? then Some(args[k].s) else None
  }

  /** The optimistic replica mutation `run` applies before sending its request. */
  function Optimistic(s: SyncState, methodName: string, args: seq<Json>): SyncState
  {
    if methodName == "writeFile" then
      match PathArg(args, 0)
      case Some(p) => Call(s, AddFile(p, Loading))
      case None => s
    else if methodName == "mkdir" then
      match PathArg(args, 0)
      case Some(p) => Call(s, AddDir(p, Loading))
      case None => s
    else if methodName == "rename" then
      match (PathArg(args, 0), PathArg(args, 1))
      case (Some(o), Some(n)) => Call(s, Move(o, n))
      case _ => s
    else if methodName == "remove" then
      match PathArg(args, 0)
      case Some(p) =>
        if p !in s.tree.nodes then s
        else if s.tree.nodes[p] == Directory then Call(s, RemoveDir(p))
        else Call(s, RemoveFile(p))
      case None => s
    else s
  }

  /** `run(methodName, ...args)` issued with the fresh id `id`: the optimistic
      mutation, then one request sent, then a pending entry registered. */
  function Run(s: SyncState, id: nat, methodName: string, args: seq<Json>): SyncState
  {
    var t := Optimistic(s, methodName, args);
    t.(outbox := t.outbox + [Request(id, methodName, args)],
       requests := t.requests[id := Pending])
  }

  /** Every registered id was issued: it lies between 1 and the last id given out. */
  predicate IdsIssued(s: SyncState, last: nat)
  {
    forall k :: k in s.requests ==> 1 <= k <= last
  }

  /** `run` sends exactly one request under the fresh id, registers exactly one new
      pending entry under that id, keeps every other entry and the work queue, and
      keeps every registered id issued. */
  lemma RunRegistersOneRequest(s: SyncState, last: nat, methodName: string, args: seq<Json>)
    requires IdsIssued(s, last)
    ensures var r := Run(s, last + 1, methodName, args);
      && last + 1 !in s.requests
      && r.outbox == s.outbox + [Request(last + 1, methodName, args)]
      && r.requests == s.requests[last + 1 := Pending]
      && r.requests.Keys == s.requests.Keys + {last + 1}
      && r.queue == s.queue
      && IdsIssued(r, last + 1)
  {
  }

  /** The optimistic mutations of `run`, call by call. */
  lemma RunOptimistic(s: SyncState, id: nat, methodName: string, args: seq<Json>)
    ensures var r := Run(s, id, methodName, args);
      && (methodName == "writeFile" && PathArg(args, 0).Some? ==>
            var p := PathArg(args, 0).value;
            r.calls == s.calls + [AddFile(p, Loading)]
            && r.tree.nodes == s.tree.nodes[p := File] && r.tree.metadata[p] == Loading)
      && (methodName == "mkdir" && PathArg(args, 0).Some? ==>
            var p := PathArg(args, 0).value;
            r.calls == s.calls + [AddDir(p, Loading)]
            && r.tree.nodes == s.tree.nodes[p := Directory] && r.tree.metadata[p] == Loading)
      && (methodName == "rename" && PathArg(args, 0).Some? && PathArg(args, 1).Some? ==>
            var o, n := PathArg(args, 0).value, PathArg(args, 1).value;
            r.calls == s.calls + [Move(o, n)]
            && (o in s.tree.nodes ==>
                  r.tree.nodes == (s.tree.nodes - {o})[n := s.tree.nodes[o]]))
      && (methodName !in {"writeFile", "mkdir", "rename", "remove"} ==>
            r.tree == s.tree && r.calls == s.calls)
  {
  }

  /** `run('remove', p)` removes `p` as a directory when its recorded kind is
      directory and as a file otherwise; with no node at `p` the replica is
      untouched, but the request is still sent and registered. */
  lemma RunRemove(s: SyncState, id: nat, p: Path, rest: seq<Json>)
    ensures var r := Run(s, id, "remove", [JStr(p)] + rest);
      && r.outbox == s.outbox + [Request(id, "remove", [JStr(p)] + rest)]
      && r.requests == s.requests[id := Pending]
      && (p !in s.tree.nodes ==> r.tree == s.tree && r.calls == s.calls)
      && (p in s.tree.nodes ==>
            && r.calls == s.calls + [if s.tree.nodes[p] == Directory then RemoveDir(p) else RemoveFile(p)]
            && p !in r.tree.nodes
            && r.tree.nodes == s.tree.nodes - {p})
  {
  }

  /** One call to `run`. */
  datatype Op = Op(methodName: string, args: seq<Json>)

  /** Successive `run` calls against a counter that last gave out `last`: the final
      state and the last id given out. */
  function RunAll(s: SyncState, last: nat, ops: seq<Op>): (SyncState, nat)
    decreases |ops|
  {
    if ops == [] then (s, last)
    else RunAll(Run(s, last + 1, ops[0].methodName, ops[0].args), last + 1, ops[1..])
  }

  /** Successive `run` calls take the ids after `last` one by one: the i-th call
      sends its request with id `last + 1 + i`, in call order, and leaves a pending
      entry under it; no id is given out twice and earlier entries are kept. */
  lemma {:induction false} RunAllIssuesConsecutiveIds(s: SyncState, last: nat, ops: seq<Op>)
    requires IdsIssued(s, last)
    ensures var (r, l) := RunAll(s, last, ops);
      && l == last + |ops|
      && IdsIssued(r, l)
      && |r.outbox| == |s.outbox| + |ops|
      && r.outbox[..|s.outbox|] == s.outbox
      && (forall i :: 0 <= i < |ops| ==>
            r.outbox[|s.outbox| + i] == Request(last + 1 + i, ops[i].methodName, ops[i].args))
      && (forall k :: last < k <= l ==> k in r.requests && r.requests[k] == Pending)
      && (forall k :: k in s.requests ==> k in r.requests && r.requests[k] == s.requests[k])
    decreases |ops|
  {
    if ops != [] {
      var s1 := Run(s, last + 1, ops[0].methodName, ops[0].args);
      RunRegistersOneRequest(s, last, ops[0].methodName, ops[0].args);
      RunAllIssuesConsecutiveIds(s1, last + 1, ops[1..]);
      var (r, l) := RunAll(s1, last + 1, ops[1..]);
      forall i | 0 <= i < |ops|
        ensures r.outbox[|s.outbox| + i] == Request(last + 1 + i, ops[i].methodName, ops[i].args)
      {
        if i == 0 {
          assert r.outbox[..|s1.outbox|] == s1.outbox;
          assert r.outbox[|s.outbox|] == s1.outbox[|s.outbox|];
        } else {
          assert ops[1..][i - 1] == ops[i];
          assert r.outbox[|s1.outbox| + (i - 1)] == r.outbox[|s.outbox| + i];
        }
      }
      assert r.outbox[..|s.outbox|] == s.outbox by {
        assert r.outbox[..|s1.outbox|] == s1.outbox;
        assert r.outbox[..|s.outbox|] == r.outbox[..|s1.outbox|][..|s.outbox|];
      }
    }
  }
}
