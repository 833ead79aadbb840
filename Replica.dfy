/** The client's view of its tree replica. The replica itself is an external
    collaborator; the client only calls its primitives. This module names those
    calls and gives each an abstract effect on a view made of the root, the nodes
    and their kinds, their metadata and the transaction depth. */
module Replica {
  import opened Wire

  /** One call the client makes on the tree replica. */
  datatype TreeCall =
    | SetTree(rootPath: Path, tree: Snapshot, stat: Json)
    | AddFile(path: Path, meta: Metadata)
    | AddDir(path: Path, meta: Metadata)
    | Move(oldPath: Path, newPath: Path)
    | RemoveFile(path: Path)
    | RemoveDir(path: Path)
    | SetMetadataField(path: Path, field: string, value: Json)
    | StartTransaction
    | FinishTransaction

  /** The abstract state of the replica. `depth` counts transactions opened
      minus transactions closed. */
  datatype Tree = Tree(
    rootPath: Path,
    rootStat: Json,
    nodes: map<Path, Kind>,
    metadata: map<Path, Metadata>,
    depth: int)

  /** A freshly constructed replica: empty, outside any transaction. */
  const Empty: Tree := Tree("", JNull, map[], map[], 0)

  /** The effect of one call on the view. A move of a path with no node, like a
      removal, leaves the view unchanged. */
  function Apply(t: Tree, c: TreeCall): Tree
  {
    match c
    case SetTree(root, snap, stat) =>
      t.(rootPath := root, rootStat := stat, nodes := snap.nodes, metadata := snap.metadata)
    case AddFile(p, m) =>
      t.(nodes := t.nodes[p := File], metadata := t.metadata[p := m])
    case AddDir(p, m) =>
      t.(nodes := t.nodes[p := Directory], metadata := t.metadata[p := m])
    case Move(o, n) =>
      if o in t.nodes then
        t.(nodes := (t.nodes - {o})[n := t.nodes[o]],
           metadata := if o in t.metadata then (t.metadata - {o})[n := t.metadata[o]]
                       else t.metadata - {n})
      else t
    case RemoveFile(p) =>
      t.(nodes := t.nodes - {p}, metadata := t.metadata - {p})
    case RemoveDir(p) =>
      t.(nodes := t.nodes - {p}, metadata := t.metadata - {p})
    case SetMetadataField(p, f, v) =>
      t.(metadata := t.metadata[p := (if p in t.metadata then t.metadata[p] else map[])[f := v]])
    case StartTransaction =>
      t.(depth := t.depth + 1)
    case FinishTransaction =>
      t.(depth := t.depth - 1)
  }

  /** The view after a sequence of calls, applied in order. */
  function Replay(t: Tree, cs: seq<TreeCall>): Tree
    decreases |cs|
  {
    if cs == [] then t else Replay(Apply(t, cs[0]), cs[1..])
  }

  /** Transactions opened by a sequence of calls. */
  function Opens(cs: seq<TreeCall>): nat
  {
    multiset(cs)[StartTransaction]
  }

  /** Transactions closed by a sequence of calls. */
  function Closes(cs: seq<TreeCall>): nat
  {
    multiset(cs)[FinishTransaction]
  }

  /** Replaying two sequences one after the other is replaying their concatenation. */
  lemma {:induction false} ReplayAppend(t: Tree, xs: seq<TreeCall>, ys: seq<TreeCall>)
    ensures Replay(t, xs + ys) == Replay(Replay(t, xs), ys)
    decreases |xs|
  {
    if xs != [] {
      assert (xs + ys)[1..] == xs[1..] + ys;
      ReplayAppend(Apply(t, xs[0]), xs[1..], ys);
    } else {
      assert xs + ys == ys;
    }
  }

  /** Only the transaction calls move the depth, each by one. */
  lemma {:induction false} ReplayDepth(t: Tree, cs: seq<TreeCall>)
    ensures Replay(t, cs).depth == t.depth + Opens(cs) - Closes(cs)
    decreases |cs|
  {
    if cs != [] {
      assert cs == [cs[0]] + cs[1..];
      ReplayDepth(Apply(t, cs[0]), cs[1..]);
    }
  }

  /** A call sequence leaves the view outside transactions unchanged when it holds
      only transaction calls: the nodes, metadata and root stay as they were. */
  lemma {:induction false} ReplayTransactionsOnly(t: Tree, cs: seq<TreeCall>)
    requires forall i :: 0 <= i < |cs| ==> cs[i] in {StartTransaction, FinishTransaction}
    ensures Replay(t, cs).nodes == t.nodes
    ensures Replay(t, cs).metadata == t.metadata
    ensures Replay(t, cs).rootPath == t.rootPath
    decreases |cs|
  {
    if cs != [] {
      ReplayTransactionsOnly(Apply(t, cs[0]), cs[1..]);
    }
  }
}
