/** The static tree of nodes that arclaunch builds from a launch file, and what running it means.

    A node is a number; `tree[n]` says what node `n` is.  A group is constructed around its
    members, so the members of node `n` carry larger numbers than `n`.
 */
module NodeTree {

  type NodeId = nat

  /** One `linkage` element of a launch: a pipe from a descriptor of one member to one of another. */
  datatype Link = Link(from: NodeId, fromFd: nat, to: NodeId, toFd: nat)

  /** One `externalize` element: descriptor `outer` of the launch is descriptor `inner` of a member. */
  datatype Externalize = Externalize(member: NodeId, outer: nat, inner: nat)

  datatype Kind =
    | Executable
    | Launch(members: seq<NodeId>, links: seq<Link>, externals: seq<Externalize>)
    | Sequence(order: seq<NodeId>)

  type Tree = seq<Kind>

  /** The nodes a group starts: all the members of a launch, or the stages of a sequence in order
      (a node named twice is two stages). */
  function Parts(kind: Kind): seq<NodeId> {
    match kind
    case Executable => []
    case Launch(members, _, _) => members
    case Sequence(order) => order
  }

  /** Groups are non-empty, name existing later nodes, and a launch names each member once. */
  predicate WellFormedNode(tree: Tree, n: NodeId)
    requires n < |tree|
  {
    && (!tree[n].Executable? ==> Parts(tree[n]) != [])
    && (forall k | 0 <= k < |Parts(tree[n])| :: n < Parts(tree[n])[k] < |tree|)
    && (tree[n].Launch? ==>
          && (forall j, k | 0 <= j < k < |tree[n].members| :: tree[n].members[j] != tree[n].members[k])
          && (forall k | 0 <= k < |tree[n].links| ::
                tree[n].links[k].from in tree[n].members && tree[n].links[k].to in tree[n].members)
          && (forall k | 0 <= k < |tree[n].externals| :: tree[n].externals[k].member in tree[n].members))
  }

  predicate WellFormed(tree: Tree) {
    forall n: NodeId | n < |tree| :: WellFormedNode(tree, n)
  }

  /** How many processes a run of node `n` starts when every process exits with 0. */
  function Leaves(tree: Tree, n: NodeId): nat
    requires WellFormed(tree) && n < |tree|
    decreases |tree| - n, 1, 0
  {
    if tree[n].Executable? then 1 else LeavesFrom(tree, n, 0)
  }

  /** The leaves of the parts of group `n` from position `k` on. */
  function LeavesFrom(tree: Tree, n: NodeId, k: nat): nat
    requires WellFormed(tree) && n < |tree| && k <= |Parts(tree[n])|
    decreases |tree| - n, 0, |Parts(tree[n])| - k
  {
    if k == |Parts(tree[n])| then 0
    else
      assert WellFormedNode(tree, n);
      Leaves(tree, Parts(tree[n])[k]) + LeavesFrom(tree, n, k + 1)
  }

  /** A script fixes the exit code of every process a run can start.  A process is named by its
      path from the root of the run: at a launch the member, at a sequence the stage. */
  type Script = seq<nat> -> int

  /** The exit code of a run of node `n` that sits at `path`: a process exits with its scripted
      code, a launch always with 0, a sequence with the first non-zero code of its stages. */
  function Meaning(tree: Tree, n: NodeId, script: Script, path: seq<nat>): int
    requires WellFormed(tree) && n < |tree|
    decreases |tree| - n, 1, 0
  {
    match tree[n]
    case Executable => script(path)
    case Launch(_, _, _) => 0
    case Sequence(order) => StagesMeaning(tree, n, script, path, 0)
  }

  function StagesMeaning(tree: Tree, n: NodeId, script: Script, path: seq<nat>, k: nat): int
    requires WellFormed(tree) && n < |tree| && tree[n].Sequence? && k <= |tree[n].order|
    decreases |tree| - n, 0, |tree[n].order| - k
  {
    if k == |tree[n].order| then 0
    else
      assert WellFormedNode(tree, n);
      assert Parts(tree[n])[k] == tree[n].order[k];
      var code := Meaning(tree, tree[n].order[k], script, path + [k]);
      if code != 0 then code else StagesMeaning(tree, n, script, path, k + 1)
  }
}
