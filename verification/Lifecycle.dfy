/** The node lifecycle as functions on one state value: starting an instance, the callbacks that
    run when an instance finishes, and reaping an exited process.

    The state gathers the fields of all nodes.  An entry for `Inst(n, i)` is what node `n` keeps
    under instance number `i`.
 */
module Lifecycle {
  import opened NodeTree
  import opened Descriptors

  /** A completion handler: a callback together with the data it was registered with.  The owner
      is the launch instance or the running sequence that waits; `External` is registered from
      outside the tree. */
  datatype Handler =
    | SubNodeDeath(owner: Inst)
    | Proceed(owner: Inst)
    | External(tag: int)

  /** The bookkeeping of one running sequence. */
  datatype RunningSequence = RunningSequence(stage: int, currentNode: NodeId, currentInst: nat)

  /** What the outside world sees: the general handler of every node reports each completion,
      and an external instance handler reports the completion it was registered for. */
  datatype Event =
    | Completed(x: Inst, code: int)
    | Delivered(tag: int, x: Inst, code: int)

  /** The tables that say which instances run and what they wait for. */
  datatype Life = Life(
    instances: map<Inst, seq<Handler>>,      // Node::instances
    launches: map<Inst, map<NodeId, nat>>,   // LaunchNode::instances, each with its nodeInstances
    sequences: map<Inst, RunningSequence>,   // SequenceNode::sequences
    runningNodes: map<int, NodeId>,          // ExecutableNode::running_nodes
    pidInstance: map<(NodeId, int), nat>)    // ExecutableNode::pidInstance of each node

  datatype State = State(
    life: Life,
    pending: map<NodeId, seq<Handler>>,      // Node::onInstanceDeath
    programs: map<int, map<nat, File>>,      // the descriptors each started program was given
    fds: Fds,
    log: seq<Event>)

  /** Picks the process id of the next fork from the ids that are in use. */
  type Fork = set<int> -> int

  ghost predicate FreshPids(fork: Fork) {
    forall live :: fork(live) !in live
  }

  function Pending(s: State, n: NodeId): seq<Handler> {
    if n in s.pending then s.pending[n] else []
  }

  function Awaited(l: Life, x: Inst): map<NodeId, nat> {
    if x in l.launches then l.launches[x] else map[]
  }

  function SequenceOf(l: Life, x: Inst): RunningSequence {
    if x in l.sequences then l.sequences[x] else RunningSequence(-1, 0, 0)
  }

  function Numbers(l: Life, n: NodeId): set<nat> {
    set x | x in l.instances && x.node == n :: x.num
  }

  // ---- The assignments to the tables ----

  function Appear(l: Life, x: Inst, hs: seq<Handler>): Life {
    l.(instances := l.instances[x := hs])
  }

  function Vanish(l: Life, x: Inst): Life {
    l.(instances := l.instances - {x})
  }

  function SetAwaited(l: Life, x: Inst, members: map<NodeId, nat>): Life {
    l.(launches := l.launches[x := members])
  }

  function DropLaunch(l: Life, x: Inst): Life {
    l.(launches := l.launches - {x})
  }

  function SetSequence(l: Life, x: Inst, r: RunningSequence): Life {
    l.(sequences := l.sequences[x := r])
  }

  function DropSequence(l: Life, x: Inst): Life {
    l.(sequences := l.sequences - {x})
  }

  function AddProcess(l: Life, x: Inst, pid: int): Life {
    l.(runningNodes := l.runningNodes[pid := x.node], pidInstance := l.pidInstance[(x.node, pid) := x.num])
  }

  function DropProcess(l: Life, pid: int): Life {
    l.(runningNodes := l.runningNodes - {pid})
  }

  function AddInstanceCompletionHandler(s: State, n: NodeId, h: Handler): State {
    s.(pending := s.pending[n := Pending(s, n) + [h]])
  }

  // ---- Starting ----

  /** Starts node `n` under the least free instance number; the pending handlers move into the
      new instance and the descriptors linked to the node are closed afterwards. */
  function Startup(tree: Tree, s: State, n: NodeId, fork: Fork): (State, nat)
    requires WellFormed(tree) && n < |tree|
    decreases |tree| - n, 2, 0
  {
    var i := FirstFree(Numbers(s.life, n), 0);
    var x := Inst(n, i);
    var s1 := s.(life := Appear(s.life, x, Pending(s, n)), pending := s.pending[n := []]);
    var s2 := StartInstance(tree, s1, x, fork);
    (s2.(fds := CloseFds(s2.fds, OfNode(n))), i)
  }

  function StartInstance(tree: Tree, s: State, x: Inst, fork: Fork): State
    requires WellFormed(tree) && x.node < |tree|
    decreases |tree| - x.node, 1, 0
  {
    match tree[x.node]
    case Executable => StartProcess(s, x, fork)
    case Launch(_, links, externals) =>
      var f := PassExternals(WireLinks(s.fds, links), OfNode(x.node), externals);
      StartMembers(tree, s.(fds := f, life := SetAwaited(s.life, x, map[])), x, 0, fork)
    case Sequence(_) =>
      assert WellFormedNode(tree, x.node);
      var s1 := s.(life := SetSequence(s.life, x, RunningSequence(-1, 0, 0)));
      var s2 := s1.(fds := PassFds(s1.fds, OfNode(x.node), OfSequence(x)));
      StartStage(tree, s2, x, 0, fork)
  }

  function StartProcess(s: State, x: Inst, fork: Fork): State {
    var pid := fork(s.life.runningNodes.Keys);
    s.(life := AddProcess(s.life, x, pid),
       programs := s.programs[pid := ProgramTable(s.fds, OfNode(x.node))])
  }

  /** Starts the members of launch instance `x` from position `k` on. */
  function StartMembers(tree: Tree, s: State, x: Inst, k: nat, fork: Fork): State
    requires WellFormed(tree) && x.node < |tree| && tree[x.node].Launch? && k <= |tree[x.node].members|
    decreases |tree| - x.node, 0, |tree[x.node].members| - k, 1
  {
    if k == |tree[x.node].members| then s
    else StartMembers(tree, StartMember(tree, s, x, k, fork), x, k + 1, fork)
  }

  /** One turn of the loop over the members: the callback is registered before the member starts. */
  function StartMember(tree: Tree, s: State, x: Inst, k: nat, fork: Fork): State
    requires WellFormed(tree) && x.node < |tree| && tree[x.node].Launch? && k < |tree[x.node].members|
    decreases |tree| - x.node, 0, |tree[x.node].members| - k, 0
  {
    assert WellFormedNode(tree, x.node);
    var c := Parts(tree[x.node])[k];
    var (s1, i) := Startup(tree, AddInstanceCompletionHandler(s, c, SubNodeDeath(x)), c, fork);
    s1.(life := SetAwaited(s1.life, x, Awaited(s1.life, x)[c := i]))
  }

  /** Makes stage `k` the current stage of sequence instance `x` and starts it. */
  function StartStage(tree: Tree, s: State, x: Inst, k: nat, fork: Fork): State
    requires WellFormed(tree) && x.node < |tree| && tree[x.node].Sequence? && k < |tree[x.node].order|
    decreases |tree| - x.node, 0, 0
  {
    assert WellFormedNode(tree, x.node);
    var c := Parts(tree[x.node])[k];
    var (s1, i) := Startup(tree, PrepareStage(s, x, k, c), c, fork);
    s1.(life := SetSequence(s1.life, x, SequenceOf(s1.life, x).(currentInst := i)))
  }

  /** Sequence instance `x` registers on its stage node and hands it the descriptors. */
  function PrepareStage(s: State, x: Inst, k: nat, c: NodeId): State {
    var s1 := s.(life := SetSequence(s.life, x, SequenceOf(s.life, x).(stage := k, currentNode := c)));
    var s2 := AddInstanceCompletionHandler(s1, c, Proceed(x));
    s2.(fds := PassFds(s2.fds, OfSequence(x), OfNode(c)))
  }

  // ---- Finishing ----

  /** Runs the general handler and then the instance handlers of `x`, then forgets the instance. */
  function FinishInstance(tree: Tree, s: State, x: Inst, code: int, fork: Fork): State
    requires WellFormed(tree)
    decreases x.node, 2, 0
  {
    if x !in s.life.instances then s
    else
      var s1 := s.(log := s.log + [Completed(x, code)]);
      var s2 := CallHandlers(tree, s1, x, code, s.life.instances[x], fork);
      s2.(life := Vanish(s2.life, x))
  }

  function CallHandlers(tree: Tree, s: State, x: Inst, code: int, hs: seq<Handler>, fork: Fork): State
    requires WellFormed(tree)
    decreases x.node, 1, |hs|
  {
    if hs == [] then s
    else CallHandlers(tree, CallHandler(tree, s, x, code, hs[0], fork), x, code, hs[1..], fork)
  }

  /** A group registers its handlers on its own members, so the owner of a handler has a smaller
      number than the node it is called for (`LifecycleInvariant.OwnerAbove`).  The test of the numbers makes
      the recursion well-founded for states that no run reaches. */
  function CallHandler(tree: Tree, s: State, x: Inst, code: int, h: Handler, fork: Fork): State
    requires WellFormed(tree)
    decreases x.node, 0, 0
  {
    match h
    case External(tag) => s.(log := s.log + [Delivered(tag, x, code)])
    case SubNodeDeath(owner) =>
      if owner.node < x.node then OnSubNodeDeath(tree, s, owner, x.node, fork) else s
    case Proceed(owner) =>
      if owner.node < x.node then ProceedWith(tree, s, owner, code, fork) else s
  }

  /** A member of launch instance `p` died; the launch finishes with 0 when it was the last. */
  function OnSubNodeDeath(tree: Tree, s: State, p: Inst, member: NodeId, fork: Fork): State
    requires WellFormed(tree)
    decreases p.node, 3, 0
  {
    var left := Awaited(s.life, p) - {member};
    var s1 := s.(life := SetAwaited(s.life, p, left));
    if left == map[] then
      var s2 := FinishInstance(tree, s1, p, 0, fork);
      s2.(life := DropLaunch(s2.life, p))
    else s1
  }

  function Order(tree: Tree, n: NodeId): seq<NodeId> {
    if n < |tree| && tree[n].Sequence? then tree[n].order else []
  }

  /** The current stage of sequence instance `p` ended with `code`: stop with that code when it is
      not 0 or the stages are used up, otherwise start the next stage. */
  function ProceedWith(tree: Tree, s: State, p: Inst, code: int, fork: Fork): State
    requires WellFormed(tree)
    decreases p.node, 3, 0
  {
    var stage := SequenceOf(s.life, p).stage + 1;
    // the unsigned comparison takes a negative stage for a large one
    if code != 0 || stage < 0 || stage >= |Order(tree, p.node)| then
      var s1 := s.(life := DropSequence(s.life, p), fds := CloseFds(s.fds, OfSequence(p)));
      FinishInstance(tree, s1, p, code, fork)
    else StartStage(tree, s, p, stage, fork)
  }

  // ---- Reaping ----

  /** The signal handler reaped `pid`: ids that are not ours are ignored. */
  function Reap(tree: Tree, s: State, pid: int, code: int, fork: Fork): State
    requires WellFormed(tree)
  {
    if pid !in s.life.runningNodes then s
    else
      var n := s.life.runningNodes[pid];
      var i := if (n, pid) in s.life.pidInstance then s.life.pidInstance[(n, pid)] else 0;
      FinishInstance(tree, s.(life := DropProcess(s.life, pid)), Inst(n, i), code, fork)
  }
}
