/** The lifecycle as arclaunch runs it: node objects whose methods update their fields, one table of
    descriptors and one table of processes.  Every method is proved against the function of the same
    name on states: when the fields show state `s`, afterwards they show the function's result. */
module Runtime {
  import opened NodeTree
  import opened Descriptors
  import opened Lifecycle
  import opened LifecycleRuns
  import opened LifecycleMeaning
  import opened LifecycleTheorems

  /** `mine` is what `all` holds for node `n`. */
  ghost predicate PartOf<T>(mine: map<nat, T>, all: map<Inst, T>, n: NodeId) {
    && (forall i: nat :: i in mine <==> Inst(n, i) in all)
    && (forall i: nat | i in mine && Inst(n, i) in all :: mine[i] == all[Inst(n, i)])
  }

  lemma {:induction false} PartUpdated<T>(mine: map<nat, T>, all: map<Inst, T>, n: NodeId, x: Inst, v: T)
    requires PartOf(mine, all, n)
    ensures PartOf(if x.node == n then mine[x.num := v] else mine, all[x := v], n)
  {
  }

  lemma {:induction false} PartDropped<T>(mine: map<nat, T>, all: map<Inst, T>, n: NodeId, x: Inst)
    requires PartOf(mine, all, n)
    ensures PartOf(if x.node == n then mine - {x.num} else mine, all - {x}, n)
  {
  }

  ghost predicate PidsOf(mine: map<int, nat>, all: map<(NodeId, int), nat>, n: NodeId) {
    && (forall pid: int :: pid in mine <==> (n, pid) in all)
    && (forall pid: int | pid in mine && (n, pid) in all :: mine[pid] == all[(n, pid)])
  }

  lemma {:induction false} PidsUpdated(mine: map<int, nat>, all: map<(NodeId, int), nat>, n: NodeId, x: Inst, pid: int)
    requires PidsOf(mine, all, n)
    ensures PidsOf(if x.node == n then mine[pid := x.num] else mine, all[(x.node, pid) := x.num], n)
  {
  }

  /** A node with the fields of all kinds; a node uses those of its kind.  `sequenceFds` holds the
      descriptor maps of the running sequences. */
  class Node {
    const id: NodeId
    var fdMap: map<nat, nat>
    var onInstanceDeath: seq<Handler>
    var instances: map<nat, seq<Handler>>
    var launchInstances: map<nat, map<NodeId, nat>>
    var sequences: map<nat, RunningSequence>
    var sequenceFds: map<nat, map<nat, nat>>
    var pidInstance: map<int, nat>

    constructor (id: NodeId)
      ensures this.id == id && fdMap == map[] && onInstanceDeath == [] && instances == map[]
      ensures launchInstances == map[] && sequences == map[] && sequenceFds == map[] && pidInstance == map[]
    {
      this.id := id;
      fdMap, onInstanceDeath, instances := map[], [], map[];
      launchInstances, sequences, sequenceFds, pidInstance := map[], map[], map[], map[];
    }

    /** The tables of this node are its part of `l`. */
    ghost predicate ShowsTables(l: Life)
      reads `instances, `launchInstances, `sequences, `pidInstance
    {
      && PartOf(instances, l.instances, id) && PartOf(launchInstances, l.launches, id)
      && PartOf(sequences, l.sequences, id)
      && PidsOf(pidInstance, l.pidInstance, id)
    }

    ghost predicate ShowsMaps(f: Fds)
      reads `fdMap, `sequenceFds
    {
      && fdMap == MapOf(f, OfNode(id))
      && (forall i: nat :: SequenceMap(i) == MapOf(f, OfSequence(Inst(id, i))))
    }

    ghost predicate ShowsPending(pending: map<NodeId, seq<Handler>>)
      reads `onInstanceDeath
    {
      onInstanceDeath == if id in pending then pending[id] else []
    }

    function SequenceMap(i: nat): map<nat, nat>
      reads `sequenceFds
    {
      if i in sequenceFds then sequenceFds[i] else map[]
    }

    /** The maps of this node are the same in `f` and `g`. */
    lemma {:induction false} SameMaps(f: Fds, g: Fds)
      requires ShowsMaps(f) && MapOf(g, OfNode(id)) == MapOf(f, OfNode(id))
      requires forall i: nat :: MapOf(g, OfSequence(Inst(id, i))) == MapOf(f, OfSequence(Inst(id, i)))
      ensures ShowsMaps(g)
    {
    }

    method SetFdMap(h: Holder, fdMap: map<nat, nat>, ghost f: Fds, ghost g: Fds)
      requires ShowsMaps(f) && (h == OfNode(id) || (h.OfSequence? && h.x.node == id))
      requires MapOf(g, h) == fdMap && forall h' | h' != h :: MapOf(g, h') == MapOf(f, h')
      modifies `fdMap, `sequenceFds
      ensures ShowsMaps(g)
    {
      match h {
        case OfNode(_) => this.fdMap := fdMap;
        case OfSequence(x) => sequenceFds := sequenceFds[x.num := fdMap];
      }
    }

    method AddInstanceCompletionHandler(h: Handler)
      modifies this`onInstanceDeath
      ensures onInstanceDeath == old(onInstanceDeath) + [h]
    {
      onInstanceDeath := onInstanceDeath + [h];
    }
  }

  /** The arclaunch process: its nodes, its descriptor table and the table of its children. */
  class Process {
    const tree: Tree
    const nodes: seq<Node>
    var open: Table
    var pipes: nat
    var runningNodes: map<int, NodeId>
    var programs: map<int, map<nat, File>>
    var log: seq<Event>

    constructor (tree: Tree, open: Table)
      requires WellFormed(tree)
      ensures this.tree == tree && this.open == open && Represents(Initial(Fds(open, map[], 0)))
      ensures forall node | node in nodes :: fresh(node)
    {
      var made: seq<Node> := [];
      while |made| < |tree|
        invariant |made| <= |tree|
        invariant forall n | 0 <= n < |made| ::
          && fresh(made[n]) && made[n].id == n && made[n].fdMap == map[] && made[n].onInstanceDeath == []
          && made[n].instances == map[] && made[n].launchInstances == map[] && made[n].sequences == map[]
          && made[n].sequenceFds == map[] && made[n].pidInstance == map[]
      {
        var node := new Node(|made|);
        made := made + [node];
      }
      this.tree, this.nodes, this.open, this.pipes := tree, made, open, 0;
      this.runningNodes, this.programs, this.log := map[], map[], [];
    }

    predicate Built() {
      WellFormed(tree) && |nodes| == |tree| && forall n | 0 <= n < |nodes| :: nodes[n].id == n
    }

    /** The fields show the state `s`. */
    ghost predicate Represents(s: State)
      reads this, nodes
    {
      && Built() && ShowsFds(s.fds) && ShowsLife(s.life) && AllPending(s.pending)
      && programs == s.programs && log == s.log
    }

    ghost predicate ShowsFds(f: Fds)
      reads `open, `pipes, nodes`fdMap, nodes`sequenceFds
    {
      open == f.open && pipes == f.pipes && AllMaps(f)
    }

    ghost predicate ShowsLife(l: Life)
      reads `runningNodes, nodes`instances, nodes`launchInstances, nodes`sequences, nodes`pidInstance
    {
      runningNodes == l.runningNodes && (forall pid | pid in runningNodes :: runningNodes[pid] < |nodes|) && AllTables(l)
    }

    ghost predicate AllTables(l: Life)
      reads nodes`instances, nodes`launchInstances, nodes`sequences, nodes`pidInstance
    {
      forall n {:trigger nodes[n]} | 0 <= n < |nodes| :: nodes[n].ShowsTables(l)
    }

    ghost predicate AllMaps(f: Fds)
      reads nodes`fdMap, nodes`sequenceFds
    {
      forall n {:trigger nodes[n]} | 0 <= n < |nodes| :: nodes[n].ShowsMaps(f)
    }

    ghost predicate AllPending(pending: map<NodeId, seq<Handler>>)
      reads nodes`onInstanceDeath
    {
      forall n {:trigger nodes[n]} | 0 <= n < |nodes| :: nodes[n].ShowsPending(pending)
    }

    // ---- Descriptors ----

    function FdMap(h: Holder): map<nat, nat>
      requires Built()
      reads this, nodes
    {
      match h
      case OfNode(n) => if n < |nodes| then nodes[n].fdMap else map[]
      case OfSequence(x) => if x.node < |nodes| then nodes[x.node].SequenceMap(x.num) else map[]
    }

    lemma {:induction false} FdMapShown(f: Fds, h: Holder)
      requires Built() && HasHolder(h) && AllMaps(f)
      ensures FdMap(h) == MapOf(f, h)
    {
    }

    predicate HasHolder(h: Holder) {
      match h
      case OfNode(n) => n < |nodes|
      case OfSequence(x) => x.node < |nodes|
    }

    method SetFdMap(h: Holder, fdMap: map<nat, nat>, ghost f: Fds, ghost g: Fds)
      requires Built() && HasHolder(h) && AllMaps(f)
      requires MapOf(g, h) == fdMap && forall h' | h' != h :: MapOf(g, h') == MapOf(f, h')
      modifies nodes`fdMap, nodes`sequenceFds
      ensures AllMaps(g)
    {
      var k := match h case OfNode(n) => n case OfSequence(x) => x.node;
      nodes[k].SetFdMap(h, fdMap, f, g);
      forall n | 0 <= n < |nodes| && n != k ensures nodes[n].ShowsMaps(g) {
        assert nodes[n].ShowsMaps(f);
        nodes[n].SameMaps(f, g);
      }
    }

    /** `Node::linkFd`: tries the numbers above `fd` until one is closed.  When `extFd` is not open
        the duplication fails, which the source reports with an exception. */
    method LinkFd(ghost f: Fds, h: Holder, fd: nat, extFd: nat) returns (linked: bool)
      requires Built() && ShowsFds(f) && HasHolder(h)
      modifies `open, nodes`fdMap, nodes`sequenceFds
      ensures linked <==> extFd in f.open
      ensures ShowsFds(Descriptors.LinkFd(f, h, fd, extFd))
    {
      var nFd := fd + 1;
      ghost var free := FirstFree(open.Keys, fd + 1);
      while nFd in open
        invariant fd + 1 <= nFd <= free
        decreases free - nFd
      {
        nFd := nFd + 1;
      }
      assert nFd == free;
      linked := extFd in open;
      if linked {
        FdMapShown(f, h);
        var fdMap := FdMap(h)[nFd := fd];
        open := open[nFd := Entry(open[extFd].file, true)];
        SetFdMap(h, fdMap, f, Descriptors.LinkFd(f, h, fd, extFd));
      }
    }

    /** `Node::closeFds`. */
    method CloseFds(ghost f: Fds, h: Holder)
      requires Built() && ShowsFds(f) && HasHolder(h)
      modifies `open, nodes`fdMap, nodes`sequenceFds
      ensures ShowsFds(Descriptors.CloseFds(f, h))
    {
      FdMapShown(f, h);
      open := open - FdMap(h).Keys;
      SetFdMap(h, map[], f, Descriptors.CloseFds(f, h));
    }

    /** `Node::passFds`: a loop over the map in ascending key order. */
    method PassFds(ghost f: Fds, h: Holder, child: Holder)
      requires Built() && ShowsFds(f) && HasHolder(h) && HasHolder(child)
      modifies `open, nodes`fdMap, nodes`sequenceFds
      ensures ShowsFds(Descriptors.PassFds(f, h, child))
    {
      FdMapShown(f, h);
      var source := FdMap(h);
      var todo := source.Keys;
      ghost var g := f;
      while todo != {}
        invariant todo <= source.Keys && ShowsFds(g)
        invariant PassFrom(g, source, child, todo) == Descriptors.PassFds(f, h, child)
        decreases |todo|
      {
        var k := Min(todo);
        var _ := LinkFd(g, child, source[k], k);
        g := Descriptors.LinkFd(g, child, source[k], k);
        todo := todo - {k};
      }
    }

    /** `Node::passFd`: the first entry, in ascending key order, that leads to `outer`. */
    method PassFd(ghost f: Fds, h: Holder, child: Holder, outer: nat, inner: nat)
      requires Built() && ShowsFds(f) && HasHolder(h) && HasHolder(child)
      modifies `open, nodes`fdMap, nodes`sequenceFds
      ensures ShowsFds(Descriptors.PassFd(f, h, child, outer, inner))
    {
      FdMapShown(f, h);
      var source := FdMap(h);
      ghost var ks := Sources(source, outer);
      var todo := source.Keys;
      while todo != {}
        invariant todo <= source.Keys && ShowsFds(f) && ks <= todo
        decreases |todo|
      {
        var k := Min(todo);
        if source[k] == outer {
          assert k in ks && k == Min(ks);
          var _ := LinkFd(f, child, inner, k);
          return;
        }
        todo := todo - {k};
      }
    }

    /** `Node::overwriteFds`, on the copy of the table that the forked child has. */
    method OverwriteFds(fdMap: map<nat, nat>) returns (table: Table)
      ensures table == OverwriteFrom(open, fdMap, fdMap.Keys)
    {
      table := open;
      var todo := fdMap.Keys;
      while todo != {}
        invariant todo <= fdMap.Keys
        invariant OverwriteFrom(table, fdMap, todo) == OverwriteFrom(open, fdMap, fdMap.Keys)
        decreases |todo|
      {
        var k := Min(todo);
        table := Dup2(table, k, fdMap[k]);
        todo := todo - {k};
      }
    }

    // ---- The assignments to the tables ----

    method Appear(ghost s: State, x: Inst, hs: seq<Handler>)
      requires Represents(s) && x.node < |nodes|
      modifies nodes`instances
      ensures Represents(s.(life := Lifecycle.Appear(s.life, x, hs)))
    {
      nodes[x.node].instances := nodes[x.node].instances[x.num := hs];
      assert ShowsFds(s.fds) && AllPending(s.pending);
      forall n | 0 <= n < |nodes| ensures nodes[n].ShowsTables(Lifecycle.Appear(s.life, x, hs)) {
        PartUpdated(old(nodes[n].instances), s.life.instances, n, x, hs);
      }
    }

    method Vanish(ghost s: State, x: Inst)
      requires Represents(s) && x.node < |nodes|
      modifies nodes`instances
      ensures Represents(s.(life := Lifecycle.Vanish(s.life, x)))
    {
      nodes[x.node].instances := nodes[x.node].instances - {x.num};
      assert ShowsFds(s.fds) && AllPending(s.pending);
      forall n | 0 <= n < |nodes| ensures nodes[n].ShowsTables(Lifecycle.Vanish(s.life, x)) {
        PartDropped(old(nodes[n].instances), s.life.instances, n, x);
      }
    }

    method SetAwaited(ghost s: State, x: Inst, members: map<NodeId, nat>)
      requires Represents(s) && x.node < |nodes|
      modifies nodes`launchInstances
      ensures Represents(s.(life := Lifecycle.SetAwaited(s.life, x, members)))
    {
      nodes[x.node].launchInstances := nodes[x.node].launchInstances[x.num := members];
      assert ShowsFds(s.fds) && AllPending(s.pending);
      forall n | 0 <= n < |nodes| ensures nodes[n].ShowsTables(Lifecycle.SetAwaited(s.life, x, members)) {
        PartUpdated(old(nodes[n].launchInstances), s.life.launches, n, x, members);
      }
    }

    method DropLaunch(ghost s: State, x: Inst)
      requires Represents(s) && x.node < |nodes|
      modifies nodes`launchInstances
      ensures Represents(s.(life := Lifecycle.DropLaunch(s.life, x)))
    {
      nodes[x.node].launchInstances := nodes[x.node].launchInstances - {x.num};
      assert ShowsFds(s.fds) && AllPending(s.pending);
      forall n | 0 <= n < |nodes| ensures nodes[n].ShowsTables(Lifecycle.DropLaunch(s.life, x)) {
        PartDropped(old(nodes[n].launchInstances), s.life.launches, n, x);
      }
    }

    method SetSequence(ghost s: State, x: Inst, r: RunningSequence)
      requires Represents(s) && x.node < |nodes|
      modifies nodes`sequences
      ensures Represents(s.(life := Lifecycle.SetSequence(s.life, x, r)))
    {
      nodes[x.node].sequences := nodes[x.node].sequences[x.num := r];
      assert ShowsFds(s.fds) && AllPending(s.pending);
      forall n | 0 <= n < |nodes| ensures nodes[n].ShowsTables(Lifecycle.SetSequence(s.life, x, r)) {
        PartUpdated(old(nodes[n].sequences), s.life.sequences, n, x, r);
      }
    }

    method DropSequence(ghost s: State, x: Inst)
      requires Represents(s) && x.node < |nodes|
      modifies nodes`sequences
      ensures Represents(s.(life := Lifecycle.DropSequence(s.life, x)))
    {
      nodes[x.node].sequences := nodes[x.node].sequences - {x.num};
      assert ShowsFds(s.fds) && AllPending(s.pending);
      forall n | 0 <= n < |nodes| ensures nodes[n].ShowsTables(Lifecycle.DropSequence(s.life, x)) {
        PartDropped(old(nodes[n].sequences), s.life.sequences, n, x);
      }
    }

    method AddProcess(ghost s: State, x: Inst, pid: int)
      requires Represents(s) && x.node < |nodes|
      modifies `runningNodes, nodes`pidInstance
      ensures Represents(s.(life := Lifecycle.AddProcess(s.life, x, pid)))
    {
      runningNodes := runningNodes[pid := x.node];
      RecordPid(s.life, x, pid);
      assert ShowsFds(s.fds) && AllPending(s.pending);
    }

    method RecordPid(ghost l: Life, x: Inst, pid: int)
      requires Built() && AllTables(l) && x.node < |nodes|
      modifies nodes`pidInstance
      ensures AllTables(Lifecycle.AddProcess(l, x, pid))
    {
      nodes[x.node].pidInstance := nodes[x.node].pidInstance[pid := x.num];
      forall n | 0 <= n < |nodes| ensures nodes[n].ShowsTables(Lifecycle.AddProcess(l, x, pid)) {
        PidsUpdated(old(nodes[n].pidInstance), l.pidInstance, n, x, pid);
      }
    }

    method AddHandler(ghost s: State, n: NodeId, h: Handler)
      requires Represents(s) && n < |nodes|
      modifies nodes`onInstanceDeath
      ensures Represents(Lifecycle.AddInstanceCompletionHandler(s, n, h))
    {
      nodes[n].AddInstanceCompletionHandler(h);
      forall k | 0 <= k < |nodes| ensures nodes[k].ShowsPending(s.pending[n := Pending(s, n) + [h]]) {
        assert old(nodes[k].ShowsPending(s.pending));
      }
    }

    /** The pending handlers of node `n`, which are no longer pending afterwards. */
    method TakeHandlers(ghost pending: map<NodeId, seq<Handler>>, n: NodeId) returns (hs: seq<Handler>)
      requires Built() && AllPending(pending) && n < |nodes|
      modifies nodes`onInstanceDeath
      ensures hs == (if n in pending then pending[n] else []) && AllPending(pending[n := []])
    {
      hs := nodes[n].onInstanceDeath;
      nodes[n].onInstanceDeath := [];
      forall k | 0 <= k < |nodes| ensures nodes[k].ShowsPending(pending[n := []]) {
        assert old(nodes[k].ShowsPending(pending));
      }
    }

    lemma {:induction false} NumberUsed(l: Life, n: NodeId, i: nat)
      requires Built() && ShowsLife(l) && n < |nodes|
      ensures i in nodes[n].instances <==> i in Numbers(l, n)
    {
      assert nodes[n].ShowsTables(l);
      if i in nodes[n].instances {
        assert Inst(n, i) in l.instances;
      }
    }

    // ---- Starting ----

    method FreeNumber(ghost l: Life, n: NodeId) returns (i: nat)
      requires Built() && ShowsLife(l) && n < |nodes|
      ensures i == FirstFree(Numbers(l, n), 0)
    {
      ghost var free := FirstFree(Numbers(l, n), 0);
      i := 0;
      while i in nodes[n].instances
        invariant i <= free
        decreases free - i
      {
        NumberUsed(l, n, i);
        i := i + 1;
      }
      NumberUsed(l, n, i);
    }

    /** `Node::startup`. */
    method Startup(ghost s: State, n: NodeId, fork: Fork) returns (i: nat)
      requires Represents(s) && n < |nodes|
      modifies this, nodes
      ensures Represents(Lifecycle.Startup(tree, s, n, fork).0) && i == Lifecycle.Startup(tree, s, n, fork).1
      decreases |tree| - n, 2, 0
    {
      i := FreeNumber(s.life, n);
      ghost var s1 := Register(s, n, i);
      StartInstance(s1, Inst(n, i), fork);
      CloseNodeFds(Lifecycle.StartInstance(tree, s1, Inst(n, i), fork), n);
    }

    /** The pending handlers move into the new instance. */
    method Register(ghost s: State, n: NodeId, i: nat) returns (ghost t: State)
      requires Represents(s) && n < |nodes|
      modifies this, nodes
      ensures t == s.(life := Lifecycle.Appear(s.life, Inst(n, i), Pending(s, n)), pending := s.pending[n := []])
      ensures Represents(t)
    {
      var hs := TakeHandlers(s.pending, n);
      Appear(s.(pending := s.pending[n := []]), Inst(n, i), hs);
      t := s.(life := Lifecycle.Appear(s.life, Inst(n, i), Pending(s, n)), pending := s.pending[n := []]);
    }

    method CloseNodeFds(ghost s: State, n: NodeId)
      requires Represents(s) && n < |nodes|
      modifies this, nodes
      ensures Represents(s.(fds := Descriptors.CloseFds(s.fds, OfNode(n))))
    {
      CloseFds(s.fds, OfNode(n));
      assert ShowsLife(s.life) && AllPending(s.pending);
    }

    /** `startInstance` of the three kinds of node. */
    method StartInstance(ghost s: State, x: Inst, fork: Fork)
      requires Represents(s) && x.node < |nodes|
      modifies this, nodes
      ensures Represents(Lifecycle.StartInstance(tree, s, x, fork))
      decreases |tree| - x.node, 1, 0
    {
      match tree[x.node] {
        case Executable => StartProcess(s, x, fork);
        case Launch(_, _, _) => StartLaunch(s, x, fork);
        case Sequence(_) =>
          assert WellFormedNode(tree, x.node);
          var r := RunningSequence(-1, 0, 0);
          SetSequence(s, x, r);
          PassFdsOn(s.(life := Lifecycle.SetSequence(s.life, x, r)), OfNode(x.node), OfSequence(x));
          StartStage(s.(life := Lifecycle.SetSequence(s.life, x, r),
                        fds := Descriptors.PassFds(s.fds, OfNode(x.node), OfSequence(x))), x, 0, fork);
      }
    }

    /** What the forked child sees when it executes the program of node `n`. */
    method RunChild(ghost f: Fds, n: NodeId) returns (program: map<nat, File>)
      requires Built() && ShowsFds(f) && n < |nodes|
      ensures program == ProgramTable(f, OfNode(n))
    {
      FdMapShown(f, OfNode(n));
      var table := OverwriteFds(nodes[n].fdMap);
      program := Exec(table);
    }

    /** `ExecutableNode::startInstance`. */
    method StartProcess(ghost s: State, x: Inst, fork: Fork)
      requires Represents(s) && x.node < |nodes|
      modifies this, nodes
      ensures Represents(Lifecycle.StartProcess(s, x, fork))
    {
      var pid := fork(runningNodes.Keys);
      var program := RunChild(s.fds, x.node);
      programs := programs[pid := program];
      AddProcess(s.(programs := s.programs[pid := program]), x, pid);
    }

    /** `LaunchNode::startInstance`. */
    method StartLaunch(ghost s: State, x: Inst, fork: Fork)
      requires Represents(s) && x.node < |nodes| && tree[x.node].Launch?
      modifies this, nodes
      ensures Represents(Lifecycle.StartInstance(tree, s, x, fork))
      decreases |tree| - x.node, 0, |tree[x.node].members| + 1
    {
      ghost var t := Wire(s, x.node);
      SetAwaited(t, x, map[]);
      t := t.(life := Lifecycle.SetAwaited(t.life, x, map[]));
      var k := 0;
      while k < |tree[x.node].members|
        invariant k <= |tree[x.node].members| && Represents(t)
        invariant StartMembers(tree, t, x, k, fork) == Lifecycle.StartInstance(tree, s, x, fork)
      {
        StartMember(t, x, k, fork);
        t := Lifecycle.StartMember(tree, t, x, k, fork);
        k := k + 1;
      }
    }

    /** The linkage and externalization loops of a launch. */
    method Wire(ghost s: State, n: NodeId) returns (ghost t: State)
      requires Represents(s) && n < |nodes| && tree[n].Launch?
      modifies this, nodes
      ensures t == s.(fds := PassExternals(WireLinks(s.fds, tree[n].links), OfNode(n), tree[n].externals))
      ensures Represents(t)
    {
      ghost var f := WireLinks(s.fds, tree[n].links);
      label before:
      WireLinksOf(s.fds, n);
      assert RestShown(s) by { RestStays@before(s); }
      label between:
      PassExternalsOf(f, n);
      assert RestShown(s) by { RestStays@between(s); }
      t := s.(fds := PassExternals(f, OfNode(n), tree[n].externals));
    }

    /** What is left of `Represents` without the descriptors. */
    ghost predicate RestShown(s: State)
      reads this, nodes
    {
      ShowsLife(s.life) && AllPending(s.pending) && programs == s.programs && log == s.log
    }

    /** Assignments to the descriptor fields do not touch it. */
    twostate lemma {:induction false} RestStays(s: State)
      requires old(RestShown(s)) && unchanged(`runningNodes, `programs, `log)
      requires unchanged(nodes`instances, nodes`launchInstances, nodes`sequences, nodes`pidInstance, nodes`onInstanceDeath)
      ensures RestShown(s)
    {
    }

    method WireLinksOf(ghost f: Fds, n: NodeId)
      requires Built() && ShowsFds(f) && n < |nodes| && tree[n].Launch?
      modifies `open, `pipes, nodes`fdMap, nodes`sequenceFds
      ensures ShowsFds(WireLinks(f, tree[n].links))
    {
      var links := tree[n].links;
      ghost var g := f;
      var k := 0;
      while k < |links|
        invariant k <= |links| && ShowsFds(g)
        invariant WireLinks(g, links[k..]) == WireLinks(f, links)
      {
        assert WellFormedNode(tree, n);
        WireOne(g, links[k]);
        g := WireLink(g, links[k]);
        k := k + 1;
      }
    }

    method WireOne(ghost f: Fds, link: Link)
      requires Built() && ShowsFds(f) && link.from < |nodes| && link.to < |nodes|
      modifies `open, `pipes, nodes`fdMap, nodes`sequenceFds
      ensures ShowsFds(WireLink(f, link))
    {
      var read, write := OpenPipe(f);
      ghost var f1 := Descriptors.OpenPipe(f).0;
      var _ := LinkFd(f1, OfNode(link.to), link.toFd, read);
      ghost var f2 := Descriptors.LinkFd(f1, OfNode(link.to), link.toFd, read);
      var _ := LinkFd(f2, OfNode(link.from), link.fromFd, write);
      Close(Descriptors.LinkFd(f2, OfNode(link.from), link.fromFd, write), read, write);
    }

    method Close(ghost f: Fds, read: nat, write: nat)
      requires ShowsFds(f)
      modifies `open
      ensures ShowsFds(f.(open := f.open - {read} - {write}))
    {
      open := open - {read};
      open := open - {write};
    }

    method OpenPipe(ghost f: Fds) returns (read: nat, write: nat)
      requires Built() && ShowsFds(f)
      modifies `open, `pipes
      ensures (read, write) == (Descriptors.OpenPipe(f).1, Descriptors.OpenPipe(f).2)
      ensures ShowsFds(Descriptors.OpenPipe(f).0)
    {
      read := FirstFree(open.Keys, 0);
      write := FirstFree(open.Keys + {read}, 0);
      open := open[read := Entry(ReadEnd(pipes), true)][write := Entry(WriteEnd(pipes), true)];
      pipes := pipes + 1;
    }

    method PassExternalsOf(ghost f: Fds, n: NodeId)
      requires Built() && ShowsFds(f) && n < |nodes| && tree[n].Launch?
      modifies `open, nodes`fdMap, nodes`sequenceFds
      ensures ShowsFds(PassExternals(f, OfNode(n), tree[n].externals))
    {
      var externals := tree[n].externals;
      ghost var g := f;
      var k := 0;
      while k < |externals|
        invariant k <= |externals| && ShowsFds(g)
        invariant PassExternals(g, OfNode(n), externals[k..]) == PassExternals(f, OfNode(n), externals)
      {
        assert WellFormedNode(tree, n);
        var e := externals[k];
        PassFd(g, OfNode(n), OfNode(e.member), e.outer, e.inner);
        g := Descriptors.PassFd(g, OfNode(n), OfNode(e.member), e.outer, e.inner);
        k := k + 1;
      }
    }

    method StartMember(ghost s: State, x: Inst, k: nat, fork: Fork)
      requires Represents(s) && x.node < |nodes| && tree[x.node].Launch? && k < |tree[x.node].members|
      modifies this, nodes
      ensures Represents(Lifecycle.StartMember(tree, s, x, k, fork))
      decreases |tree| - x.node, 0, |tree[x.node].members| - k
    {
      assert WellFormedNode(tree, x.node);
      var c := Parts(tree[x.node])[k];
      AddHandler(s, c, SubNodeDeath(x));
      ghost var s1 := Lifecycle.AddInstanceCompletionHandler(s, c, SubNodeDeath(x));
      var i := Startup(s1, c, fork);
      ghost var s2 := Lifecycle.Startup(tree, s1, c, fork).0;
      var awaited := AwaitedBy(s2.life, x);
      SetAwaited(s2, x, awaited[c := i]);
    }

    method AwaitedBy(ghost l: Life, x: Inst) returns (awaited: map<NodeId, nat>)
      requires Built() && ShowsLife(l) && x.node < |nodes|
      ensures awaited == Awaited(l, x)
    {
      var node := nodes[x.node];
      assert node.ShowsTables(l);
      awaited := if x.num in node.launchInstances then node.launchInstances[x.num] else map[];
    }

    method RunningSequenceOf(ghost l: Life, x: Inst) returns (r: RunningSequence)
      requires Built() && ShowsLife(l) && x.node < |nodes|
      ensures r == SequenceOf(l, x)
    {
      var node := nodes[x.node];
      assert node.ShowsTables(l);
      r := if x.num in node.sequences then node.sequences[x.num] else RunningSequence(-1, 0, 0);
    }

    /** The second half of `RunningSequence::proceed`. */
    method StartStage(ghost s: State, x: Inst, k: nat, fork: Fork)
      requires Represents(s) && x.node < |nodes| && tree[x.node].Sequence? && k < |tree[x.node].order|
      modifies this, nodes
      ensures Represents(Lifecycle.StartStage(tree, s, x, k, fork))
      decreases |tree| - x.node, 0, 0
    {
      assert WellFormedNode(tree, x.node);
      var c := Parts(tree[x.node])[k];
      PrepareStage(s, x, k, c);
      ghost var s1 := Lifecycle.PrepareStage(s, x, k, c);
      var i := Startup(s1, c, fork);
      ghost var s2 := Lifecycle.Startup(tree, s1, c, fork).0;
      var r := RunningSequenceOf(s2.life, x);
      SetSequence(s2, x, r.(currentInst := i));
    }

    method PrepareStage(ghost s: State, x: Inst, k: nat, c: NodeId)
      requires Represents(s) && x.node < |nodes| && c < |nodes|
      modifies this, nodes
      ensures Represents(Lifecycle.PrepareStage(s, x, k, c))
    {
      var r := RunningSequenceOf(s.life, x);
      r := r.(stage := k, currentNode := c);
      SetSequence(s, x, r);
      ghost var s1 := s.(life := Lifecycle.SetSequence(s.life, x, r));
      AddHandler(s1, c, Proceed(x));
      PassFdsOn(Lifecycle.AddInstanceCompletionHandler(s1, c, Proceed(x)), OfSequence(x), OfNode(c));
    }

    method PassFdsOn(ghost s: State, h: Holder, child: Holder)
      requires Represents(s) && HasHolder(h) && HasHolder(child)
      modifies this, nodes
      ensures Represents(s.(fds := Descriptors.PassFds(s.fds, h, child)))
    {
      PassFds(s.fds, h, child);
      assert ShowsLife(s.life) && AllPending(s.pending);
    }

    // ---- Finishing ----

    /** `Node::instanceIsRunning`, with the handlers of the instance. */
    method HandlersOf(ghost l: Life, x: Inst) returns (running: bool, hs: seq<Handler>)
      requires Built() && ShowsLife(l) && x.node < |nodes|
      ensures running <==> x in l.instances
      ensures running ==> hs == l.instances[x]
    {
      var node := nodes[x.node];
      assert node.ShowsTables(l);
      running := x.num in node.instances;
      hs := if running then node.instances[x.num] else [];
    }

    /** `Node::finishInstance`. */
    method FinishInstance(ghost s: State, x: Inst, code: int, fork: Fork)
      requires Represents(s) && x.node < |nodes|
      modifies this, nodes
      ensures Represents(Lifecycle.FinishInstance(tree, s, x, code, fork))
      decreases x.node, 2, 0
    {
      var running, hs := HandlersOf(s.life, x);
      if running {
        log := log + [Completed(x, code)];
        ghost var s1 := s.(log := s.log + [Completed(x, code)]);
        CallHandlers(s1, x, code, hs, fork);
        Vanish(Lifecycle.CallHandlers(tree, s1, x, code, hs, fork), x);
      }
    }

    /** The loop over the instance handlers. */
    method CallHandlers(ghost s: State, x: Inst, code: int, hs: seq<Handler>, fork: Fork)
      requires Represents(s) && x.node < |nodes|
      modifies this, nodes
      ensures Represents(Lifecycle.CallHandlers(tree, s, x, code, hs, fork))
      decreases x.node, 1, 0
    {
      ghost var t := s;
      var k := 0;
      while k < |hs|
        invariant k <= |hs| && Represents(t)
        invariant Lifecycle.CallHandlers(tree, t, x, code, hs[k..], fork) == Lifecycle.CallHandlers(tree, s, x, code, hs, fork)
      {
        CallHandler(t, x, code, hs[k], fork);
        t := Lifecycle.CallHandler(tree, t, x, code, hs[k], fork);
        k := k + 1;
      }
    }

    method CallHandler(ghost s: State, x: Inst, code: int, h: Handler, fork: Fork)
      requires Represents(s) && x.node < |nodes|
      modifies this, nodes
      ensures Represents(Lifecycle.CallHandler(tree, s, x, code, h, fork))
      decreases x.node, 0, 0
    {
      match h {
        case External(tag) => log := log + [Delivered(tag, x, code)];
        case SubNodeDeath(owner) => if owner.node < x.node { OnSubNodeDeath(s, owner, x.node, fork); }
        case Proceed(owner) => if owner.node < x.node { ProceedWith(s, owner, code, fork); }
      }
    }

    /** `LaunchNode::onSubNodeDeath`. */
    method OnSubNodeDeath(ghost s: State, p: Inst, member: NodeId, fork: Fork)
      requires Represents(s) && p.node < |nodes|
      modifies this, nodes
      ensures Represents(Lifecycle.OnSubNodeDeath(tree, s, p, member, fork))
      decreases p.node, 3, 0
    {
      var awaited := AwaitedBy(s.life, p);
      SetAwaited(s, p, awaited - {member});
      if awaited - {member} == map[] {
        ghost var s1 := s.(life := Lifecycle.SetAwaited(s.life, p, awaited - {member}));
        FinishInstance(s1, p, 0, fork);
        DropLaunch(Lifecycle.FinishInstance(tree, s1, p, 0, fork), p);
      }
    }

    /** `RunningSequence::proceed`. */
    method ProceedWith(ghost s: State, p: Inst, code: int, fork: Fork)
      requires Represents(s) && p.node < |nodes|
      modifies this, nodes
      ensures Represents(Lifecycle.ProceedWith(tree, s, p, code, fork))
      decreases p.node, 3, 0
    {
      var r := RunningSequenceOf(s.life, p);
      var stage := r.stage + 1;
      if code != 0 || stage < 0 || stage >= |Order(tree, p.node)| {
        EraseSequence(s, p);
        FinishInstance(s.(life := Lifecycle.DropSequence(s.life, p), fds := Descriptors.CloseFds(s.fds, OfSequence(p))),
                       p, code, fork);
      } else {
        StartStage(s, p, stage, fork);
      }
    }

    /** Erasing a running sequence closes the descriptors it holds. */
    method EraseSequence(ghost s: State, p: Inst)
      requires Represents(s) && p.node < |nodes|
      modifies this, nodes
      ensures Represents(s.(life := Lifecycle.DropSequence(s.life, p), fds := Descriptors.CloseFds(s.fds, OfSequence(p))))
    {
      DropSequence(s, p);
      CloseFds(s.fds, OfSequence(p));
    }

    // ---- Reaping ----

    /** `ExecutableNode::reaper` and `reapProcess`. */
    method Reap(ghost s: State, pid: int, code: int, fork: Fork)
      requires Represents(s)
      modifies this, nodes
      ensures Represents(Lifecycle.Reap(tree, s, pid, code, fork))
    {
      if pid in runningNodes {
        var n := runningNodes[pid];
        assert nodes[n].ShowsTables(s.life);
        var i := if pid in nodes[n].pidInstance then nodes[n].pidInstance[pid] else 0;
        runningNodes := runningNodes - {pid};
        FinishInstance(s.(life := DropProcess(s.life, pid)), Inst(n, i), code, fork);
      }
    }

    // ---- Runs ----

    /** Only nodes of the tree can be linked or watched. */
    predicate Possible(moves: seq<Move>) {
      forall k | 0 <= k < |moves| ::
        && (moves[k].step.Link? ==> moves[k].step.n < |nodes|)
        && (moves[k].step.Watch? ==> moves[k].step.n < |nodes|)
    }

    method Perform(ghost s: State, m: Move)
      requires Represents(s) && Possible([m])
      modifies this, nodes
      ensures Represents(Next(tree, s, m))
    {
      assert [m][0] == m;
      match m.step {
        case Start(n) => if n < |nodes| { var _ := Startup(s, n, m.fork); }
        case Exit(pid, code) => Reap(s, pid, code, m.fork);
        case Link(n, fd, extFd) => LinkNode(s, n, fd, extFd);
        case Watch(n, tag) => AddHandler(s, n, Handler.External(tag));
      }
    }

    method LinkNode(ghost s: State, n: NodeId, fd: nat, extFd: nat)
      requires Represents(s) && n < |nodes|
      modifies this, nodes
      ensures Represents(s.(fds := Descriptors.LinkFd(s.fds, OfNode(n), fd, extFd)))
    {
      var _ := LinkFd(s.fds, OfNode(n), fd, extFd);
      assert ShowsLife(s.life) && AllPending(s.pending);
    }

    /** The objects follow every run of the state functions, so what is proved about runs is proved
        about the fields. */
    method Run(ghost s: State, moves: seq<Move>)
      requires Represents(s) && Possible(moves)
      modifies this, nodes
      ensures Represents(After(tree, s, moves))
    {
      ghost var t := s;
      var k := 0;
      while k < |moves|
        invariant k <= |moves| && Represents(t)
        invariant After(tree, t, moves[k..]) == After(tree, s, moves)
      {
        Perform(t, moves[k]);
        t := Next(tree, t, moves[k]);
        k := k + 1;
      }
    }

    /** Start a node and let any schedule run: the objects report the meaning of the node, once, to the
        handlers that were pending on it, and not before the run is over. */
    method StartAndRun(ghost s: State, n: NodeId, fork: Fork, moves: seq<Move>, ghost script: Script) returns (i: nat)
      requires Represents(s) && Stable(tree, s) && n < |nodes| && FreshPids(fork) && Forks(moves) && Possible(moves)
      requires var (t, i) := Lifecycle.Startup(tree, s, n, fork);
        ObeysScript(tree, t, moves, Inst(n, i), script) && RunsBefore(tree, t, moves, Inst(n, i))
      modifies this, nodes
      ensures EventsOf(log, Inst(n, i)) == EventsOf(old(log), Inst(n, i)) +
        if i in nodes[n].instances then []
        else Report(Inst(n, i), Meaning(tree, n, script, []), old(nodes[n].onInstanceDeath))
    {
      StartedRunDeliversMeaning(tree, s, n, fork, moves, script);
      assert nodes[n].ShowsPending(s.pending);
      i := Startup(s, n, fork);
      ghost var t := Lifecycle.Startup(tree, s, n, fork).0;
      Run(t, moves);
      assert nodes[n].ShowsTables(After(tree, t, moves).life);
    }
  }
}
