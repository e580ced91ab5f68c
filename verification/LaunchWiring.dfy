/** A linkage between two executables of a launch: the two programs hold the ends of one pipe. */
module LaunchWiring {
  import opened NodeTree
  import opened Descriptors
  import opened DescriptorLaws
  import opened DescriptorRuns
  import opened Lifecycle
  import opened LifecycleInvariant
  import opened LifecycleStarting
  import opened LifecycleCascade

  /** Node `m` is `n` or belongs, at some depth, to group `n`. */
  ghost predicate Below(tree: Tree, n: NodeId, m: NodeId)
    requires WellFormed(tree) && n < |tree|
    decreases |tree| - n
  {
    m == n || exists k {:trigger Parts(tree[n])[k]} | 0 <= k < |Parts(tree[n])| ::
      WellFormedNode(tree, n) && Below(tree, Parts(tree[n])[k], m)
  }

  /** Starting node `n` cannot touch the map of `h`: a node that is not below `n`, or the sequence of an
      instance that runs already. */
  ghost predicate Outside(tree: Tree, l: Life, n: NodeId, h: Holder)
    requires WellFormed(tree) && n < |tree|
  {
    match h
    case OfNode(m) => !Below(tree, n, m)
    case OfSequence(z) => z in l.instances
  }

  lemma {:induction false} OutsidePart(tree: Tree, l: Life, n: NodeId, k: nat, h: Holder)
    requires WellFormed(tree) && n < |tree| && k < |Parts(tree[n])| && Outside(tree, l, n, h)
    ensures WellFormedNode(tree, n) && Outside(tree, l, Parts(tree[n])[k], h) && h != OfNode(Parts(tree[n])[k]) && h != OfNode(n)
  {
    assert WellFormedNode(tree, n);
  }

  /** From `f` to `g` the map of `h` and the descriptors it owns are the same. */
  predicate Intact(f: Fds, g: Fds, h: Holder) {
    MapOf(g, h) == MapOf(f, h) && forall k | k in MapOf(f, h) :: k in f.open && k in g.open && g.open[k] == f.open[k]
  }

  /** Then a program that is started with the map of `h` is given the same descriptors. */
  lemma {:induction false} IntactProgram(f: Fds, g: Fds, base: Table, h: Holder)
    requires Conserved(f, base) && Conserved(g, base) && Intact(f, g, h)
    ensures ProgramTable(g, h) == ProgramTable(f, h)
  {
    forall fd, file ensures Sees(g, h, fd, file) <==> Sees(f, h, fd, file) {
      IntactSees(f, g, h, fd, file);
    }
    SameProgram(f, g, base, h, h);
  }

  lemma {:induction false} IntactSees(f: Fds, g: Fds, h: Holder, fd: nat, file: File)
    requires Intact(f, g, h)
    ensures Sees(g, h, fd, file) <==> Sees(f, h, fd, file)
  {
    var m := MapOf(f, h);
    assert forall k | Greatest(m, m.Keys, fd, k) :: k in f.open && k in g.open && g.open[k] == f.open[k];
  }

  lemma {:induction false} LinkIntact(f: Fds, base: Table, child: Holder, fd: nat, extFd: nat, h: Holder)
    requires Conserved(f, base) && child != h
    ensures Intact(f, LinkFd(f, child, fd, extFd), h)
  {
    assert Owns(f, base, h);
  }

  lemma {:induction false} PassFromIntact(f: Fds, base: Table, source: map<nat, nat>, child: Holder, todo: set<nat>, h: Holder)
    requires Conserved(f, base) && child != h && todo <= source.Keys
    ensures Intact(f, PassFrom(f, source, child, todo), h)
    decreases |todo|
  {
    if todo == {} {
      assert Owns(f, base, h);
    } else {
      var k := Min(todo);
      LinkIntact(f, base, child, source[k], k, h);
      LinkConserves(f, base, child, source[k], k);
      PassFromIntact(LinkFd(f, child, source[k], k), base, source, child, todo - {k}, h);
    }
  }

  lemma {:induction false} WireLinkIntact(f: Fds, base: Table, link: Link, h: Holder)
    requires Conserved(f, base) && OfNode(link.to) != h && OfNode(link.from) != h
    ensures Intact(f, WireLink(f, link), h)
  {
    assert Owns(f, base, h);
  }

  lemma {:induction false} WireLinksIntact(f: Fds, base: Table, links: seq<Link>, h: Holder)
    requires Conserved(f, base) && forall i | 0 <= i < |links| :: OfNode(links[i].to) != h && OfNode(links[i].from) != h
    ensures Intact(f, WireLinks(f, links), h)
    decreases |links|
  {
    if links == [] {
      assert Owns(f, base, h);
    } else {
      WireLinkConserves(f, base, links[0]);
      WireLinkIntact(f, base, links[0], h);
      WireLinksIntact(WireLink(f, links[0]), base, links[1..], h);
    }
  }

  lemma {:induction false} PassExternalsIntact(f: Fds, base: Table, from: Holder, externals: seq<Externalize>, h: Holder)
    requires Conserved(f, base) && forall i | 0 <= i < |externals| :: OfNode(externals[i].member) != h
    ensures Intact(f, PassExternals(f, from, externals), h)
    decreases |externals|
  {
    assert Owns(f, base, h);
    if externals != [] {
      var e := externals[0];
      PassFdConserves(f, base, from, OfNode(e.member), e.outer, e.inner);
      PassExternalsIntact(PassFd(f, from, OfNode(e.member), e.outer, e.inner), base, from, externals[1..], h);
    }
  }

  lemma {:induction false} CloseIntact(f: Fds, base: Table, closed: Holder, h: Holder)
    requires Conserved(f, base) && closed != h
    ensures Intact(f, CloseFds(f, closed), h)
  {
    assert Owns(f, base, h) && Apart(f, h, closed);
  }

  // ---- Starting a node does not disturb what is outside ----

  /** All instances still run, and what `h` owns and where its sequence is are as before. */
  ghost predicate Spared(s: State, t: State, h: Holder) {
    && Intact(s.fds, t.fds, h) && s.life.instances.Keys <= t.life.instances.Keys
    && (h.OfSequence? ==> SequenceOf(t.life, h.x) == SequenceOf(s.life, h.x))
  }

  lemma {:induction false} SparedTwice(s: State, t: State, u: State, h: Holder)
    requires Spared(s, t, h) && Spared(t, u, h)
    ensures Spared(s, u, h)
  {
  }

  lemma {:induction false} StartupSpares(tree: Tree, s: State, n: NodeId, fork: Fork, base: Table, h: Holder)
    requires WellFormed(tree) && n < |tree| && Kept(s, base) && Outside(tree, s.life, n, h)
    ensures Spared(s, Startup(tree, s, n, fork).0, h)
    decreases |tree| - n, 2, 0
  {
    FreshNumber(s.life, n);
    var x := Inst(n, FirstFree(Numbers(s.life, n), 0));
    var s1 := s.(life := Appear(s.life, x, Pending(s, n)), pending := s.pending[n := []]);
    StartInstanceSpares(tree, s1, x, fork, base, h);
    StartInstanceConserves(tree, s1, x, fork, base);
    CloseIntact(StartInstance(tree, s1, x, fork).fds, base, OfNode(n), h);
  }

  lemma {:induction false} StartInstanceSpares(tree: Tree, s: State, x: Inst, fork: Fork, base: Table, h: Holder)
    requires WellFormed(tree) && x.node < |tree| && Kept(s, base)
    requires Outside(tree, s.life, x.node, h) && h != OfSequence(x)
    ensures Spared(s, StartInstance(tree, s, x, fork), h)
    decreases |tree| - x.node, 1, 1
  {
    match tree[x.node]
    case Executable => assert Owns(s.fds, base, h);
    case Launch(_, _, _) => StartLaunchSpares(tree, s, x, fork, base, h);
    case Sequence(_) => StartSequenceSpares(tree, s, x, fork, base, h);
  }

  lemma {:induction false} StartLaunchSpares(tree: Tree, s: State, x: Inst, fork: Fork, base: Table, h: Holder)
    requires WellFormed(tree) && x.node < |tree| && tree[x.node].Launch? && Kept(s, base) && Outside(tree, s.life, x.node, h)
    ensures Spared(s, StartInstance(tree, s, x, fork), h)
    decreases |tree| - x.node, 1, 0
  {
    NotAMember(tree, s.life, x.node, h);
    var links, externals := tree[x.node].links, tree[x.node].externals;
    WireLinksIntact(s.fds, base, links, h);
    var f := WireLinks(s.fds, links);
    WireLinksConserve(s.fds, base, links);
    WireLinksSequenceMaps(s.fds, links);
    PassExternalsIntact(f, base, OfNode(x.node), externals, h);
    PassExternalsConserve(f, base, OfNode(x.node), externals);
    PassExternalsSequenceMaps(f, OfNode(x.node), externals);
    var s1 := s.(fds := PassExternals(f, OfNode(x.node), externals), life := SetAwaited(s.life, x, map[]));
    MorePipes(s.programs, s.fds.pipes, s.fds.pipes + |links|);
    StartMembersSpares(tree, s1, x, 0, fork, base, h);
  }

  lemma {:induction false} NotAMember(tree: Tree, l: Life, n: NodeId, h: Holder)
    requires WellFormed(tree) && n < |tree| && tree[n].Launch? && Outside(tree, l, n, h)
    ensures forall i | 0 <= i < |tree[n].links| :: OfNode(tree[n].links[i].to) != h && OfNode(tree[n].links[i].from) != h
    ensures forall i | 0 <= i < |tree[n].externals| :: OfNode(tree[n].externals[i].member) != h
  {
    assert WellFormedNode(tree, n);
    forall k | 0 <= k < |tree[n].members| ensures OfNode(tree[n].members[k]) != h {
      assert Parts(tree[n])[k] == tree[n].members[k];
      OutsidePart(tree, l, n, k, h);
    }
  }

  lemma {:induction false} StartMembersSpares(tree: Tree, s: State, x: Inst, k: nat, fork: Fork, base: Table, h: Holder)
    requires WellFormed(tree) && x.node < |tree| && tree[x.node].Launch? && k <= |tree[x.node].members|
    requires Kept(s, base) && Outside(tree, s.life, x.node, h)
    ensures Spared(s, StartMembers(tree, s, x, k, fork), h)
    decreases |tree| - x.node, 0, |tree[x.node].members| - k
  {
    assert Owns(s.fds, base, h);
    if k < |tree[x.node].members| {
      OutsidePart(tree, s.life, x.node, k, h);
      var c := Parts(tree[x.node])[k];
      var s1 := StartMember(tree, s, x, k, fork);
      StartupSpares(tree, AddInstanceCompletionHandler(s, c, SubNodeDeath(x)), c, fork, base, h);
      StartMemberConserves(tree, s, x, k, fork, base);
      StartMembersSpares(tree, s1, x, k + 1, fork, base, h);
      SparedTwice(s, s1, StartMembers(tree, s, x, k, fork), h);
    }
  }

  lemma {:induction false} StartSequenceSpares(tree: Tree, s: State, x: Inst, fork: Fork, base: Table, h: Holder)
    requires WellFormed(tree) && x.node < |tree| && tree[x.node].Sequence? && Kept(s, base)
    requires Outside(tree, s.life, x.node, h) && h != OfSequence(x)
    ensures Spared(s, StartInstance(tree, s, x, fork), h)
    decreases |tree| - x.node, 1, 0
  {
    assert WellFormedNode(tree, x.node);
    OutsidePart(tree, s.life, x.node, 0, h);
    var s1 := s.(life := SetSequence(s.life, x, RunningSequence(-1, 0, 0)));
    var s2 := s1.(fds := PassFds(s1.fds, OfNode(x.node), OfSequence(x)));
    var source := MapOf(s.fds, OfNode(x.node));
    PassFromIntact(s.fds, base, source, OfSequence(x), source.Keys, h);
    HandedToSequence(s, s2, x, base);
    StartStageSpares(tree, s2, x, 0, fork, base, h);
    SparedTwice(s, s2, StartInstance(tree, s, x, fork), h);
  }

  /** Except for its own bookkeeping, a sequence that starts a stage is spared itself. */
  lemma {:induction false} StartStageSpares(tree: Tree, s: State, x: Inst, k: nat, fork: Fork, base: Table, h: Holder)
    requires WellFormed(tree) && x.node < |tree| && tree[x.node].Sequence? && k < |tree[x.node].order|
    requires Kept(s, base) && Outside(tree, s.life, x.node, h)
    ensures var t := StartStage(tree, s, x, k, fork);
      && Intact(s.fds, t.fds, h) && s.life.instances.Keys <= t.life.instances.Keys
      && (h != OfSequence(x) ==> Spared(s, t, h))
    decreases |tree| - x.node, 0, 1
  {
    OutsidePart(tree, s.life, x.node, k, h);
    var c := Parts(tree[x.node])[k];
    var s1 := PrepareStage(s, x, k, c);
    var source := MapOf(s.fds, OfSequence(x));
    PassFromIntact(s.fds, base, source, OfNode(c), source.Keys, h);
    PrepareStageConserves(s, x, k, c, base);
    StartupSpares(tree, s1, c, fork, base, h);
  }

  // ---- Programs of live processes ----

  /** Process `pid` of instance `y` is live, and `program` is what it was given. */
  predicate ProgramAt(s: State, pid: int, y: Inst, program: map<nat, File>) {
    Runs(s.life, pid, y) && pid in s.programs && s.programs[pid] == program
  }

  /** A live process of instance `y` was given the descriptors `program`. */
  ghost predicate RunsProgram(s: State, y: Inst, program: map<nat, File>) {
    exists pid :: ProgramAt(s, pid, y, program)
  }

  /** From `s` to `t` live processes keep their programs, instances go on, and those of nodes below number
      `n` keep their tables. */
  ghost predicate Undisturbed(s: State, t: State, n: NodeId) {
    && (forall pid, y, program {:trigger ProgramAt(t, pid, y, program)} | ProgramAt(s, pid, y, program) :: ProgramAt(t, pid, y, program))
    && (forall z: Inst {:trigger SameTables(s.life, t.life, z)} | z.node < n :: SameTables(s.life, t.life, z))
    && s.life.instances.Keys <= t.life.instances.Keys
  }

  /** From `s` to `t` only tables of instances of nodes from number `n` on were assigned. */
  ghost predicate Assigned(s: State, t: State, n: NodeId) {
    && t.programs == s.programs && SameProcesses(s.life, t.life) && s.life.instances.Keys <= t.life.instances.Keys
    && (forall z: Inst {:trigger SameTables(s.life, t.life, z)} | z.node < n :: SameTables(s.life, t.life, z))
  }

  lemma {:induction false} UndisturbedBetween(s: State, s1: State, s2: State, t: State, n: NodeId, m: NodeId)
    requires Assigned(s, s1, n) && Undisturbed(s1, s2, m) && Assigned(s2, t, n) && n <= m
    ensures Undisturbed(s, t, n)
  {
    forall pid, y, program | ProgramAt(s, pid, y, program) ensures ProgramAt(t, pid, y, program) {
      assert ProgramAt(s1, pid, y, program) && ProgramAt(s2, pid, y, program);
    }
    forall z: Inst | z.node < n ensures SameTables(s.life, t.life, z) {
      assert SameTables(s.life, s1.life, z) && SameTables(s1.life, s2.life, z) && SameTables(s2.life, t.life, z);
    }
  }

  lemma {:induction false} UndisturbedTwice(s: State, t: State, u: State, n: NodeId)
    requires Undisturbed(s, t, n) && Undisturbed(t, u, n)
    ensures Undisturbed(s, u, n)
  {
    forall pid, y, program | ProgramAt(s, pid, y, program) ensures ProgramAt(u, pid, y, program) {
      assert ProgramAt(t, pid, y, program);
    }
    forall z: Inst | z.node < n ensures SameTables(s.life, u.life, z) {
      assert SameTables(s.life, t.life, z) && SameTables(t.life, u.life, z);
    }
  }

  /** A start forks only fresh processes, and assigns only tables of what it starts. */
  lemma {:induction false} StartupUndisturbed(tree: Tree, s: State, n: NodeId, fork: Fork)
    requires WellFormed(tree) && n < |tree| && FreshPids(fork)
    ensures Undisturbed(s, Startup(tree, s, n, fork).0, n)
    decreases |tree| - n, 2, 0
  {
    var x := Inst(n, FirstFree(Numbers(s.life, n), 0));
    var s1 := s.(life := Appear(s.life, x, Pending(s, n)), pending := s.pending[n := []]);
    match tree[n] {
      case Executable => StartProcessUndisturbed(s1, x, fork);
      case Launch(_, _, _) => StartLaunchUndisturbed(tree, s1, x, fork);
      case Sequence(_) => StartSequenceUndisturbed(tree, s1, x, fork);
    }
    var s2 := StartInstance(tree, s1, x, fork);
    UndisturbedBetween(s, s1, s2, s2.(fds := CloseFds(s2.fds, OfNode(n))), n, n);
  }

  lemma {:induction false} StartProcessUndisturbed(s: State, x: Inst, fork: Fork)
    requires FreshPids(fork)
    ensures Undisturbed(s, StartProcess(s, x, fork), x.node)
  {
    assert fork(s.life.runningNodes.Keys) !in s.life.runningNodes;
  }

  lemma {:induction false} StartLaunchUndisturbed(tree: Tree, s: State, x: Inst, fork: Fork)
    requires WellFormed(tree) && x.node < |tree| && tree[x.node].Launch? && FreshPids(fork)
    ensures Undisturbed(s, StartInstance(tree, s, x, fork), x.node)
    decreases |tree| - x.node, 1, 0
  {
    var f := PassExternals(WireLinks(s.fds, tree[x.node].links), OfNode(x.node), tree[x.node].externals);
    var s1 := s.(fds := f, life := SetAwaited(s.life, x, map[]));
    StartMembersUndisturbed(tree, s1, x, 0, fork);
    var t := StartMembers(tree, s1, x, 0, fork);
    UndisturbedBetween(s, s1, t, t, x.node, x.node);
  }

  lemma {:induction false} StartSequenceUndisturbed(tree: Tree, s: State, x: Inst, fork: Fork)
    requires WellFormed(tree) && x.node < |tree| && tree[x.node].Sequence? && FreshPids(fork)
    ensures Undisturbed(s, StartInstance(tree, s, x, fork), x.node)
    decreases |tree| - x.node, 1, 0
  {
    assert WellFormedNode(tree, x.node);
    var s1 := s.(life := SetSequence(s.life, x, RunningSequence(-1, 0, 0)));
    var s2 := s1.(fds := PassFds(s1.fds, OfNode(x.node), OfSequence(x)));
    StartStageUndisturbed(tree, s2, x, 0, fork);
    var t := StartStage(tree, s2, x, 0, fork);
    UndisturbedBetween(s, s2, t, t, x.node, x.node);
  }

  lemma {:induction false} StartStageUndisturbed(tree: Tree, s: State, x: Inst, k: nat, fork: Fork)
    requires WellFormed(tree) && x.node < |tree| && tree[x.node].Sequence? && k < |tree[x.node].order| && FreshPids(fork)
    ensures Undisturbed(s, StartStage(tree, s, x, k, fork), x.node)
    ensures SequenceOf(StartStage(tree, s, x, k, fork).life, x).stage == k
    ensures Current(StartStage(tree, s, x, k, fork).life, x).node == tree[x.node].order[k]
    decreases |tree| - x.node, 0, 0
  {
    assert WellFormedNode(tree, x.node);
    var c := Parts(tree[x.node])[k];
    var s1 := PrepareStage(s, x, k, c);
    StagePrepared(s, x, k, c);
    StartupUndisturbed(tree, s1, c, fork);
    var (s2, i) := Startup(tree, s1, c, fork);
    assert SameTables(s1.life, s2.life, x);
    var t := s2.(life := SetSequence(s2.life, x, SequenceOf(s2.life, x).(currentInst := i)));
    UndisturbedBetween(s, s1, s2, t, x.node, c);
  }

  lemma {:induction false} StagePrepared(s: State, x: Inst, k: nat, c: NodeId)
    ensures Assigned(s, PrepareStage(s, x, k, c), x.node)
    ensures SequenceOf(PrepareStage(s, x, k, c).life, x) == SequenceOf(s.life, x).(stage := k, currentNode := c)
  {
  }

  /** Apart from the entries of `cs` the two tables of a launch are the same. */
  ghost predicate OtherEntries(a: map<NodeId, nat>, b: map<NodeId, nat>, cs: seq<NodeId>) {
    forall d | d !in cs :: (d in b <==> d in a) && (d in a ==> b[d] == a[d])
  }

  lemma {:induction false} StartMemberUndisturbed(tree: Tree, s: State, x: Inst, k: nat, fork: Fork)
    requires WellFormed(tree) && x.node < |tree| && tree[x.node].Launch? && k < |tree[x.node].members| && FreshPids(fork)
    ensures var t := StartMember(tree, s, x, k, fork);
      Undisturbed(s, t, x.node) && OtherEntries(Awaited(s.life, x), Awaited(t.life, x), [tree[x.node].members[k]])
    decreases |tree| - x.node, 0, |tree[x.node].members| - k, 0
  {
    assert WellFormedNode(tree, x.node);
    var c := Parts(tree[x.node])[k];
    var s1 := AddInstanceCompletionHandler(s, c, SubNodeDeath(x));
    StartupUndisturbed(tree, s1, c, fork);
    var (s2, i) := Startup(tree, s1, c, fork);
    assert SameTables(s1.life, s2.life, x);
    var t := s2.(life := SetAwaited(s2.life, x, Awaited(s2.life, x)[c := i]));
    UndisturbedBetween(s, s1, s2, t, x.node, c);
  }

  lemma {:induction false} StartMembersUndisturbed(tree: Tree, s: State, x: Inst, k: nat, fork: Fork)
    requires WellFormed(tree) && x.node < |tree| && tree[x.node].Launch? && k <= |tree[x.node].members| && FreshPids(fork)
    ensures var t := StartMembers(tree, s, x, k, fork);
      Undisturbed(s, t, x.node) && OtherEntries(Awaited(s.life, x), Awaited(t.life, x), tree[x.node].members[k..])
    decreases |tree| - x.node, 0, |tree[x.node].members| - k, 1
  {
    if k < |tree[x.node].members| {
      var s1 := StartMember(tree, s, x, k, fork);
      StartMemberUndisturbed(tree, s, x, k, fork);
      StartMembersUndisturbed(tree, s1, x, k + 1, fork);
      UndisturbedTwice(s, s1, StartMembers(tree, s, x, k, fork), x.node);
      assert tree[x.node].members[k..] == [tree[x.node].members[k]] + tree[x.node].members[k + 1..];
    }
  }

  // ---- The theorem ----

  /** The process that a started executable gets was given what the map of its node stands for. */
  lemma {:induction false} StartedRunsProgram(tree: Tree, s: State, n: NodeId, fork: Fork)
    requires WellFormed(tree) && n < |tree| && tree[n].Executable?
    ensures var (t, i) := Startup(tree, s, n, fork);
      Inst(n, i) !in s.life.instances && RunsProgram(t, Inst(n, i), ProgramTable(s.fds, OfNode(n)))
  {
    FreshNumber(s.life, n);
    var x := Inst(n, FirstFree(Numbers(s.life, n), 0));
    var s1 := s.(life := Appear(s.life, x, Pending(s, n)), pending := s.pending[n := []]);
    var s2 := StartInstance(tree, s1, x, fork);
    assert s2 == StartProcess(s1, x, fork);
    var (t, i) := Startup(tree, s, n, fork);
    assert t == s2.(fds := CloseFds(s2.fds, OfNode(n))) && i == x.num;
    assert ProgramAt(t, fork(s.life.runningNodes.Keys), Inst(n, i), ProgramTable(s.fds, OfNode(n)));
  }

  /** The instance of member `c` that launch instance `x` waits for in `t` is not one of `s`, and a live
      process of it was given exactly the descriptors `program`. */
  ghost predicate MemberRuns(s: State, t: State, x: Inst, c: NodeId, program: map<nat, File>) {
    && c in Awaited(t.life, x) && Inst(c, Awaited(t.life, x)[c]) !in s.life.instances
    && RunsProgram(t, Inst(c, Awaited(t.life, x)[c]), program)
  }

  /** This process was given `file` under number `fd`. */
  ghost predicate MemberHolds(s: State, t: State, x: Inst, c: NodeId, fd: nat, file: File) {
    exists program :: MemberRuns(s, t, x, c, program) && Has(program, fd, file)
  }

  /** The members of a launch do not contain each other. */
  ghost predicate Separate(tree: Tree, n: NodeId)
    requires WellFormed(tree) && n < |tree| && tree[n].Launch?
  {
    WellFormedNode(tree, n) && forall j, k {:trigger Parts(tree[n])[j], Parts(tree[n])[k]} |
      0 <= j < |Parts(tree[n])| && 0 <= k < |Parts(tree[n])| && j != k :: !Below(tree, Parts(tree[n])[j], Parts(tree[n])[k])
  }

  /** While the members before it are started, what is linked to a member stays as it is. */
  lemma {:induction false} MemberGets(tree: Tree, s: State, x: Inst, k: nat, j: nat, fork: Fork, base: Table)
    requires WellFormed(tree) && x.node < |tree| && tree[x.node].Launch? && FreshPids(fork)
    requires k <= j < |tree[x.node].members| && Separate(tree, x.node) && Kept(s, base)
    requires tree[x.node].members[j] < |tree| && tree[tree[x.node].members[j]].Executable?
    ensures var m := tree[x.node].members[j];
      MemberRuns(s, StartMembers(tree, s, x, k, fork), x, m, ProgramTable(s.fds, OfNode(m)))
    decreases j - k
  {
    var c, m := Parts(tree[x.node])[k], Parts(tree[x.node])[j];
    var s1 := StartMember(tree, s, x, k, fork);
    StartMemberConserves(tree, s, x, k, fork, base);
    if k < j {
      assert !Below(tree, c, m);
      StartupSpares(tree, AddInstanceCompletionHandler(s, c, SubNodeDeath(x)), c, fork, base, OfNode(m));
      IntactProgram(s.fds, s1.fds, base, OfNode(m));
      MemberGets(tree, s1, x, k + 1, j, fork, base);
      StartMemberUndisturbed(tree, s, x, k, fork);
    } else {
      StartedMemberGets(tree, s, x, k, fork);
      StartMembersUndisturbed(tree, s1, x, k + 1, fork);
      StillRuns(tree, s, s1, StartMembers(tree, s, x, k, fork), x, k, ProgramTable(s.fds, OfNode(m)));
    }
  }

  lemma {:induction false} StartedMemberGets(tree: Tree, s: State, x: Inst, k: nat, fork: Fork)
    requires WellFormed(tree) && x.node < |tree| && tree[x.node].Launch? && k < |tree[x.node].members|
    requires tree[x.node].members[k] < |tree| && tree[tree[x.node].members[k]].Executable?
    ensures var m := tree[x.node].members[k];
      MemberRuns(s, StartMember(tree, s, x, k, fork), x, m, ProgramTable(s.fds, OfNode(m)))
  {
    assert WellFormedNode(tree, x.node);
    var c := Parts(tree[x.node])[k];
    var s0 := AddInstanceCompletionHandler(s, c, SubNodeDeath(x));
    var (s1, i) := Startup(tree, s0, c, fork);
    StartedRunsProgram(tree, s0, c, fork);
    var program := ProgramTable(s.fds, OfNode(c));
    var pid :| ProgramAt(s1, pid, Inst(c, i), program);
    assert ProgramAt(StartMember(tree, s, x, k, fork), pid, Inst(c, i), program);
  }

  lemma {:induction false} StillRuns(tree: Tree, s: State, t: State, u: State, x: Inst, k: nat, program: map<nat, File>)
    requires WellFormed(tree) && x.node < |tree| && tree[x.node].Launch? && k < |tree[x.node].members|
    requires MemberRuns(s, t, x, tree[x.node].members[k], program) && Undisturbed(t, u, x.node)
    requires OtherEntries(Awaited(t.life, x), Awaited(u.life, x), tree[x.node].members[k + 1..])
    ensures MemberRuns(s, u, x, tree[x.node].members[k], program)
  {
    assert WellFormedNode(tree, x.node);
    var c := tree[x.node].members[k];
    assert c !in tree[x.node].members[k + 1..];
    var pid :| ProgramAt(t, pid, Inst(c, Awaited(t.life, x)[c]), program);
    assert ProgramAt(u, pid, Inst(c, Awaited(t.life, x)[c]), program);
  }

  /** No externalization leads to an end of a link. */
  predicate ExternalsElsewhere(kind: Kind)
    requires kind.Launch?
  {
    forall i, j {:trigger Elsewhere(kind.links[i], OfNode(kind.externals[j].member), kind.externals[j].inner)} |
      0 <= i < |kind.links| && 0 <= j < |kind.externals| ::
      Elsewhere(kind.links[i], OfNode(kind.externals[j].member), kind.externals[j].inner)
  }

  /** Externalizations that lead to another descriptor, or for which the launch has no source, change nothing
      about number `fd` of node `m`. */
  lemma {:induction false} ExternalsKeepSight(f: Fds, base: Table, h: Holder, externals: seq<Externalize>, m: NodeId, fd: nat)
    requires Conserved(f, base) && forall j | 0 <= j < |externals| :: OfNode(externals[j].member) != h
    requires forall j | 0 <= j < |externals| ::
      (externals[j].member, externals[j].inner) == (m, fd) ==> Sources(MapOf(f, h), externals[j].outer) == {}
    ensures SameSight(f, PassExternals(f, h, externals), OfNode(m), fd)
    decreases |externals|
  {
    if externals != [] {
      var e := externals[0];
      var ks := Sources(MapOf(f, h), e.outer);
      if ks != {} {
        LinkElsewhere(f, base, OfNode(e.member), e.inner, Min(ks), OfNode(m), fd);
      }
      PassFdConserves(f, base, h, OfNode(e.member), e.outer, e.inner);
      ExternalsKeepSight(PassFd(f, h, OfNode(e.member), e.outer, e.inner), base, h, externals[1..], m, fd);
    }
  }

  /** Nobody has an end of pipe `pipe`: arclaunch does not hold one, and no program was given one. */
  ghost predicate NewPipe(s: State, pipe: nat) {
    && (forall k | k in s.fds.open :: s.fds.open[k].file != ReadEnd(pipe) && s.fds.open[k].file != WriteEnd(pipe))
    && (forall pid {:trigger s.programs[pid]} | pid in s.programs :: forall fd | fd in s.programs[pid] ::
          s.programs[pid][fd] != ReadEnd(pipe) && s.programs[pid][fd] != WriteEnd(pipe))
  }

  lemma {:induction false} UnmadePipe(s: State, base: Table, pipe: nat)
    requires Kept(s, base) && pipe >= s.fds.pipes
    ensures NewPipe(s, pipe)
  {
    forall pid | pid in s.programs
      ensures forall fd | fd in s.programs[pid] :: s.programs[pid][fd] != ReadEnd(pipe) && s.programs[pid][fd] != WriteEnd(pipe)
    {
      assert NumberedProgram(s.programs[pid], s.fds.pipes);
    }
  }

  /** The instance under which node `n` is started next, and the state in which it is set up. */
  function NewInst(s: State, n: NodeId): Inst {
    Inst(n, FirstFree(Numbers(s.life, n), 0))
  }

  function Entered(s: State, n: NodeId): State {
    s.(life := Appear(s.life, NewInst(s, n), Pending(s, n)), pending := s.pending[n := []])
  }

  /** Start a launch.  The new process of each of its members that is an executable is given exactly what the
      map of the member stands for after the linkage loop and the externalizations. */
  lemma {:induction false} LaunchGives(tree: Tree, s: State, n: NodeId, fork: Fork, base: Table, m: NodeId)
    requires WellFormed(tree) && n < |tree| && tree[n].Launch? && FreshPids(fork)
    requires Separate(tree, n) && Kept(s, base) && m in tree[n].members && m < |tree| && tree[m].Executable?
    ensures var (t, num) := Startup(tree, s, n, fork);
      MemberRuns(s, t, Inst(n, num), m, ProgramTable(WiredFds(tree, s, n), OfNode(m)))
  {
    var s1, x := Entered(s, n), NewInst(s, n);
    WiringKept(tree, s1, x, base);
    var j :| 0 <= j < |tree[n].members| && tree[n].members[j] == m;
    MemberGets(tree, Wired(tree, s1, x), x, 0, j, fork, base);
    StartedRuns(tree, s, n, fork, m, ProgramTable(WiredFds(tree, s, n), OfNode(m)));
  }

  /** What the members were given when the launch is set up they have when it is started. */
  lemma {:induction false} StartedRuns(tree: Tree, s: State, n: NodeId, fork: Fork, c: NodeId, program: map<nat, File>)
    requires WellFormed(tree) && n < |tree| && tree[n].Launch?
    requires var x := NewInst(s, n); MemberRuns(Entered(s, n), StartInstance(tree, Entered(s, n), x, fork), x, c, program)
    ensures var (t, i) := Startup(tree, s, n, fork); MemberRuns(s, t, Inst(n, i), c, program)
  {
    var x := NewInst(s, n);
    var s2 := StartInstance(tree, Entered(s, n), x, fork);
    var (t, i) := Startup(tree, s, n, fork);
    assert t == s2.(fds := CloseFds(s2.fds, OfNode(n))) && Inst(n, i) == x;
    var y := Inst(c, Awaited(s2.life, x)[c]);
    var pid :| ProgramAt(s2, pid, y, program);
    assert ProgramAt(t, pid, y, program);
  }

  /** What a member sees when everything is wired it holds. */
  lemma {:induction false} LaunchShows(tree: Tree, s: State, n: NodeId, fork: Fork, base: Table, m: NodeId, fd: nat, file: File)
    requires WellFormed(tree) && n < |tree| && tree[n].Launch? && FreshPids(fork)
    requires Separate(tree, n) && Kept(s, base) && m in tree[n].members && m < |tree| && tree[m].Executable?
    requires Sees(WiredFds(tree, s, n), OfNode(m), fd, file)
    ensures var (t, num) := Startup(tree, s, n, fork); MemberHolds(s, t, Inst(n, num), m, fd, file)
  {
    LaunchGives(tree, s, n, fork, base, m);
    WiringKept(tree, Entered(s, n), NewInst(s, n), base);
    ProgramGetsAssignment(WiredFds(tree, s, n), base, OfNode(m), fd, file);
  }

  /** From `s` to `t` launch instance `x` has joined two new processes by a pipe that nobody had. */
  ghost predicate JoinedByNew(s: State, t: State, x: Inst, link: Link, pipe: nat) {
    && MemberHolds(s, t, x, link.to, link.toFd, ReadEnd(pipe))
    && MemberHolds(s, t, x, link.from, link.fromFd, WriteEnd(pipe))
    && NewPipe(s, pipe)
  }

  /** Start a launch, from outside or as a part of something else, whose link ends are all different and not
      otherwise linked.  For every link between two executables the program of one reads what the program
      of the other writes: the processes of the two members that were just started hold the two ends of one
      pipe.  Nobody had an end of this pipe before, and it is used for no other link. */
  lemma {:induction false} LaunchJoinsPrograms(tree: Tree, s: State, n: NodeId, fork: Fork, base: Table, i: nat, link: Link, pipe: nat)
    requires WellFormed(tree) && n < |tree| && tree[n].Launch? && FreshPids(fork)
    requires Separate(tree, n) && Kept(s, base)
    requires i < |tree[n].links| && link == tree[n].links[i] && pipe == s.fds.pipes + i
    requires DistinctEnds(tree[n].links) && AllEndsFree(s.fds, tree[n].links) && ExternalsElsewhere(tree[n])
    requires link.to < |tree| && tree[link.to].Executable? && link.from < |tree| && tree[link.from].Executable?
    ensures var (t, num) := Startup(tree, s, n, fork); JoinedByNew(s, t, Inst(n, num), link, pipe)
  {
    WiringJoins(tree, Entered(s, n), NewInst(s, n), base, i, link, pipe);
    LaunchShows(tree, s, n, fork, base, link.to, link.toFd, ReadEnd(pipe));
    LaunchShows(tree, s, n, fork, base, link.from, link.fromFd, WriteEnd(pipe));
  }

  /** What the linkage loop and the externalizations give. */
  ghost predicate WiredUp(tree: Tree, s: State, x: Inst, base: Table, link: Link, pipe: nat)
    requires x.node < |tree| && tree[x.node].Launch?
  {
    && link.to in tree[x.node].members && link.from in tree[x.node].members && NewPipe(s, pipe)
    && Kept(Wired(tree, s, x), base) && Joined(Wired(tree, s, x).fds, link, pipe)
  }

  lemma {:induction false} WiringJoins(tree: Tree, s: State, x: Inst, base: Table, i: nat, link: Link, pipe: nat)
    requires WellFormed(tree) && x.node < |tree| && tree[x.node].Launch? && Kept(s, base)
    requires i < |tree[x.node].links| && link == tree[x.node].links[i] && pipe == s.fds.pipes + i
    requires DistinctEnds(tree[x.node].links) && AllEndsFree(s.fds, tree[x.node].links) && ExternalsElsewhere(tree[x.node])
    ensures WiredUp(tree, s, x, base, link, pipe)
  {
    assert link.to in tree[x.node].members && link.from in tree[x.node].members by {
      assert WellFormedNode(tree, x.node);
    }
    WiringSees(tree, s, x, base, i, link, pipe);
    WiringKept(tree, s, x, base);
    UnmadePipe(s, base, pipe);
  }

  /** What the launch holds before its members are started. */
  function Wired(tree: Tree, s: State, x: Inst): State
    requires x.node < |tree| && tree[x.node].Launch?
  {
    s.(fds := PassExternals(WireLinks(s.fds, tree[x.node].links), OfNode(x.node), tree[x.node].externals),
       life := SetAwaited(s.life, x, map[]))
  }

  /** The descriptors at this point of the start of launch `n`. */
  function WiredFds(tree: Tree, s: State, n: NodeId): Fds
    requires n < |tree| && tree[n].Launch?
  {
    Wired(tree, Entered(s, n), NewInst(s, n)).fds
  }

  lemma {:induction false} WiringKept(tree: Tree, s: State, x: Inst, base: Table)
    requires WellFormed(tree) && x.node < |tree| && tree[x.node].Launch? && Kept(s, base)
    ensures Kept(Wired(tree, s, x), base)
  {
    var links, externals := tree[x.node].links, tree[x.node].externals;
    WireLinksConserve(s.fds, base, links);
    MorePipes(s.programs, s.fds.pipes, s.fds.pipes + |links|);
    WireLinksSequenceMaps(s.fds, links);
    PassExternalsConserve(WireLinks(s.fds, links), base, OfNode(x.node), externals);
    PassExternalsSequenceMaps(WireLinks(s.fds, links), OfNode(x.node), externals);
  }

  lemma {:induction false} WiringSees(tree: Tree, s: State, x: Inst, base: Table, i: nat, link: Link, pipe: nat)
    requires WellFormed(tree) && x.node < |tree| && tree[x.node].Launch? && Conserved(s.fds, base)
    requires i < |tree[x.node].links| && link == tree[x.node].links[i] && pipe == s.fds.pipes + i
    requires DistinctEnds(tree[x.node].links) && AllEndsFree(s.fds, tree[x.node].links) && ExternalsElsewhere(tree[x.node])
    ensures Joined(Wired(tree, s, x).fds, link, pipe)
  {
    var links, externals := tree[x.node].links, tree[x.node].externals;
    LinkageJoins(s.fds, base, links, i, pipe);
    WireLinksConserve(s.fds, base, links);
    assert forall j | 0 <= j < |externals| :: OfNode(externals[j].member) != OfNode(x.node) by {
      assert WellFormedNode(tree, x.node);
    }
    assert forall j | 0 <= j < |externals| :: Elsewhere(links[i], OfNode(externals[j].member), externals[j].inner);
    ExternalsKeepSight(WireLinks(s.fds, links), base, OfNode(x.node), externals, link.to, link.toFd);
    ExternalsKeepSight(WireLinks(s.fds, links), base, OfNode(x.node), externals, link.from, link.fromFd);
  }

  // ---- Everything else is as it was ----

  lemma {:induction false} SameSightTwice(f: Fds, g: Fds, t: Fds, h: Holder, fd: nat)
    requires SameSight(f, g, h, fd) && SameSight(g, t, h, fd)
    ensures SameSight(f, t, h, fd)
  {
  }

  lemma {:induction false} LinksKeepSight(f: Fds, base: Table, links: seq<Link>, h: Holder, fd: nat)
    requires Conserved(f, base) && forall i | 0 <= i < |links| :: Elsewhere(links[i], h, fd)
    ensures SameSight(f, WireLinks(f, links), h, fd)
    decreases |links|
  {
    if links != [] {
      var g := WireLink(f, links[0]);
      WireLinkConserves(f, base, links[0]);
      WireLinkElsewhere(f, base, links[0], h, fd);
      LinksKeepSight(g, base, links[1..], h, fd);
      SameSightTwice(f, g, WireLinks(f, links), h, fd);
    }
  }

  /** Launch `n` hands nothing to number `fd` of its member `m`: no link ends there, and an externalization
      leads there only from a descriptor for which the launch has no source. */
  predicate HandsNothing(kind: Kind, f: Fds, n: NodeId, m: NodeId, fd: nat)
    requires kind.Launch?
  {
    && (forall i | 0 <= i < |kind.links| :: Elsewhere(kind.links[i], OfNode(m), fd))
    && (forall j | 0 <= j < |kind.externals| ::
          (kind.externals[j].member, kind.externals[j].inner) == (m, fd) ==>
            Sources(MapOf(f, OfNode(n)), kind.externals[j].outer) == {})
  }

  /** Two programs were given the same under number `fd`. */
  predicate SameAt(p: map<nat, File>, q: map<nat, File>, fd: nat) {
    (fd in p <==> fd in q) && (fd in p ==> p[fd] == q[fd])
  }

  /** A process as in `MemberRuns` was given under number `fd` what `program` has there. */
  ghost predicate MemberGiven(s: State, t: State, x: Inst, c: NodeId, fd: nat, program: map<nat, File>) {
    exists given :: MemberRuns(s, t, x, c, given) && SameAt(given, program, fd)
  }

  lemma {:induction false} WiringKeepsSight(tree: Tree, s: State, x: Inst, base: Table, m: NodeId, fd: nat)
    requires WellFormed(tree) && x.node < |tree| && tree[x.node].Launch? && Conserved(s.fds, base)
    requires HandsNothing(tree[x.node], s.fds, x.node, m, fd)
    ensures SameSight(s.fds, Wired(tree, s, x).fds, OfNode(m), fd)
  {
    assert WellFormedNode(tree, x.node);
    var links, externals, h := tree[x.node].links, tree[x.node].externals, OfNode(x.node);
    var f := WireLinks(s.fds, links);
    WireLinksIntact(s.fds, base, links, h);
    WireLinksConserve(s.fds, base, links);
    LinksKeepSight(s.fds, base, links, OfNode(m), fd);
    ExternalsKeepSight(f, base, h, externals, m, fd);
    SameSightTwice(s.fds, f, Wired(tree, s, x).fds, OfNode(m), fd);
  }

  /** Start a launch.  Under a number to which it hands nothing, the new process of a member finds what was
      linked to the member before, and if that is nothing, what arclaunch passes on to everyone. */
  lemma {:induction false} LaunchHandsNothingElse(tree: Tree, s: State, n: NodeId, fork: Fork, base: Table, m: NodeId, fd: nat)
    requires WellFormed(tree) && n < |tree| && tree[n].Launch? && FreshPids(fork)
    requires Separate(tree, n) && Kept(s, base) && m in tree[n].members && m < |tree| && tree[m].Executable?
    requires HandsNothing(tree[n], s.fds, n, m, fd)
    ensures var (t, num) := Startup(tree, s, n, fork);
      && MemberGiven(s, t, Inst(n, num), m, fd, ProgramTable(s.fds, OfNode(m)))
      && (Free(s.fds, OfNode(m), fd) ==> MemberGiven(s, t, Inst(n, num), m, fd, Exec(base)))
  {
    LaunchGives(tree, s, n, fork, base, m);
    WiringKept(tree, Entered(s, n), NewInst(s, n), base);
    WiringKeepsSight(tree, Entered(s, n), NewInst(s, n), base, m, fd);
    var given, before := ProgramTable(WiredFds(tree, s, n), OfNode(m)), ProgramTable(s.fds, OfNode(m));
    SameFiles(s.fds, WiredFds(tree, s, n), base, OfNode(m), fd);
    if Free(s.fds, OfNode(m), fd) {
      FreeInherits(s.fds, base, OfNode(m), fd);
    }
  }

  lemma {:induction false} SameFiles(f: Fds, g: Fds, base: Table, h: Holder, fd: nat)
    requires Conserved(f, base) && Conserved(g, base) && SameSight(f, g, h, fd)
    ensures SameAt(ProgramTable(g, h), ProgramTable(f, h), fd)
  {
    var p, q := ProgramTable(f, h), ProgramTable(g, h);
    forall file ensures Has(q, fd, file) <==> Has(p, fd, file) {
      SameSightSameFile(f, g, base, h, fd, file);
    }
    assert fd in p ==> Has(p, fd, p[fd]);
    assert fd in q ==> Has(q, fd, q[fd]);
  }

  /** Where nothing is linked, a program has what arclaunch was given without close-on-exec. */
  lemma {:induction false} FreeInherits(f: Fds, base: Table, h: Holder, fd: nat)
    requires Conserved(f, base) && Free(f, h, fd)
    ensures SameAt(ProgramTable(f, h), Exec(base), fd)
  {
    var p := ProgramTable(f, h);
    forall file ensures Has(p, fd, file) <==> Has(Exec(base), fd, file) {
      ProgramGetsAssignment(f, base, h, fd, file);
    }
    assert fd in p ==> Has(p, fd, p[fd]);
    assert fd in Exec(base) ==> Has(Exec(base), fd, Exec(base)[fd]);
  }
}
