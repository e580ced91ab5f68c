/** Descriptors that travel down the tree: every stage of a sequence is given exactly what the sequence was
    linked, and an externalized member what its launch was linked. */
module HandDown {
  import opened NodeTree
  import opened Descriptors
  import opened DescriptorLaws
  import opened DescriptorRuns
  import opened LaunchWiring
  import opened Lifecycle
  import opened LifecycleInvariant
  import opened LifecycleStarting
  import opened LifecycleFinishing
  import opened LifecycleCascade
  import opened LifecycleRuns
  import opened LifecycleSequences

  // ---- Sequences ----

  /** The process of the current stage of `z`, if that is an executable to which nothing was linked in `s`,
      was given the descriptors `program`, and its instance is not one of `s`. */
  ghost predicate StageGiven(tree: Tree, s: State, t: State, z: Inst, program: map<nat, File>) {
    var y := Current(t.life, z);
    y.node < |tree| && tree[y.node].Executable? && MapOf(s.fds, OfNode(y.node)) == map[] ==>
      y !in s.life.instances && RunsProgram(t, y, program)
  }

  /** The stage that sequence `x` starts is given exactly what the map of the sequence stands for. */
  lemma {:induction false} StageGets(tree: Tree, s: State, x: Inst, k: nat, fork: Fork, base: Table)
    requires WellFormed(tree) && x.node < |tree| && tree[x.node].Sequence? && k < |tree[x.node].order|
    requires FreshPids(fork) && Kept(s, base)
    ensures var t := StartStage(tree, s, x, k, fork);
      && SequenceOf(t.life, x).stage == k && Current(t.life, x).node == tree[x.node].order[k]
      && StageGiven(tree, s, t, x, ProgramTable(s.fds, OfSequence(x)))
  {
    assert WellFormedNode(tree, x.node);
    var c := Parts(tree[x.node])[k];
    StartStageUndisturbed(tree, s, x, k, fork);
    if tree[c].Executable? && MapOf(s.fds, OfNode(c)) == map[] {
      StageProgram(tree, s, x, k, c, fork, base);
    }
  }

  lemma {:induction false} StageProgram(tree: Tree, s: State, x: Inst, k: nat, c: NodeId, fork: Fork, base: Table)
    requires WellFormed(tree) && x.node < |tree| && tree[x.node].Sequence? && k < |tree[x.node].order|
    requires c == tree[x.node].order[k] && x.node < c < |tree| && tree[c].Executable?
    requires FreshPids(fork) && Kept(s, base) && MapOf(s.fds, OfNode(c)) == map[]
    ensures var t := StartStage(tree, s, x, k, fork);
      Current(t.life, x) !in s.life.instances && RunsProgram(t, Current(t.life, x), ProgramTable(s.fds, OfSequence(x)))
  {
    assert Parts(tree[x.node])[k] == c;
    var s1 := PrepareStage(s, x, k, c);
    PassingKeepsProgram(s.fds, base, OfSequence(x), OfNode(c));
    StartedRunsProgram(tree, s1, c, fork);
    StartupUndisturbed(tree, s1, c, fork);
    var (s2, i) := Startup(tree, s1, c, fork);
    assert SameTables(s1.life, s2.life, x);
    var program := ProgramTable(s.fds, OfSequence(x));
    var pid :| ProgramAt(s2, pid, Inst(c, i), program);
    assert ProgramAt(StartStage(tree, s, x, k, fork), pid, Inst(c, i), program);
  }

  /** A sequence that is set up takes over what was linked to its node, and its first stage is given that. */
  lemma {:induction false} SequenceTakesOver(tree: Tree, s: State, x: Inst, fork: Fork, base: Table)
    requires WellFormed(tree) && x.node < |tree| && tree[x.node].Sequence? && FreshPids(fork)
    requires Kept(s, base) && x !in s.life.sequences && x in s.life.instances
    ensures var t := StartInstance(tree, s, x, fork); var program := ProgramTable(s.fds, OfNode(x.node));
      ProgramTable(t.fds, OfSequence(x)) == program && StageGiven(tree, s, t, x, program)
  {
    assert WellFormedNode(tree, x.node);
    var s1 := s.(life := SetSequence(s.life, x, RunningSequence(-1, 0, 0)));
    var s2 := s1.(fds := PassFds(s1.fds, OfNode(x.node), OfSequence(x)));
    assert MapOf(s.fds, OfSequence(x)) == map[];
    PassingKeepsProgram(s.fds, base, OfNode(x.node), OfSequence(x));
    HandedToSequence(s, s2, x, base);
    StageGets(tree, s2, x, 0, fork, base);
    StartStageSpares(tree, s2, x, 0, fork, base, OfSequence(x));
    StartStageConserves(tree, s2, x, 0, fork, base);
    var t := StartStage(tree, s2, x, 0, fork);
    IntactProgram(s2.fds, t.fds, base, OfSequence(x));
    var source := MapOf(s.fds, OfNode(x.node));
    PassFromOthers(s.fds, source, OfSequence(x), source.Keys, OfNode(Current(t.life, x).node));
  }

  /** If sequence `z` survives it owns what it owned, and if it moved on its new stage was given that. */
  ghost predicate HandsOn(tree: Tree, s: State, t: State, z: Inst) {
    z in t.life.instances ==>
      && Intact(s.fds, t.fds, OfSequence(z))
      && (SequenceOf(t.life, z) == SequenceOf(s.life, z) || StageGiven(tree, s, t, z, ProgramTable(s.fds, OfSequence(z))))
  }

  lemma {:induction false} NothingHandsOn(tree: Tree, s: State, t: State, base: Table, z: Inst)
    requires Kept(s, base) && t.fds == s.fds && SequenceOf(t.life, z) == SequenceOf(s.life, z)
    ensures HandsOn(tree, s, t, z)
  {
    assert Owns(s.fds, base, OfSequence(z));
  }

  lemma {:induction false} FinishHandsOn(tree: Tree, s: State, x: Inst, code: int, fork: Fork, base: Table, z: Inst)
    requires WellFormed(tree) && TablesOk(tree, s.life) && Kept(s, base) && FreshPids(fork)
    requires z in s.life.instances && z.node < |tree| && tree[z.node].Sequence?
    ensures HandsOn(tree, s, FinishInstance(tree, s, x, code, fork), z)
    decreases x.node, 2, 0
  {
    if x in s.life.instances {
      assert TableOk(tree, s.life, x);
      var s1 := s.(log := s.log + [Completed(x, code)]);
      CallHandlersHandOn(tree, s1, x, code, s.life.instances[x], fork, base, z);
      var t1 := CallHandlers(tree, s1, x, code, s.life.instances[x], fork);
      AroundHandsOn(tree, s, s1, t1, t1.(life := Vanish(t1.life, x)), z);
    } else {
      NothingHandsOn(tree, s, s, base, z);
    }
  }

  /** What happens around the callbacks does not matter to the sequence. */
  lemma {:induction false} AroundHandsOn(tree: Tree, s: State, s1: State, t1: State, t: State, z: Inst)
    requires HandsOn(tree, s1, t1, z) && s1.fds == s.fds && t1.fds == t.fds
    requires s1.life.instances == s.life.instances && t1.programs == t.programs && SameProcesses(t1.life, t.life)
    requires SequenceOf(s1.life, z) == SequenceOf(s.life, z) && SequenceOf(t.life, z) == SequenceOf(t1.life, z)
    requires z in t.life.instances ==> z in t1.life.instances
    ensures HandsOn(tree, s, t, z)
  {
    var y, program := Current(t.life, z), ProgramTable(s.fds, OfSequence(z));
    if RunsProgram(t1, y, program) {
      var pid :| ProgramAt(t1, pid, y, program);
      assert ProgramAt(t, pid, y, program);
    }
  }

  lemma {:induction false} CallHandlersHandOn(tree: Tree, s: State, x: Inst, code: int, hs: seq<Handler>, fork: Fork, base: Table, z: Inst)
    requires WellFormed(tree) && TablesOk(tree, s.life) && Kept(s, base) && FreshPids(fork) && HandlersOk(tree, x.node, hs)
    requires z in s.life.instances && z.node < |tree| && tree[z.node].Sequence?
    ensures HandsOn(tree, s, CallHandlers(tree, s, x, code, hs, fork), z)
    decreases x.node, 1, |hs|
  {
    if hs == [] {
      NothingHandsOn(tree, s, s, base, z);
    } else if |hs| == 1 {
      assert LastHandler(hs) == hs[0];
      match hs[0]
      case External(tag) => NothingHandsOn(tree, s, CallHandler(tree, s, x, code, hs[0], fork), base, z);
      case SubNodeDeath(p) => OnSubNodeDeathHandsOn(tree, s, p, x.node, fork, base, z);
      case Proceed(p) => ProceedHandsOn(tree, s, p, code, fork, base, z);
    } else {
      assert AllExternal(hs[..|hs| - 1]) && hs[0] == hs[..|hs| - 1][0];
      TailOk(tree, x.node, hs);
      var s1 := CallHandler(tree, s, x, code, hs[0], fork);
      CallHandlersHandOn(tree, s1, x, code, hs[1..], fork, base, z);
      var t := CallHandlers(tree, s1, x, code, hs[1..], fork);
      AroundHandsOn(tree, s, s1, t, t, z);
    }
  }

  lemma {:induction false} OnSubNodeDeathHandsOn(tree: Tree, s: State, p: Inst, member: NodeId, fork: Fork, base: Table, z: Inst)
    requires WellFormed(tree) && TablesOk(tree, s.life) && Kept(s, base) && FreshPids(fork)
    requires z in s.life.instances && z.node < |tree| && tree[z.node].Sequence?
    ensures HandsOn(tree, s, OnSubNodeDeath(tree, s, p, member, fork), z)
    decreases p.node, 3, 0
  {
    var s1 := s.(life := SetAwaited(s.life, p, Awaited(s.life, p) - {member}));
    SameInstancesTablesOk(tree, s.life, s1.life);
    if Awaited(s1.life, p) == map[] {
      FinishHandsOn(tree, s1, p, 0, fork, base, z);
      var t1 := FinishInstance(tree, s1, p, 0, fork);
      AroundHandsOn(tree, s, s1, t1, t1.(life := DropLaunch(t1.life, p)), z);
    } else {
      NothingHandsOn(tree, s, s1, base, z);
    }
  }

  lemma {:induction false} SameInstancesTablesOk(tree: Tree, l: Life, t: Life)
    requires TablesOk(tree, l) && t.instances == l.instances
    ensures TablesOk(tree, t)
  {
    forall x ensures TableOk(tree, t, x) {
      assert TableOk(tree, l, x);
    }
  }

  lemma {:induction false} ProceedHandsOn(tree: Tree, s: State, p: Inst, code: int, fork: Fork, base: Table, z: Inst)
    requires WellFormed(tree) && TablesOk(tree, s.life) && Kept(s, base) && FreshPids(fork)
    requires z in s.life.instances && z.node < |tree| && tree[z.node].Sequence?
    ensures HandsOn(tree, s, ProceedWith(tree, s, p, code, fork), z)
    decreases p.node, 3, 0
  {
    var stage := SequenceOf(s.life, p).stage + 1;
    if code != 0 || stage < 0 || stage >= |Order(tree, p.node)| {
      StopHandsOn(tree, s, p, code, fork, base, z);
    } else {
      StageHandsOn(tree, s, p, stage, fork, base, z);
    }
  }

  lemma {:induction false} StageHandsOn(tree: Tree, s: State, p: Inst, stage: nat, fork: Fork, base: Table, z: Inst)
    requires WellFormed(tree) && p.node < |tree| && tree[p.node].Sequence? && stage < |tree[p.node].order|
    requires Kept(s, base) && FreshPids(fork) && z in s.life.instances
    ensures HandsOn(tree, s, StartStage(tree, s, p, stage, fork), z)
  {
    StartStageSpares(tree, s, p, stage, fork, base, OfSequence(z));
    if p == z {
      StageGets(tree, s, z, stage, fork, base);
    }
  }

  lemma {:induction false} StopHandsOn(tree: Tree, s: State, p: Inst, code: int, fork: Fork, base: Table, z: Inst)
    requires WellFormed(tree) && TablesOk(tree, s.life) && Kept(s, base) && FreshPids(fork)
    requires z in s.life.instances && z.node < |tree| && tree[z.node].Sequence?
    ensures var s1 := s.(life := DropSequence(s.life, p), fds := CloseFds(s.fds, OfSequence(p)));
      HandsOn(tree, s, FinishInstance(tree, s1, p, code, fork), z)
    decreases p.node, 2, 1
  {
    var s1 := s.(life := DropSequence(s.life, p), fds := CloseFds(s.fds, OfSequence(p)));
    if p != z {
      SameInstancesTablesOk(tree, s.life, s1.life);
      StopConserves(s, s1, p, base);
      FinishHandsOn(tree, s1, p, code, fork, base, z);
      CloseIntact(s.fds, base, OfSequence(p), OfSequence(z));
      IntactProgram(s.fds, s1.fds, base, OfSequence(z));
      ClosedHandsOn(tree, s, s1, FinishInstance(tree, s1, p, code, fork), p, z);
    }
  }

  lemma {:induction false} ClosedHandsOn(tree: Tree, s: State, s1: State, t: State, p: Inst, z: Inst)
    requires HandsOn(tree, s1, t, z) && p != z && s1.life == DropSequence(s.life, p) && s1.fds == CloseFds(s.fds, OfSequence(p))
    requires Intact(s.fds, s1.fds, OfSequence(z)) && ProgramTable(s1.fds, OfSequence(z)) == ProgramTable(s.fds, OfSequence(z))
    ensures HandsOn(tree, s, t, z)
  {
    assert forall c :: MapOf(s1.fds, OfNode(c)) == MapOf(s.fds, OfNode(c));
  }

  lemma {:induction false} StopConserves(s: State, t: State, p: Inst, base: Table)
    requires Kept(s, base) && t == s.(life := DropSequence(s.life, p), fds := CloseFds(s.fds, OfSequence(p)))
    ensures Kept(t, base)
  {
    CloseConserves(s.fds, base, OfSequence(p));
    assert forall y | y != p :: MapOf(t.fds, OfSequence(y)) == MapOf(s.fds, OfSequence(y));
  }

  // ---- Sequences over whole runs ----

  lemma {:induction false} ReapHandsOn(tree: Tree, s: State, pid: int, code: int, fork: Fork, base: Table, z: Inst)
    requires WellFormed(tree) && Stable(tree, s) && Kept(s, base) && FreshPids(fork)
    requires z in s.life.instances && z.node < |tree| && tree[z.node].Sequence?
    ensures HandsOn(tree, s, Reap(tree, s, pid, code, fork), z)
  {
    if pid in s.life.runningNodes {
      var s1 := s.(life := DropProcess(s.life, pid));
      SameInstancesTablesOk(tree, s.life, s1.life);
      var n := s.life.runningNodes[pid];
      var i := if (n, pid) in s.life.pidInstance then s.life.pidInstance[(n, pid)] else 0;
      FinishHandsOn(tree, s1, Inst(n, i), code, fork, base, z);
      var t := FinishInstance(tree, s1, Inst(n, i), code, fork);
      AroundHandsOn(tree, s, s1, t, t, z);
    } else {
      NothingHandsOn(tree, s, s, base, z);
    }
  }

  /** In every move a surviving sequence keeps what it owns, and a stage that it starts is given exactly
      that, whatever else the cascade of callbacks closes or starts. */
  lemma {:induction false} NextHandsOn(tree: Tree, s: State, m: Move, base: Table, z: Inst)
    requires WellFormed(tree) && Stable(tree, s) && Kept(s, base) && FreshPids(m.fork)
    requires z in s.life.instances && z.node < |tree| && tree[z.node].Sequence?
    ensures HandsOn(tree, s, Next(tree, s, m), z)
  {
    match m.step
    case Start(n) =>
      if n < |tree| {
        StartupSpares(tree, s, n, m.fork, base, OfSequence(z));
      } else {
        NothingHandsOn(tree, s, s, base, z);
      }
    case Exit(pid, code) => ReapHandsOn(tree, s, pid, code, m.fork, base, z);
    case Link(n, fd, extFd) => LinkIntact(s.fds, base, OfNode(n), fd, extFd, OfSequence(z));
    case Watch(n, tag) => NothingHandsOn(tree, s, Next(tree, s, m), base, z);
  }

  lemma {:induction false} NextConserves(tree: Tree, s: State, m: Move, base: Table)
    requires WellFormed(tree) && Kept(s, base)
    ensures Kept(Next(tree, s, m), base)
  {
    RunsConserve(tree, s, [m], base);
    assert After(tree, Next(tree, s, m), [m][1..]) == Next(tree, s, m);
  }

  /** As long as a sequence runs its map stands for the same program. */
  lemma {:induction false} RunKeepsProgram(tree: Tree, s: State, moves: seq<Move>, base: Table, z: Inst)
    requires WellFormed(tree) && Forks(moves) && Stable(tree, s) && Kept(s, base)
    requires z.node < |tree| && tree[z.node].Sequence? && RunsThroughout(tree, s, moves, z)
    ensures z in After(tree, s, moves).life.instances
    ensures ProgramTable(After(tree, s, moves).fds, OfSequence(z)) == ProgramTable(s.fds, OfSequence(z))
    decreases |moves|
  {
    if moves != [] {
      var t := Next(tree, s, moves[0]);
      NextHandsOn(tree, s, moves[0], base, z);
      NextKeeps(tree, s, moves[0]);
      NextConserves(tree, s, moves[0], base);
      IntactProgram(s.fds, t.fds, base, OfSequence(z));
      RunKeepsProgram(tree, t, moves[1..], base, z);
    }
  }

  /** Over every run: whenever sequence `z`, which ran throughout, moves on in some move `m`, the process of
      its new stage is given the very descriptors that the map of the sequence stood for at the beginning. */
  lemma {:induction false} RunHandsOn(tree: Tree, s: State, moves: seq<Move>, m: Move, base: Table, z: Inst)
    requires WellFormed(tree) && Forks(moves) && FreshPids(m.fork) && Stable(tree, s) && Kept(s, base)
    requires z.node < |tree| && tree[z.node].Sequence? && RunsThroughout(tree, s, moves, z)
    ensures var u := After(tree, s, moves); var t := Next(tree, u, m);
      z in t.life.instances && SequenceOf(t.life, z) != SequenceOf(u.life, z) ==>
        StageGiven(tree, u, t, z, ProgramTable(s.fds, OfSequence(z)))
  {
    RunKeepsProgram(tree, s, moves, base, z);
    RunsKeep(tree, s, moves);
    RunsConserve(tree, s, moves, base);
    NextHandsOn(tree, After(tree, s, moves), m, base, z);
  }

  /** Start a sequence node.  The process of its first stage, and in every run that follows that of each
      later stage that it moves on to, is given exactly the descriptors that were linked to the node before
      the start: the same for all stages, and no others but those that arclaunch passes on to everyone. */
  lemma {:induction false} AllStagesAlike(tree: Tree, s: State, n: NodeId, fork: Fork, moves: seq<Move>, m: Move, base: Table)
    requires WellFormed(tree) && n < |tree| && tree[n].Sequence? && Stable(tree, s) && Kept(s, base)
    requires FreshPids(fork) && Forks(moves) && FreshPids(m.fork)
    requires var (t, i) := Startup(tree, s, n, fork); RunsThroughout(tree, t, moves, Inst(n, i))
    ensures var (t, i) := Startup(tree, s, n, fork); var z, program := Inst(n, i), ProgramTable(s.fds, OfNode(n));
      var u := After(tree, t, moves); var v := Next(tree, u, m);
      && StageGiven(tree, s, t, z, program)
      && (z in v.life.instances && SequenceOf(v.life, z) != SequenceOf(u.life, z) ==> StageGiven(tree, u, v, z, program))
  {
    StartedTakesOver(tree, s, n, fork, base);
    StartKeeps(tree, s, n, fork);
    StartupConserves(tree, s, n, fork, base);
    var (t, i) := Startup(tree, s, n, fork);
    RunHandsOn(tree, t, moves, m, base, Inst(n, i));
  }

  lemma {:induction false} StartedTakesOver(tree: Tree, s: State, n: NodeId, fork: Fork, base: Table)
    requires WellFormed(tree) && n < |tree| && tree[n].Sequence? && Stable(tree, s) && Kept(s, base) && FreshPids(fork)
    ensures var (t, i) := Startup(tree, s, n, fork); var z, program := Inst(n, i), ProgramTable(s.fds, OfNode(n));
      ProgramTable(t.fds, OfSequence(z)) == program && StageGiven(tree, s, t, z, program)
  {
    FreshNumber(s.life, n);
    var x := Inst(n, FirstFree(Numbers(s.life, n), 0));
    var s1 := s.(life := Appear(s.life, x, Pending(s, n)), pending := s.pending[n := []]);
    assert KeyOk(tree, s.life, x, {});
    SequenceTakesOver(tree, s1, x, fork, base);
    var s2 := StartInstance(tree, s1, x, fork);
    StartInstanceConserves(tree, s1, x, fork, base);
    var t := s2.(fds := CloseFds(s2.fds, OfNode(n)));
    CloseConserves(s2.fds, base, OfNode(n));
    CloseIntact(s2.fds, base, OfNode(n), OfSequence(x));
    IntactProgram(s2.fds, t.fds, base, OfSequence(x));
    StillGiven(tree, s, s1, s2, t, x, ProgramTable(s.fds, OfNode(n)));
  }

  lemma {:induction false} StillGiven(tree: Tree, s: State, s1: State, s2: State, t: State, z: Inst, program: map<nat, File>)
    requires StageGiven(tree, s1, s2, z, program) && s1.fds == s.fds && s.life.instances.Keys <= s1.life.instances.Keys
    requires t.life == s2.life && t.programs == s2.programs
    ensures StageGiven(tree, s, t, z, program)
  {
    var y := Current(t.life, z);
    if RunsProgram(s2, y, program) {
      var pid :| ProgramAt(s2, pid, y, program);
      assert ProgramAt(t, pid, y, program);
    }
  }

  // ---- Externalization ----

  /** Without a source nothing is handed on. */
  lemma {:induction false} PassFdNothing(f: Fds, h: Holder, child: Holder, outer: nat, inner: nat)
    requires Sources(MapOf(f, h), outer) == {}
    ensures PassFd(f, h, child, outer, inner) == f
  {
  }

  /** A descriptor that is handed on shows the member the file of the least source. */
  lemma {:induction false} PassFdSees(f: Fds, base: Table, h: Holder, child: Holder, outer: nat, inner: nat)
    requires Conserved(f, base) && Free(f, child, inner) && Sources(MapOf(f, h), outer) != {}
    ensures var k := Min(Sources(MapOf(f, h), outer));
      k in f.open && Sees(PassFd(f, h, child, outer, inner), child, inner, f.open[k].file)
  {
    var k := Min(Sources(MapOf(f, h), outer));
    assert Owns(f, base, h);
    LinkSees(f, child, inner, k);
  }

  /** A program of the launch would see the file of the greatest source instead: the two agree exactly
      when both sources refer to the same file. */
  lemma {:induction false} PassFdAgrees(f: Fds, base: Table, h: Holder, child: Holder, outer: nat, inner: nat, greatest: nat)
    requires Conserved(f, base) && Free(f, child, inner) && child != h
    requires Sources(MapOf(f, h), outer) != {} && Greatest(MapOf(f, h), MapOf(f, h).Keys, outer, greatest)
    ensures var least := Min(Sources(MapOf(f, h), outer)); var g := PassFd(f, h, child, outer, inner);
      && least in f.open && greatest in f.open
      && ((forall file :: Sees(f, h, outer, file) <==> Sees(g, child, inner, file))
          <==> f.open[least].file == f.open[greatest].file)
  {
    assert Owns(f, base, h) && Owns(f, base, child);
    assert greatest in Sources(MapOf(f, h), outer);
    PassFdSees(f, base, h, child, outer, inner);
    var least := Min(Sources(MapOf(f, h), outer));
    var g := PassFd(f, h, child, outer, inner);
    PassFdConserves(f, base, h, child, outer, inner);
    SeesOne(f, h, outer, f.open[greatest].file);
    SeesOne(g, child, inner, f.open[least].file);
  }

  /** A program sees one file under one number. */
  lemma {:induction false} SeesOne(f: Fds, h: Holder, fd: nat, file: File)
    requires Sees(f, h, fd, file)
    ensures forall other | Sees(f, h, fd, other) :: other == file
  {
  }

  /** No two externalizations lead to the same descriptor of a member. */
  predicate DistinctInner(externals: seq<Externalize>) {
    forall i, j | 0 <= i < j < |externals| ::
      (externals[i].member, externals[i].inner) != (externals[j].member, externals[j].inner)
  }

  lemma {:induction false} ExternalSeen(f: Fds, base: Table, h: Holder, externals: seq<Externalize>, j: nat, k: nat)
    requires Conserved(f, base) && j < |externals| && DistinctInner(externals)
    requires forall i | 0 <= i < |externals| :: OfNode(externals[i].member) != h
    requires Free(f, OfNode(externals[j].member), externals[j].inner)
    requires Sources(MapOf(f, h), externals[j].outer) != {} && k == Min(Sources(MapOf(f, h), externals[j].outer))
    ensures k in f.open
    ensures Sees(PassExternals(f, h, externals), OfNode(externals[j].member), externals[j].inner, f.open[k].file)
    decreases j
  {
    var e, first := externals[j], externals[0];
    var g := PassFd(f, h, OfNode(first.member), first.outer, first.inner);
    PassFdConserves(f, base, h, OfNode(first.member), first.outer, first.inner);
    if j == 0 {
      PassFdSees(f, base, h, OfNode(e.member), e.outer, e.inner);
      assert forall i | 0 <= i < |externals[1..]| :: externals[1..][i] == externals[i + 1];
      ExternalsKeepSight(g, base, h, externals[1..], e.member, e.inner);
    } else {
      var ks := Sources(MapOf(f, h), first.outer);
      if ks != {} {
        LinkIntact(f, base, OfNode(first.member), first.inner, Min(ks), h);
        LinkElsewhere(f, base, OfNode(first.member), first.inner, Min(ks), OfNode(e.member), e.inner);
      } else {
        assert Owns(f, base, h);
      }
      ExternalSeen(g, base, h, externals[1..], j - 1, k);
    }
  }

  /** Start a launch.  If nothing else is linked to the inner descriptor of an externalization, the new
      process of its member, an executable, holds there the file of the least source that the launch has
      for the outer one. */
  lemma {:induction false} LaunchHandsDown(tree: Tree, s: State, n: NodeId, fork: Fork, base: Table, j: nat, e: Externalize, k: nat)
    requires WellFormed(tree) && n < |tree| && tree[n].Launch? && FreshPids(fork)
    requires Separate(tree, n) && Kept(s, base) && j < |tree[n].externals| && e == tree[n].externals[j]
    requires ExternalsElsewhere(tree[n]) && DistinctInner(tree[n].externals)
    requires e.member < |tree| && tree[e.member].Executable? && Free(s.fds, OfNode(e.member), e.inner)
    requires Sources(MapOf(s.fds, OfNode(n)), e.outer) != {} && k == Min(Sources(MapOf(s.fds, OfNode(n)), e.outer))
    ensures k in s.fds.open
    ensures var (t, num) := Startup(tree, s, n, fork); MemberHolds(s, t, Inst(n, num), e.member, e.inner, s.fds.open[k].file)
  {
    WiredSees(tree, Entered(s, n), NewInst(s, n), base, j, e, k);
    LaunchShows(tree, s, n, fork, base, e.member, e.inner, s.fds.open[k].file);
  }

  /** If the launch has no source for the outer descriptor, the member finds under the inner one exactly what
      arclaunch passes on to everyone. */
  lemma {:induction false} LaunchHandsNothing(tree: Tree, s: State, n: NodeId, fork: Fork, base: Table, j: nat, e: Externalize)
    requires WellFormed(tree) && n < |tree| && tree[n].Launch? && FreshPids(fork)
    requires Separate(tree, n) && Kept(s, base) && j < |tree[n].externals| && e == tree[n].externals[j]
    requires ExternalsElsewhere(tree[n]) && DistinctInner(tree[n].externals)
    requires e.member < |tree| && tree[e.member].Executable? && Free(s.fds, OfNode(e.member), e.inner)
    requires Sources(MapOf(s.fds, OfNode(n)), e.outer) == {}
    ensures var (t, num) := Startup(tree, s, n, fork); MemberGiven(s, t, Inst(n, num), e.member, e.inner, Exec(base))
  {
    assert e.member in tree[n].members by {
      assert WellFormedNode(tree, n);
    }
    forall i | 0 <= i < |tree[n].links| ensures Elsewhere(tree[n].links[i], OfNode(e.member), e.inner) {
      assert Elsewhere(tree[n].links[i], OfNode(tree[n].externals[j].member), tree[n].externals[j].inner);
    }
    LaunchHandsNothingElse(tree, s, n, fork, base, e.member, e.inner);
  }

  lemma {:induction false} WiredSees(tree: Tree, s: State, x: Inst, base: Table, j: nat, e: Externalize, k: nat)
    requires WellFormed(tree) && x.node < |tree| && tree[x.node].Launch? && Conserved(s.fds, base)
    requires j < |tree[x.node].externals| && e == tree[x.node].externals[j]
    requires ExternalsElsewhere(tree[x.node]) && DistinctInner(tree[x.node].externals)
    requires Free(s.fds, OfNode(e.member), e.inner)
    requires Sources(MapOf(s.fds, OfNode(x.node)), e.outer) != {} && k == Min(Sources(MapOf(s.fds, OfNode(x.node)), e.outer))
    ensures k in s.fds.open && Sees(Wired(tree, s, x).fds, OfNode(e.member), e.inner, s.fds.open[k].file)
    ensures e.member in tree[x.node].members
  {
    assert WellFormedNode(tree, x.node);
    var links, externals := tree[x.node].links, tree[x.node].externals;
    var h, f := OfNode(x.node), WireLinks(s.fds, links);
    assert Intact(s.fds, f, h) by { WireLinksIntact(s.fds, base, links, h); }
    assert Conserved(f, base) by { WireLinksConserve(s.fds, base, links); }
    LinksKeepSight(s.fds, base, links, OfNode(e.member), e.inner);
    ExternalSeen(f, base, h, externals, j, k);
  }

  // ---- An example in which the two sources differ ----

  /** A launch whose descriptor 5 is externalized as descriptor 0 of its one member. */
  const EXAMPLE_TREE: Tree := [Launch([1], [], [Externalize(1, 5, 0)]), Executable]

  /** What arclaunch is given: two files. */
  const EXAMPLE_BASE: Table := map[3 := Entry(Other(1), true), 4 := Entry(Other(2), true)]

  /** Two descriptors were linked to descriptor 5 of the launch, first 3 and then 4. */
  function ExampleLinked(): State {
    var s := Initial(Fds(EXAMPLE_BASE, map[], 0));
    s.(fds := LinkFd(LinkFd(s.fds, OfNode(0), 5, 3), OfNode(0), 5, 4))
  }

  lemma {:induction false} ExampleWellFormed()
    ensures WellFormed(EXAMPLE_TREE) && WellFormedNode(EXAMPLE_TREE, 0)
  {
    assert WellFormedNode(EXAMPLE_TREE, 0) && WellFormedNode(EXAMPLE_TREE, 1);
  }

  /** The first link takes number 6 for the first file, the second number 7 for the second. */
  lemma {:induction false} ExampleFds()
    ensures Kept(ExampleLinked(), EXAMPLE_BASE)
    ensures var f := ExampleLinked().fds;
      && MapOf(f, OfNode(0)) == map[6 := 5, 7 := 5] && MapOf(f, OfNode(1)) == map[]
      && 6 in f.open && f.open[6].file == Other(1) && 7 in f.open && f.open[7].file == Other(2)
  {
    var f0 := Fds(EXAMPLE_BASE, map[], 0);
    var f1 := LinkFd(f0, OfNode(0), 5, 3);
    InitialKept(EXAMPLE_BASE, 0);
    LinkConserves(f0, EXAMPLE_BASE, OfNode(0), 5, 3);
    LinkConserves(f1, EXAMPLE_BASE, OfNode(0), 5, 4);
    assert FirstFree(f0.open.Keys, 6) == 6;
    assert FirstFree(f1.open.Keys, 6) == 7;
  }

  /** Links to descriptor 5 of the launch, from 3 and then from 4. */
  function ExampleLinks(fork: Fork): seq<Move> {
    [Move(Step.Link(0, 5, 3), fork), Move(Step.Link(0, 5, 4), fork)]
  }

  lemma {:induction false} ExampleReached(fork: Fork)
    requires WellFormed(EXAMPLE_TREE)
    ensures After(EXAMPLE_TREE, Initial(Fds(EXAMPLE_BASE, map[], 0)), ExampleLinks(fork)) == ExampleLinked()
  {
    var s, moves := Initial(Fds(EXAMPLE_BASE, map[], 0)), ExampleLinks(fork);
    var s1 := Next(EXAMPLE_TREE, s, moves[0]);
    assert moves[1..] == [moves[1]] && [moves[1]][1..] == [];
    assert After(EXAMPLE_TREE, s1, [moves[1]]) == Next(EXAMPLE_TREE, s1, moves[1]);
  }

  /** A run that an outside caller can bring about: the two links, and then the start of the launch.  A
      program of the launch itself would see the second file under number 5, but the member is given the
      first. */
  lemma {:induction false} ExternalizedExample(fork: Fork)
    requires FreshPids(fork)
    ensures WellFormed(EXAMPLE_TREE)
    ensures var s := After(EXAMPLE_TREE, Initial(Fds(EXAMPLE_BASE, map[], 0)), ExampleLinks(fork));
      var (t, i) := Startup(EXAMPLE_TREE, s, 0, fork);
      Sees(s.fds, OfNode(0), 5, Other(2)) && MemberHolds(s, t, Inst(0, i), 1, 0, Other(1))
  {
    ExampleWellFormed();
    ExampleFds();
    ExampleReached(fork);
    var s := ExampleLinked();
    assert Greatest(map[6 := 5, 7 := 5], {6, 7}, 5, 7);
    assert Sources(MapOf(s.fds, OfNode(0)), 5) == {6, 7};
    LaunchHandsDown(EXAMPLE_TREE, s, 0, fork, EXAMPLE_BASE, 0, Externalize(1, 5, 0), 6);
  }
}
