/** Descriptors over whole runs: none is lost, none is kept, and linked programs share a pipe. */
module DescriptorRuns {
  import opened NodeTree
  import opened Descriptors
  import opened DescriptorLaws
  import opened Lifecycle
  import opened LifecycleInvariant
  import opened LifecycleRuns

  /** Only a running sequence owns descriptors apart from the nodes. */
  ghost predicate SequencesOnly(f: Fds, l: Life) {
    forall x {:trigger MapOf(f, OfSequence(x))} :: MapOf(f, OfSequence(x)) != map[] ==> x in l.sequences
  }

  ghost predicate SameSequenceMaps(f: Fds, g: Fds) {
    forall x {:trigger MapOf(g, OfSequence(x))} :: MapOf(g, OfSequence(x)) == MapOf(f, OfSequence(x))
  }

  predicate NumberedProgram(program: map<nat, File>, pipes: nat) {
    forall fd | fd in program :: Numbered(program[fd], pipes)
  }

  /** The pipes that programs were given were made. */
  predicate NumberedPrograms(programs: map<int, map<nat, File>>, pipes: nat) {
    forall pid | pid in programs :: NumberedProgram(programs[pid], pipes)
  }

  /** The descriptor invariant between steps. */
  ghost predicate Kept(s: State, base: Table) {
    Conserved(s.fds, base) && SequencesOnly(s.fds, s.life) && NumberedPrograms(s.programs, s.fds.pipes)
  }

  lemma {:induction false} MorePipes(programs: map<int, map<nat, File>>, pipes: nat, more: nat)
    requires NumberedPrograms(programs, pipes) && pipes <= more
    ensures NumberedPrograms(programs, more)
  {
    forall pid | pid in programs ensures NumberedProgram(programs[pid], more) {
      assert NumberedProgram(programs[pid], pipes);
    }
  }

  // ---- The operations on node maps leave the maps of sequences alone ----

  lemma {:induction false} PassFromSequenceMaps(f: Fds, source: map<nat, nat>, child: Holder, todo: set<nat>)
    requires child.OfNode? && todo <= source.Keys
    ensures SameSequenceMaps(f, PassFrom(f, source, child, todo))
    decreases |todo|
  {
    if todo != {} {
      var k := Min(todo);
      PassFromSequenceMaps(LinkFd(f, child, source[k], k), source, child, todo - {k});
    }
  }

  lemma {:induction false} PassExternalsSequenceMaps(f: Fds, h: Holder, externals: seq<Externalize>)
    ensures SameSequenceMaps(f, PassExternals(f, h, externals))
    decreases |externals|
  {
    if externals != [] {
      var e := externals[0];
      var g := PassFd(f, h, OfNode(e.member), e.outer, e.inner);
      assert SameSequenceMaps(f, g);
      PassExternalsSequenceMaps(g, h, externals[1..]);
    }
  }

  lemma {:induction false} WireLinksSequenceMaps(f: Fds, links: seq<Link>)
    ensures SameSequenceMaps(f, WireLinks(f, links))
    decreases |links|
  {
    if links != [] {
      assert SameSequenceMaps(f, WireLink(f, links[0]));
      WireLinksSequenceMaps(WireLink(f, links[0]), links[1..]);
    }
  }

  lemma {:induction false} PassFromOthers(f: Fds, source: map<nat, nat>, child: Holder, todo: set<nat>, h: Holder)
    requires todo <= source.Keys && h != child
    ensures MapOf(PassFrom(f, source, child, todo), h) == MapOf(f, h)
    decreases |todo|
  {
    if todo != {} {
      var k := Min(todo);
      PassFromOthers(LinkFd(f, child, source[k], k), source, child, todo - {k}, h);
    }
  }

  // ---- Starting ----

  lemma {:induction false} StartupConserves(tree: Tree, s: State, n: NodeId, fork: Fork, base: Table)
    requires WellFormed(tree) && n < |tree| && Kept(s, base)
    ensures Kept(Startup(tree, s, n, fork).0, base)
    ensures s.life.sequences.Keys <= Startup(tree, s, n, fork).0.life.sequences.Keys
    ensures MapOf(Startup(tree, s, n, fork).0.fds, OfNode(n)) == map[]
    decreases |tree| - n, 2, 0
  {
    var x := Inst(n, FirstFree(Numbers(s.life, n), 0));
    var s1 := s.(life := Appear(s.life, x, Pending(s, n)), pending := s.pending[n := []]);
    StartInstanceConserves(tree, s1, x, fork, base);
    var f := StartInstance(tree, s1, x, fork).fds;
    CloseConserves(f, base, OfNode(n));
    assert SameSequenceMaps(f, CloseFds(f, OfNode(n)));
  }

  lemma {:induction false} StartInstanceConserves(tree: Tree, s: State, x: Inst, fork: Fork, base: Table)
    requires WellFormed(tree) && x.node < |tree| && Kept(s, base)
    ensures Kept(StartInstance(tree, s, x, fork), base)
    ensures s.life.sequences.Keys <= StartInstance(tree, s, x, fork).life.sequences.Keys
    decreases |tree| - x.node, 1, 0
  {
    match tree[x.node]
    case Executable => ProgramNumbered(s.fds, base, OfNode(x.node));
    case Launch(_, links, externals) =>
      WireLinksConserve(s.fds, base, links);
      MorePipes(s.programs, s.fds.pipes, s.fds.pipes + |links|);
      WireLinksSequenceMaps(s.fds, links);
      PassExternalsConserve(WireLinks(s.fds, links), base, OfNode(x.node), externals);
      PassExternalsSequenceMaps(WireLinks(s.fds, links), OfNode(x.node), externals);
      var f := PassExternals(WireLinks(s.fds, links), OfNode(x.node), externals);
      StartMembersConserves(tree, s.(fds := f, life := SetAwaited(s.life, x, map[])), x, 0, fork, base);
    case Sequence(_) =>
      assert WellFormedNode(tree, x.node);
      var s1 := s.(life := SetSequence(s.life, x, RunningSequence(-1, 0, 0)));
      var s2 := s1.(fds := PassFds(s1.fds, OfNode(x.node), OfSequence(x)));
      HandedToSequence(s, s2, x, base);
      StartStageConserves(tree, s2, x, 0, fork, base);
  }

  lemma {:induction false} HandedToSequence(s: State, t: State, x: Inst, base: Table)
    requires Kept(s, base) && x in t.life.sequences && s.life.sequences.Keys <= t.life.sequences.Keys
    requires t.fds == PassFds(s.fds, OfNode(x.node), OfSequence(x)) && t.programs == s.programs
    ensures Kept(t, base)
  {
    var source := MapOf(s.fds, OfNode(x.node));
    PassFromConserves(s.fds, base, source, OfSequence(x), source.Keys);
    forall y | MapOf(t.fds, OfSequence(y)) != map[] ensures y in t.life.sequences {
      if y != x {
        PassFromOthers(s.fds, source, OfSequence(x), source.Keys, OfSequence(y));
      }
    }
  }

  lemma {:induction false} StartMembersConserves(tree: Tree, s: State, x: Inst, k: nat, fork: Fork, base: Table)
    requires WellFormed(tree) && x.node < |tree| && tree[x.node].Launch? && k <= |tree[x.node].members|
    requires Kept(s, base)
    ensures Kept(StartMembers(tree, s, x, k, fork), base)
    ensures s.life.sequences.Keys <= StartMembers(tree, s, x, k, fork).life.sequences.Keys
    decreases |tree| - x.node, 0, |tree[x.node].members| - k, 1
  {
    if k < |tree[x.node].members| {
      StartMemberConserves(tree, s, x, k, fork, base);
      StartMembersConserves(tree, StartMember(tree, s, x, k, fork), x, k + 1, fork, base);
    }
  }

  lemma {:induction false} StartMemberConserves(tree: Tree, s: State, x: Inst, k: nat, fork: Fork, base: Table)
    requires WellFormed(tree) && x.node < |tree| && tree[x.node].Launch? && k < |tree[x.node].members|
    requires Kept(s, base)
    ensures Kept(StartMember(tree, s, x, k, fork), base)
    ensures s.life.sequences.Keys <= StartMember(tree, s, x, k, fork).life.sequences.Keys
    decreases |tree| - x.node, 0, |tree[x.node].members| - k, 0
  {
    assert WellFormedNode(tree, x.node);
    var c := Parts(tree[x.node])[k];
    StartupConserves(tree, AddInstanceCompletionHandler(s, c, SubNodeDeath(x)), c, fork, base);
  }

  lemma {:induction false} StartStageConserves(tree: Tree, s: State, x: Inst, k: nat, fork: Fork, base: Table)
    requires WellFormed(tree) && x.node < |tree| && tree[x.node].Sequence? && k < |tree[x.node].order|
    requires Kept(s, base)
    ensures Kept(StartStage(tree, s, x, k, fork), base)
    ensures s.life.sequences.Keys <= StartStage(tree, s, x, k, fork).life.sequences.Keys
    decreases |tree| - x.node, 0, 0
  {
    assert WellFormedNode(tree, x.node);
    var c := Parts(tree[x.node])[k];
    PrepareStageConserves(s, x, k, c, base);
    StartupConserves(tree, PrepareStage(s, x, k, c), c, fork, base);
  }

  lemma {:induction false} PrepareStageConserves(s: State, x: Inst, k: nat, c: NodeId, base: Table)
    requires Kept(s, base)
    ensures Kept(PrepareStage(s, x, k, c), base)
  {
    var source := MapOf(s.fds, OfSequence(x));
    PassFromConserves(s.fds, base, source, OfNode(c), source.Keys);
    PassFromSequenceMaps(s.fds, source, OfNode(c), source.Keys);
  }

  // ---- Finishing ----

  lemma {:induction false} FinishConserves(tree: Tree, s: State, x: Inst, code: int, fork: Fork, base: Table)
    requires WellFormed(tree) && Kept(s, base)
    ensures Kept(FinishInstance(tree, s, x, code, fork), base)
    decreases x.node, 2, 0
  {
    if x in s.life.instances {
      CallHandlersConserve(tree, s.(log := s.log + [Completed(x, code)]), x, code, s.life.instances[x], fork, base);
    }
  }

  lemma {:induction false} CallHandlersConserve(tree: Tree, s: State, x: Inst, code: int, hs: seq<Handler>, fork: Fork, base: Table)
    requires WellFormed(tree) && Kept(s, base)
    ensures Kept(CallHandlers(tree, s, x, code, hs, fork), base)
    decreases x.node, 1, |hs|
  {
    if hs != [] {
      CallHandlerConserves(tree, s, x, code, hs[0], fork, base);
      CallHandlersConserve(tree, CallHandler(tree, s, x, code, hs[0], fork), x, code, hs[1..], fork, base);
    }
  }

  lemma {:induction false} CallHandlerConserves(tree: Tree, s: State, x: Inst, code: int, h: Handler, fork: Fork, base: Table)
    requires WellFormed(tree) && Kept(s, base)
    ensures Kept(CallHandler(tree, s, x, code, h, fork), base)
    decreases x.node, 0, 0
  {
    match h
    case External(_) =>
    case SubNodeDeath(p) =>
      if p.node < x.node {
        OnSubNodeDeathConserves(tree, s, p, x.node, fork, base);
      }
    case Proceed(p) =>
      if p.node < x.node {
        ProceedConserves(tree, s, p, code, fork, base);
      }
  }

  lemma {:induction false} OnSubNodeDeathConserves(tree: Tree, s: State, p: Inst, member: NodeId, fork: Fork, base: Table)
    requires WellFormed(tree) && Kept(s, base)
    ensures Kept(OnSubNodeDeath(tree, s, p, member, fork), base)
    decreases p.node, 3, 0
  {
    FinishConserves(tree, s.(life := SetAwaited(s.life, p, Awaited(s.life, p) - {member})), p, 0, fork, base);
  }

  lemma {:induction false} ProceedConserves(tree: Tree, s: State, p: Inst, code: int, fork: Fork, base: Table)
    requires WellFormed(tree) && Kept(s, base)
    ensures Kept(ProceedWith(tree, s, p, code, fork), base)
    decreases p.node, 3, 0
  {
    var stage := SequenceOf(s.life, p).stage + 1;
    if code != 0 || stage < 0 || stage >= |Order(tree, p.node)| {
      CloseConserves(s.fds, base, OfSequence(p));
      var s1 := s.(life := DropSequence(s.life, p), fds := CloseFds(s.fds, OfSequence(p)));
      assert forall y | y != p :: MapOf(s1.fds, OfSequence(y)) == MapOf(s.fds, OfSequence(y));
      FinishConserves(tree, s1, p, code, fork, base);
    } else {
      StartStageConserves(tree, s, p, stage, fork, base);
    }
  }

  // ---- Runs ----

  /** A run keeps the descriptors that arclaunch was given, and accounts for every other one. */
  lemma {:induction false} RunsConserve(tree: Tree, s: State, moves: seq<Move>, base: Table)
    requires WellFormed(tree) && Kept(s, base)
    ensures Kept(After(tree, s, moves), base)
    decreases |moves|
  {
    if moves != [] {
      var m := moves[0];
      match m.step {
        case Start(n) => if n < |tree| { StartupConserves(tree, s, n, m.fork, base); }
        case Exit(pid, code) =>
          if pid in s.life.runningNodes {
            var n := s.life.runningNodes[pid];
            var i := if (n, pid) in s.life.pidInstance then s.life.pidInstance[(n, pid)] else 0;
            FinishConserves(tree, s.(life := DropProcess(s.life, pid)), Inst(n, i), code, m.fork, base);
          }
        case Link(n, fd, extFd) =>
          LinkConserves(s.fds, base, OfNode(n), fd, extFd);
          assert SameSequenceMaps(s.fds, LinkFd(s.fds, OfNode(n), fd, extFd));
        case Watch(n, tag) =>
      }
      RunsConserve(tree, Next(tree, s, m), moves[1..], base);
    }
  }

  /** When nothing runs and no link is pending, exactly the descriptors of the beginning are open. */
  lemma {:induction false} NothingLeaks(tree: Tree, base: Table, pipes: nat, moves: seq<Move>)
    requires WellFormed(tree) && Forks(moves) && forall k | k in base :: Numbered(base[k].file, pipes)
    requires var t := After(tree, Initial(Fds(base, map[], pipes)), moves);
      t.life.instances == map[] && forall n :: MapOf(t.fds, OfNode(n)) == map[]
    ensures After(tree, Initial(Fds(base, map[], pipes)), moves).fds.open == base
  {
    var s := Initial(Fds(base, map[], pipes));
    InitialStable(tree, s.fds);
    RunsKeep(tree, s, moves);
    InitialKept(base, pipes);
    RunsConserve(tree, s, moves, base);
    var t := After(tree, s, moves);
    forall k | k in t.fds.open ensures k in base {
      assert Accounted(t.fds, base, k);
      assert forall h :: MapOf(t.fds, h) == map[] by {
        forall h ensures MapOf(t.fds, h) == map[] {
          assert h.OfSequence? ==> KeyOk(tree, t.life, h.x, {});
        }
      }
    }
  }

  /** Every descriptor table that arclaunch can be given fits, with `pipes` above all numbers of pipes in it. */
  lemma {:induction false} InitialKept(base: Table, pipes: nat)
    requires forall k | k in base :: Numbered(base[k].file, pipes)
    ensures Kept(Initial(Fds(base, map[], pipes)), base)
  {
    var f := Fds(base, map[], pipes);
    forall k | k in f.open ensures Accounted(f, base, k) {
      assert k in base;
    }
  }
}
