/** The main results about whole runs. */
module LifecycleTheorems {
  import opened NodeTree
  import opened Descriptors
  import opened Lifecycle
  import opened LifecycleInvariant
  import opened LifecycleMeaning
  import opened LifecycleMeasure
  import opened LifecycleRuns

  // ---- Who waits for whom ----

  /** The tables of `p` name `y` as something `p` waits for. */
  predicate WaitsFor(l: Life, p: Inst, y: Inst) {
    || (y.node in Awaited(l, p) && Awaited(l, p)[y.node] == y.num)
    || (p in l.sequences && l.sequences[p].currentNode == y.node && l.sequences[p].currentInst == y.num)
  }

  /** Between steps a running instance is waited for by exactly the group instance that registered
      its handler: none if it was started from outside, exactly one otherwise. */
  lemma {:induction false} AwaitedByItsOwner(tree: Tree, s: State, p: Inst, y: Inst)
    requires Stable(tree, s) && y in s.life.instances
    ensures (p in s.life.instances && WaitsFor(s.life, p, y)) <==> HasOwner(LastHandler(s.life.instances[y]), p)
  {
    assert TableOk(tree, s.life, y) && Up(s.life, y);
    if p in s.life.instances && WaitsFor(s.life, p, y) {
      assert TableOk(tree, s.life, p) && KeyOk(tree, s.life, p, {}) && Down(tree, s.life, p);
      if tree[p.node].Launch? {
        assert EntryOk(s.life, p, tree[p.node].members, y.node);
      }
    }
  }

  /** Every entry of the tables leads to a running instance that reports back; a launch has one. */
  lemma {:induction false} EntriesRun(tree: Tree, s: State, p: Inst, y: Inst)
    requires Stable(tree, s) && p in s.life.instances && WaitsFor(s.life, p, y)
    ensures y in s.life.instances && HasOwner(LastHandler(s.life.instances[y]), p) && y.node > p.node
  {
    assert TableOk(tree, s.life, p) && KeyOk(tree, s.life, p, {}) && Down(tree, s.life, p);
    if tree[p.node].Launch? {
      assert EntryOk(s.life, p, tree[p.node].members, y.node);
    }
    assert TableOk(tree, s.life, y);
  }

  lemma {:induction false} GroupsWait(tree: Tree, s: State, p: Inst)
    requires Stable(tree, s) && p in s.life.instances && p.node < |tree| && !tree[p.node].Executable?
    ensures exists y :: WaitsFor(s.life, p, y)
  {
    assert Down(tree, s.life, p);
    if tree[p.node].Launch? {
      var c :| c in Awaited(s.life, p);
      assert WaitsFor(s.life, p, Inst(c, Awaited(s.life, p)[c]));
    } else {
      assert WaitsFor(s.life, p, Inst(s.life.sequences[p].currentNode, s.life.sequences[p].currentInst));
    }
  }

  /** Live process ids and running executable instances correspond one to one. */
  lemma {:induction false} ProcessesAreInstances(tree: Tree, s: State, x: Inst)
    requires Stable(tree, s) && x.node < |tree| && tree[x.node].Executable?
    ensures x in s.life.instances <==> exists pid :: Runs(s.life, pid, x)
    ensures forall p, q | Runs(s.life, p, x) && Runs(s.life, q, x) :: p == q
  {
    if x in s.life.instances {
      assert Down(tree, s.life, x);
    }
    forall pid | Runs(s.life, pid, x) ensures x in s.life.instances {
      assert LivePid(tree, s.life, pid, {}) && PidInst(s.life, pid) == x;
    }
  }

  // ---- Agreement with the recursive meaning ----

  /** Every exit in the run of `root` has the code that the script gives to its position. */
  ghost predicate ObeysScript(tree: Tree, s: State, moves: seq<Move>, root: Inst, script: Script)
    requires WellFormed(tree)
    decreases |moves|
  {
    moves == [] ||
    (&& (moves[0].step.Exit? ==> Obeys(tree, s, moves[0].step.pid, moves[0].step.code, root, script))
     && ObeysScript(tree, Next(tree, s, moves[0]), moves[1..], root, script))
  }

  /** `r` runs before each of the moves. */
  ghost predicate RunsBefore(tree: Tree, s: State, moves: seq<Move>, r: Inst)
    requires WellFormed(tree)
    decreases |moves|
  {
    moves == [] || (r in s.life.instances && RunsBefore(tree, Next(tree, s, moves[0]), moves[1..], r))
  }

  /** If `r` still runs it does so with its handlers and in its position. */
  predicate InPlace(s: State, t: State, r: Inst) {
    r in s.life.instances && r in t.life.instances ==>
      && t.life.instances[r] == s.life.instances[r]
      && Root(t.life.instances, r) == Root(s.life.instances, r) && PathIn(t.life, r) == PathIn(s.life, r)
  }

  lemma {:induction false} MoveInPlace(tree: Tree, s: State, m: Move, r: Inst)
    requires WellFormed(tree) && FreshPids(m.fork) && Stable(tree, s)
    ensures InPlace(s, Next(tree, s, m), r)
  {
    var t := Next(tree, s, m);
    if r in s.life.instances && r in t.life.instances {
      match m.step
      case Start(n) =>
        if n < |tree| {
          StartKeeps(tree, s, n, m.fork);
          StartPaths(tree, s.life, t.life, n, r);
        }
      case Exit(pid, code) =>
        ReapKeeps(tree, s, pid, code, m.fork);
        if pid in s.life.runningNodes {
          EvolvedPaths(tree, s.life, t.life, {}, r);
        }
      case Link(n, fd, extFd) =>
      case Watch(n, tag) =>
    }
  }

  /** What one move reports about any instance `r`: nothing unless it ends `r`; then, if `r` belongs to the
      run of `root`, its meaning at its position.  And it keeps the run of `root` on script. */
  lemma {:induction false} MoveMeans(tree: Tree, s: State, m: Move, root: Inst, r: Inst, script: Script)
    requires WellFormed(tree) && FreshPids(m.fork) && Stable(tree, s)
    requires OnScript(tree, s.life, root, script, {})
    requires m.step.Exit? ==> Obeys(tree, s, m.step.pid, m.step.code, root, script)
    ensures Outcome(tree, s, Next(tree, s, m), root, r, script)
    ensures OnScript(tree, Next(tree, s, m).life, root, script, {})
  {
    match m.step
    case Start(n) =>
      if n < |tree| {
        StartMeans(tree, s, n, m.fork, root, script);
        StartKeeps(tree, s, n, m.fork);
      }
    case Exit(pid, code) => ReapMeans(tree, s, pid, code, m.fork, root, r, script);
    case Link(n, fd, extFd) =>
    case Watch(n, tag) =>
  }

  /** For every schedule that obeys the script and every instance `r` in the run of `root`: as long as `r`
      runs nothing is reported about it, and the move that ends it reports its meaning exactly once to
      each of its handlers. */
  lemma {:induction false} RunMeans(tree: Tree, s: State, moves: seq<Move>, root: Inst, r: Inst, script: Script)
    requires WellFormed(tree) && Forks(moves) && Stable(tree, s)
    requires OnScript(tree, s.life, root, script, {}) && ObeysScript(tree, s, moves, root, script)
    requires r in s.life.instances && Root(s.life.instances, r) == root && RunsBefore(tree, s, moves, r)
    ensures Outcome(tree, s, After(tree, s, moves), root, r, script) && InPlace(s, After(tree, s, moves), r)
    decreases |moves|
  {
    if moves != [] {
      var t := Next(tree, s, moves[0]);
      MoveMeans(tree, s, moves[0], root, r, script);
      MoveInPlace(tree, s, moves[0], r);
      NextKeeps(tree, s, moves[0]);
      if r in t.life.instances {
        RunMeans(tree, t, moves[1..], root, r, script);
      } else {
        assert moves[1..] == [];
      }
    }
  }

  /** Schedules that obey the script keep the run on it. */
  lemma {:induction false} RunOnScript(tree: Tree, s: State, moves: seq<Move>, root: Inst, script: Script)
    requires WellFormed(tree) && Forks(moves) && Stable(tree, s)
    requires OnScript(tree, s.life, root, script, {}) && ObeysScript(tree, s, moves, root, script)
    ensures OnScript(tree, After(tree, s, moves).life, root, script, {})
    decreases |moves|
  {
    if moves != [] {
      MoveMeans(tree, s, moves[0], root, root, script);
      NextKeeps(tree, s, moves[0]);
      RunOnScript(tree, Next(tree, s, moves[0]), moves[1..], root, script);
    }
  }

  lemma {:induction false} ObeysBoth(tree: Tree, s: State, before: seq<Move>, moves: seq<Move>, root: Inst, script: Script)
    requires WellFormed(tree) && ObeysScript(tree, s, before + moves, root, script)
    ensures ObeysScript(tree, s, before, root, script)
    ensures ObeysScript(tree, After(tree, s, before), moves, root, script)
    decreases |before|
  {
    if before == [] {
      assert before + moves == moves;
    } else {
      assert (before + moves)[1..] == before[1..] + moves && (before + moves)[0] == before[0];
      ObeysBoth(tree, Next(tree, s, before[0]), before[1..], moves, root, script);
    }
  }

  /** Every instance of a run, the members and stages that are started in the middle of it included:
      from a state in which `root` does not run, let any schedule follow that obeys the script for the
      run of `root`.  Look at an instance `r` that belongs to that run at any moment, after the moves
      `before`.  Until it ends nothing is reported about it; the move that ends it reports the meaning of
      its node at its position once, and delivers it once to each of its external handlers. */
  lemma {:induction false} EveryInstanceDeliversMeaning(tree: Tree, s: State, before: seq<Move>, moves: seq<Move>, root: Inst, r: Inst, script: Script)
    requires WellFormed(tree) && Forks(before) && Forks(moves) && Stable(tree, s) && root !in s.life.instances
    requires ObeysScript(tree, s, before + moves, root, script)
    requires var u := After(tree, s, before);
      r in u.life.instances && Root(u.life.instances, r) == root && RunsBefore(tree, u, moves, r)
    ensures var u := After(tree, s, before); var t := After(tree, s, before + moves);
      && r.node < |tree|
      && EventsOf(t.log, r) == EventsOf(u.log, r) +
           if r in t.life.instances then []
           else Report(r, Meaning(tree, r.node, script, PathIn(u.life, r)), u.life.instances[r])
  {
    var u := After(tree, s, before);
    AfterBoth(tree, s, before, moves);
    ObeysBoth(tree, s, before, moves, root, script);
    NoRunOnScript(tree, s, root, script);
    RunOnScript(tree, s, before, root, script);
    RunsKeep(tree, s, before);
    assert TableOk(tree, u.life, r);
    RunMeans(tree, u, moves, root, r, script);
  }

  /** The root itself: start any node at any moment, then let anything happen.  Once its run is over, what
      was reported about it is one completion with its meaning and one delivery of that code to each
      handler that was pending when it was started.  The schedule does not occur in the answer. */
  lemma {:induction false} StartedRunDeliversMeaning(tree: Tree, s: State, n: NodeId, fork: Fork, moves: seq<Move>, script: Script)
    requires WellFormed(tree) && FreshPids(fork) && Forks(moves) && Stable(tree, s) && n < |tree|
    requires var (t, i) := Startup(tree, s, n, fork);
      ObeysScript(tree, t, moves, Inst(n, i), script) && RunsBefore(tree, t, moves, Inst(n, i))
    ensures var (t, i) := Startup(tree, s, n, fork); var u := After(tree, t, moves);
      EventsOf(u.log, Inst(n, i)) == EventsOf(s.log, Inst(n, i)) +
        if Inst(n, i) in u.life.instances then []
        else Report(Inst(n, i), Meaning(tree, n, script, []), Pending(s, n))
  {
    StartKeeps(tree, s, n, fork);
    var (t, i) := Startup(tree, s, n, fork);
    NoRunOnScript(tree, s, Inst(n, i), script);
    StartMeans(tree, s, n, fork, Inst(n, i), script);
    RunMeans(tree, t, moves, Inst(n, i), Inst(n, i), script);
  }

  lemma {:induction false} AllAreTold(x: Inst, code: int, hs: seq<Handler>, tag: int)
    requires External(tag) in hs
    ensures Delivered(tag, x, code) in Deliveries(x, code, hs)
    decreases |hs|
  {
    if hs[0] != External(tag) {
      AllAreTold(x, code, hs[1..], tag);
    }
  }

  lemma {:induction false} EventsOfLog(log: seq<Event>, r: Inst, e: Event)
    requires e in EventsOf(log, r)
    ensures e in log
    decreases |log|
  {
    if log != [] && e in EventsOf(log[..|log| - 1], r) {
      EventsOfLog(log[..|log| - 1], r, e);
    }
  }

  /** A handler that is registered on a node before it is started is told the meaning of the run when the run
      is over. */
  lemma {:induction false} WatcherIsTold(tree: Tree, s: State, n: NodeId, tag: int, fork: Fork, moves: seq<Move>, script: Script)
    requires WellFormed(tree) && FreshPids(fork) && Forks(moves) && Stable(tree, s) && n < |tree|
    requires var (t, i) := Startup(tree, Next(tree, s, Move(Watch(n, tag), fork)), n, fork);
      ObeysScript(tree, t, moves, Inst(n, i), script) && RunsBefore(tree, t, moves, Inst(n, i))
    ensures var (t, i) := Startup(tree, Next(tree, s, Move(Watch(n, tag), fork)), n, fork); var u := After(tree, t, moves);
      Inst(n, i) !in u.life.instances ==> Delivered(tag, Inst(n, i), Meaning(tree, n, script, [])) in u.log
  {
    var s1 := Next(tree, s, Move(Watch(n, tag), fork));
    NextKeeps(tree, s, Move(Watch(n, tag), fork));
    StartedRunDeliversMeaning(tree, s1, n, fork, moves, script);
    var (t, i) := Startup(tree, s1, n, fork);
    var u, x, meaning := After(tree, t, moves), Inst(n, i), Meaning(tree, n, script, []);
    if x !in u.life.instances {
      AllAreTold(x, meaning, Pending(s1, n), tag);
      assert Delivered(tag, x, meaning) in Report(x, meaning, Pending(s1, n));
      EventsOfLog(u.log, x, Delivered(tag, x, meaning));
    }
  }

  // ---- How long runs last ----

  /** Each move reaps a live process; nothing else is started from outside. */
  ghost predicate OnlyExits(tree: Tree, s: State, moves: seq<Move>)
    requires WellFormed(tree)
    decreases |moves|
  {
    moves == [] ||
    (&& moves[0].step.Exit? && moves[0].step.pid in s.life.runningNodes
     && OnlyExits(tree, Next(tree, s, moves[0]), moves[1..]))
  }

  predicate AllSucceed(moves: seq<Move>) {
    forall k | 0 <= k < |moves| :: moves[k].step.Exit? && moves[k].step.code == 0
  }

  lemma {:induction false} ExitsAreBounded(tree: Tree, s: State, moves: seq<Move>)
    requires WellFormed(tree) && Forks(moves) && Stable(tree, s) && OnlyExits(tree, s, moves)
    ensures |moves| + Weight(tree, After(tree, s, moves).life) <= Weight(tree, s.life)
    ensures AllSucceed(moves) ==> |moves| + Weight(tree, After(tree, s, moves).life) == Weight(tree, s.life)
    decreases |moves|
  {
    if moves != [] {
      var m := moves[0];
      ReapWeighs(tree, s, m.step.pid, m.step.code, m.fork);
      NextKeeps(tree, s, m);
      ExitsAreBounded(tree, Next(tree, s, m), moves[1..]);
    }
  }

  lemma {:induction false} SomePid(live: map<int, NodeId>) returns (pid: int)
    requires live != map[]
    ensures pid in live
  {
    var item :| item in live.Items;
    pid := item.0;
  }

  /** Nothing runs exactly when no process is live, exactly when the weight is 0. */
  lemma {:induction false} IdleIsWeightless(tree: Tree, s: State)
    requires WellFormed(tree) && Stable(tree, s)
    ensures s.life.instances == map[] <==> s.life.runningNodes == map[]
    ensures s.life.instances == map[] <==> Weight(tree, s.life) == 0
  {
    if s.life.instances != map[] {
      var x :| x in s.life.instances;
      var pid := SomeProcess(tree, s.life, x);
      assert s.life.runningNodes != map[];
    }
    if s.life.runningNodes != map[] {
      var pid := SomePid(s.life.runningNodes);
      assert LivePid(tree, s.life, pid, {});
    }
    if s.life.sequences != map[] {
      var x :| x in s.life.sequences;
      assert KeyOk(tree, s.life, x, {});
    }
  }
}
