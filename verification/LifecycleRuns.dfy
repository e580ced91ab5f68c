/** Runs: any interleaving of starts from outside, process exits, links and handler registrations. */
module LifecycleRuns {
  import opened NodeTree
  import opened Descriptors
  import opened Lifecycle
  import opened LifecycleInvariant
  import opened LifecycleStarting
  import opened LifecycleFinishing
  import opened LifecycleMeaning
  import opened LifecycleMeasure
  import opened LifecycleCascade
  import opened LifecycleHistory

  // ---- One reaped process ----

  /** The situation after the process of `x` was taken off the table. */
  ghost predicate Reaped(tree: Tree, s: State, pid: int, s1: State, x: Inst)
    requires WellFormed(tree)
  {
    && pid in s.life.runningNodes && Runs(s.life, pid, x)
    && s1 == s.(life := DropProcess(s.life, pid))
    && Inv(tree, s1.life, {x}, {x}) && Dying(s1.life, x, {x}) && Up(s1.life, x) && PendingOk(s1)
    && x.node < |tree| && tree[x.node].Executable? && x !in s1.life.launches && x !in s1.life.sequences
  }

  lemma {:induction false} ReapStarts(tree: Tree, s: State, pid: int)
    requires WellFormed(tree) && Stable(tree, s) && pid in s.life.runningNodes
    ensures LivePid(tree, s.life, pid, {})
    ensures Reaped(tree, s, pid, s.(life := DropProcess(s.life, pid)), PidInst(s.life, pid))
  {
    DropProcessKeeps(tree, s.life, pid, {}, {});
    var x := PidInst(s.life, pid);
    var t := DropProcess(s.life, pid);
    assert {} + {x} == {x};
    assert Up(s.life, x) && KeyOk(tree, s.life, x, {});
    MoreExempt(tree, t, {x}, {}, {x});
  }

  /** The invariant between steps. */
  ghost predicate Stable(tree: Tree, s: State) {
    Inv(tree, s.life, {}, {}) && PendingOk(s)
  }

  lemma {:induction false} ReapKeeps(tree: Tree, s: State, pid: int, code: int, fork: Fork)
    requires WellFormed(tree) && FreshPids(fork) && Stable(tree, s)
    ensures Stable(tree, Reap(tree, s, pid, code, fork))
    ensures pid in s.life.runningNodes ==>
      LivePid(tree, s.life, pid, {}) && PidInst(s.life, pid) !in Reap(tree, s, pid, code, fork).life.instances
      && Evolves(tree, s.life, Reap(tree, s, pid, code, fork).life, {})
  {
    if pid in s.life.runningNodes {
      ReapStarts(tree, s, pid);
      var x := PidInst(s.life, pid);
      var s1 := s.(life := DropProcess(s.life, pid));
      FinishKeeps(tree, s1, x, code, fork, {x});
      var t := FinishInstance(tree, s1, x, code, fork);
      assert {} + {x} == {x} && SameTables(s1.life, t.life, x);
      assert KeyOk(tree, t.life, x, {x});
      DropGone(tree, t.life, x, {});
      forall z | z in s.life.instances && z in t.life.instances ensures TableStep(s.life, t.life, z) {
        assert TableStep(s1.life, t.life, z);
      }
    }
  }

  /** A process exit takes at least one from the weight, and exactly one when its code is 0. */
  lemma {:induction false} ReapWeighs(tree: Tree, s: State, pid: int, code: int, fork: Fork)
    requires WellFormed(tree) && FreshPids(fork) && Stable(tree, s) && pid in s.life.runningNodes
    ensures var t := Reap(tree, s, pid, code, fork);
      Weight(tree, t.life) + 1 <= Weight(tree, s.life) && (code == 0 ==> Weight(tree, t.life) + 1 == Weight(tree, s.life))
  {
    ReapStarts(tree, s, pid);
    FinishWeighs(tree, s.(life := DropProcess(s.life, pid)), PidInst(s.life, pid), code, fork, {PidInst(s.life, pid)});
  }

  /** While the exits obey the script, the run of `root` stays on script, and an instance `r` of it that
      is gone has reported its meaning, once, to each of its handlers. */
  lemma {:induction false} ReapMeans(tree: Tree, s: State, pid: int, code: int, fork: Fork, root: Inst, r: Inst, script: Script)
    requires WellFormed(tree) && FreshPids(fork) && Stable(tree, s)
    requires OnScript(tree, s.life, root, script, {}) && Obeys(tree, s, pid, code, root, script)
    ensures Outcome(tree, s, Reap(tree, s, pid, code, fork), root, r, script)
    ensures OnScript(tree, Reap(tree, s, pid, code, fork).life, root, script, {})
  {
    if pid in s.life.runningNodes {
      ReapStarts(tree, s, pid);
      var x := PidInst(s.life, pid);
      var s1 := s.(life := DropProcess(s.life, pid));
      SameTreeOnScript(tree, s.life, s1.life, root, script, {}, {x});
      assert Scripted(tree, s1.life, x, code, root, script);
      FinishMeans(tree, s1, x, code, fork, {x}, root, r, script);
      FinishKeeps(tree, s1, x, code, fork, {x});
      var t := FinishInstance(tree, s1, x, code, fork);
      assert {} + {x} == {x};
      GoneExempt(tree, t.life, t.life, x, root, script, {});
    }
  }

  /** If `pid` belongs to the run of `root`, it exits with the code that the script gives its position. */
  ghost predicate Obeys(tree: Tree, s: State, pid: int, code: int, root: Inst, script: Script)
    requires WellFormed(tree)
  {
    pid in s.life.runningNodes && LivePid(tree, s.life, pid, {}) && Root(s.life.instances, PidInst(s.life, pid)) == root ==>
      code == script(PathIn(s.life, PidInst(s.life, pid)))
  }

  /** The exact course of a reap, from the instance of the process upwards. */
  lemma {:induction false} ReapClimbs(tree: Tree, s: State, pid: int, code: int, fork: Fork)
    requires WellFormed(tree) && FreshPids(fork) && Stable(tree, s) && pid in s.life.runningNodes
    ensures LivePid(tree, s.life, pid, {})
    ensures var t := Reap(tree, s, pid, code, fork);
      Climbs(tree, s.life, t.life, PidInst(s.life, pid), code) && Confined(s.life, t.life, PidInst(s.life, pid))
  {
    ReapStarts(tree, s, pid);
    var x := PidInst(s.life, pid);
    var s1 := s.(life := DropProcess(s.life, pid));
    FinishClimbs(tree, s1, x, code, fork, {x});
    var t := FinishInstance(tree, s1, x, code, fork);
    CalledBackAround(tree, s.life, s1.life, t.life, t.life, x, code);
    forall z | z in s.life.instances && z !in t.life.instances ensures Above(s.life.instances, z, x) {
      assert Above(s1.life.instances, z, x);
    }
  }

  /** A surviving sequence changes only by moving to its next stage, after its own current stage, below
      which the reaped process was, completed with 0 and is gone; no other exit touches it. */
  lemma {:induction false} SequencesMoveByOwnStage(tree: Tree, s: State, pid: int, code: int, fork: Fork, z: Inst)
    requires WellFormed(tree) && FreshPids(fork) && Stable(tree, s)
    requires z in s.life.instances && z.node < |tree| && tree[z.node].Sequence?
    ensures var t := Reap(tree, s, pid, code, fork);
      z in t.life.instances ==>
      && z in s.life.sequences && z in t.life.sequences
      && (t.life.sequences[z] == s.life.sequences[z]
          || (&& t.life.sequences[z].stage == s.life.sequences[z].stage + 1 < |tree[z.node].order|
              && pid in s.life.runningNodes && LivePid(tree, s.life, pid, {})
              && Above(s.life.instances, Current(s.life, z), PidInst(s.life, pid))
              && Completed(Current(s.life, z), 0) in NewEvents(s, t)
              && Current(s.life, z) !in t.life.instances && Current(t.life, z) !in s.life.instances))
  {
    assert TableOk(tree, s.life, z) && Down(tree, s.life, z);
    var t := Reap(tree, s, pid, code, fork);
    ReapKeeps(tree, s, pid, code, fork);
    if pid in s.life.runningNodes && z in t.life.instances {
      ReapLogs(tree, s, pid, code, fork);
      ReapClimbs(tree, s, pid, code, fork);
      assert KeyOk(tree, s.life, z, {}) && KeyOk(tree, t.life, z, {});
      MovedIsAbove(tree, s.life, t.life, PidInst(s.life, pid), code, z);
      MovedCompleted(tree, s.life, t.life, PidInst(s.life, pid), code, z);
      assert TableStep(s.life, t.life, z) && Down(tree, t.life, z);
    }
  }

  /** What a reap reports, event by event. */
  lemma {:induction false} ReapLogs(tree: Tree, s: State, pid: int, code: int, fork: Fork)
    requires WellFormed(tree) && FreshPids(fork) && Stable(tree, s) && pid in s.life.runningNodes
    ensures LivePid(tree, s.life, pid, {})
    ensures Reap(tree, s, pid, code, fork).log == s.log + CascadeLog(tree, s.life, PidInst(s.life, pid), code)
  {
    ReapStarts(tree, s, pid);
    var x := PidInst(s.life, pid);
    var s1 := s.(life := DropProcess(s.life, pid));
    FinishLogs(tree, s1, x, code, fork, {x});
    SameLog(tree, s.life, s1.life, x, code);
  }

  // ---- Starting from outside ----

  lemma {:induction false} StartKeeps(tree: Tree, s: State, n: NodeId, fork: Fork)
    requires WellFormed(tree) && FreshPids(fork) && Stable(tree, s) && n < |tree|
    ensures var (t, i) := Startup(tree, s, n, fork); var r := Inst(n, i);
      && Stable(tree, t) && Started(tree, s, n, t, r, {}, {})
      && IsRoot(t.life, r)
      && Weight(tree, t.life) == Weight(tree, s.life) + Leaves(tree, n)
  {
    assert AllExternal(Pending(s, n)) && HandlersOk(tree, n, Pending(s, n));
    StartupKeeps(tree, s, n, fork, {}, {});
    StartupAdds(tree, s, n, fork, {}, {});
    var (t, i) := Startup(tree, s, n, fork);
    assert Inv(tree, t.life, {}, {Inst(n, i)});
    forall y | y in t.life.instances ensures Up(t.life, y) {
      assert y != Inst(n, i) ==> Up(t.life, y);
    }
  }

  /** `r` was started from outside the tree. */
  predicate IsRoot(l: Life, r: Inst) {
    r in l.instances && AllExternal(l.instances[r])
  }

  lemma {:induction false} RootIsRoot(tree: Tree, l: Life, y: Inst)
    requires Inv(tree, l, {}, {}) && y in l.instances
    ensures IsRoot(l, Root(l.instances, y))
    decreases y.node
  {
    assert TableOk(tree, l, y) && Up(l, y);
    var hs := l.instances[y];
    if Owned(l.instances, y) {
      RootIsRoot(tree, l, OwnerOf(l.instances, y));
    } else {
      assert forall k | 0 <= k < |hs| - 1 :: hs[k] == hs[..|hs| - 1][k];
    }
  }

  /** What was running keeps its root and path when something is started. */
  lemma {:induction false} StartPaths(tree: Tree, l: Life, t: Life, n: NodeId, y: Inst)
    requires Inv(tree, l, {}, {}) && Grows(tree, l, t, n, {}) && y in l.instances
    ensures Root(l.instances, y) == Root(t.instances, y) && PathIn(l, y) == PathIn(t, y)
  {
    forall z | z in l.instances && Owned(l.instances, z)
      ensures OwnerOf(l.instances, z) in l.instances
      ensures Stage(l.sequences, OwnerOf(l.instances, z)) == Stage(t.sequences, OwnerOf(l.instances, z))
    {
      assert Up(l, z);
      assert SameTables(l, t, OwnerOf(l.instances, z));
    }
    PathKept(l, t, y, l.instances.Keys);
  }

  /** A run that does not exist is on every script. */
  lemma {:induction false} NoRunOnScript(tree: Tree, s: State, root: Inst, script: Script)
    requires WellFormed(tree) && Stable(tree, s) && root !in s.life.instances
    ensures OnScript(tree, s.life, root, script, {})
  {
    forall z | z in s.life.instances ensures Root(s.life.instances, z) != root {
      RootIsRoot(tree, s.life, z);
    }
  }

  /** A start changes nothing for what runs, and what it adds is at its start. */
  lemma {:induction false} StartMeans(tree: Tree, s: State, n: NodeId, fork: Fork, root: Inst, script: Script)
    requires WellFormed(tree) && FreshPids(fork) && Stable(tree, s) && n < |tree|
    requires OnScript(tree, s.life, root, script, {})
    ensures OnScript(tree, Startup(tree, s, n, fork).0.life, root, script, {})
  {
    StartKeeps(tree, s, n, fork);
    var (t, i) := Startup(tree, s, n, fork);
    forall z | z in t.life.instances && Root(t.life.instances, z) == root ensures PastStagesZero(tree, t.life, z, script) {
      if z in s.life.instances {
        StartPaths(tree, s.life, t.life, n, z);
        assert SameTables(s.life, t.life, z) && PastStagesZero(tree, s.life, z, script);
      } else {
        assert AtStart(tree, t.life, z) && TableOk(tree, t.life, z);
        assert z.node < |tree| ==> WellFormedNode(tree, z.node);
      }
    }
  }

  // ---- Runs ----

  datatype Step =
    | Start(n: NodeId)
    | Exit(pid: int, code: int)
    | Link(n: NodeId, fd: nat, extFd: nat)
    | Watch(n: NodeId, tag: int)

  /** A step together with the process ids that the forks in it yield. */
  datatype Move = Move(step: Step, fork: Fork)

  function Next(tree: Tree, s: State, m: Move): State
    requires WellFormed(tree)
  {
    match m.step
    case Start(n) => if n < |tree| then Startup(tree, s, n, m.fork).0 else s
    case Exit(pid, code) => Reap(tree, s, pid, code, m.fork)
    case Link(n, fd, extFd) => s.(fds := LinkFd(s.fds, OfNode(n), fd, extFd))
    case Watch(n, tag) => AddInstanceCompletionHandler(s, n, External(tag))
  }

  function After(tree: Tree, s: State, moves: seq<Move>): State
    requires WellFormed(tree)
    decreases |moves|
  {
    if moves == [] then s else After(tree, Next(tree, s, moves[0]), moves[1..])
  }

  lemma {:induction false} AfterBoth(tree: Tree, s: State, before: seq<Move>, moves: seq<Move>)
    requires WellFormed(tree)
    ensures After(tree, s, before + moves) == After(tree, After(tree, s, before), moves)
    decreases |before|
  {
    if before == [] {
      assert before + moves == moves;
    } else {
      assert (before + moves)[1..] == before[1..] + moves;
      AfterBoth(tree, Next(tree, s, before[0]), before[1..], moves);
    }
  }

  ghost predicate Forks(moves: seq<Move>) {
    forall k | 0 <= k < |moves| :: FreshPids(moves[k].fork)
  }

  /** Nothing runs and nothing is pending. */
  function Initial(fds: Fds): State {
    State(Life(map[], map[], map[], map[], map[]), map[], map[], fds, [])
  }

  lemma {:induction false} NextKeeps(tree: Tree, s: State, m: Move)
    requires WellFormed(tree) && FreshPids(m.fork) && Stable(tree, s)
    ensures Stable(tree, Next(tree, s, m))
  {
    match m.step
    case Start(n) => if n < |tree| { StartKeeps(tree, s, n, m.fork); }
    case Exit(pid, code) => ReapKeeps(tree, s, pid, code, m.fork);
    case Link(n, fd, extFd) =>
    case Watch(n, tag) =>
  }

  lemma {:induction false} InitialStable(tree: Tree, fds: Fds)
    ensures Stable(tree, Initial(fds))
  {
  }

  /** Every state that a run reaches from a stable one is stable. */
  lemma {:induction false} RunsKeep(tree: Tree, s: State, moves: seq<Move>)
    requires WellFormed(tree) && Forks(moves) && Stable(tree, s)
    ensures Stable(tree, After(tree, s, moves))
    decreases |moves|
  {
    if moves != [] {
      NextKeeps(tree, s, moves[0]);
      RunsKeep(tree, Next(tree, s, moves[0]), moves[1..]);
    }
  }

  /** From `l` to `t` survivors keep their handlers, and what was started is at its start. */
  ghost predicate Renews(tree: Tree, l: Life, t: Life) {
    && (forall z | z in l.instances && z in t.instances :: t.instances[z] == l.instances[z])
    && (forall z {:trigger AtStart(tree, t, z)} | z in t.instances && z !in l.instances :: AtStart(tree, t, z))
  }

  lemma {:induction false} MoveRenews(tree: Tree, s: State, m: Move)
    requires WellFormed(tree) && FreshPids(m.fork) && Stable(tree, s)
    ensures Renews(tree, s.life, Next(tree, s, m).life)
  {
    match m.step
    case Start(n) => if n < |tree| { StartKeeps(tree, s, n, m.fork); }
    case Exit(pid, code) => ReapKeeps(tree, s, pid, code, m.fork);
    case Link(n, fd, extFd) =>
    case Watch(n, tag) =>
  }
}
