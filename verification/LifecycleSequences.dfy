/** The history of a running sequence over whole runs: its stages are instances of the nodes of its order,
    one after the other, and each but the current one completed with 0 before the next was started. */
module LifecycleSequences {
  import opened NodeTree
  import opened Descriptors
  import opened Lifecycle
  import opened LifecycleInvariant
  import opened LifecycleStarting
  import opened LifecycleCascade
  import opened LifecycleHistory
  import opened LifecycleRuns

  /** `z` runs before, between and after the moves. */
  ghost predicate RunsThroughout(tree: Tree, s: State, moves: seq<Move>, z: Inst)
    requires WellFormed(tree)
    decreases |moves|
  {
    z in s.life.instances && (moves == [] || RunsThroughout(tree, Next(tree, s, moves[0]), moves[1..], z))
  }

  /** The instances that sequence instance `z` waits for in the course of the moves, one after the other. */
  ghost function StagesOf(tree: Tree, s: State, moves: seq<Move>, z: Inst): seq<Inst>
    requires WellFormed(tree)
    decreases |moves|
  {
    if moves == [] then [Current(s.life, z)]
    else
      var t := Next(tree, s, moves[0]);
      var rest := StagesOf(tree, t, moves[1..], z);
      if SequenceOf(t.life, z) == SequenceOf(s.life, z) then rest else [Current(s.life, z)] + rest
  }

  /** `log` has completions of `stages` with code 0, one after the other. */
  ghost predicate Succeeded(log: seq<Event>, stages: seq<Inst>)
    decreases |stages|
  {
    stages == [] || exists i | 0 <= i < |log| :: log[i] == Completed(stages[0], 0) && Succeeded(log[i + 1..], stages[1..])
  }

  lemma {:induction false} SucceededLater(front: seq<Event>, log: seq<Event>, stages: seq<Inst>)
    requires Succeeded(log, stages)
    ensures Succeeded(front + log, stages)
  {
    if stages != [] {
      var i :| 0 <= i < |log| && log[i] == Completed(stages[0], 0) && Succeeded(log[i + 1..], stages[1..]);
      assert (front + log)[|front| + i] == log[i] && (front + log)[|front| + i + 1..] == log[i + 1..];
    }
  }

  lemma {:induction false} SucceededFirst(front: seq<Event>, log: seq<Event>, y: Inst, stages: seq<Inst>)
    requires Completed(y, 0) in front && Succeeded(log, stages)
    ensures Succeeded(front + log, [y] + stages)
  {
    var i :| 0 <= i < |front| && front[i] == Completed(y, 0);
    assert (front + log)[i + 1..] == front[i + 1..] + log;
    SucceededLater(front[i + 1..], log, stages);
    assert ([y] + stages)[1..] == stages && (front + log)[i] == front[i];
  }

  /** What a move does to a sequence that survives it: nothing, or it goes on to a new instance of its next
      stage.  Then the move is the exit of a process below its current stage, which completed with 0. */
  ghost predicate StagePassed(tree: Tree, s: State, m: Move, t: State, z: Inst)
    requires WellFormed(tree)
  {
    && SequenceOf(t.life, z).stage == SequenceOf(s.life, z).stage + 1
    && m.step.Exit? && m.step.pid in s.life.runningNodes && LivePid(tree, s.life, m.step.pid, {})
    && Above(s.life.instances, Current(s.life, z), PidInst(s.life, m.step.pid))
    && Completed(Current(s.life, z), 0) in NewEvents(s, t)
    && Current(s.life, z) !in t.life.instances && Current(t.life, z) !in s.life.instances
  }

  /** A running sequence waits for an instance of the node at its place in the order. */
  ghost predicate AtStage(tree: Tree, s: State, z: Inst) {
    && z in s.life.sequences && z.node < |tree| && tree[z.node].Sequence?
    && 0 <= s.life.sequences[z].stage < |tree[z.node].order|
    && Current(s.life, z).node == tree[z.node].order[s.life.sequences[z].stage]
  }

  lemma {:induction false} MovePasses(tree: Tree, s: State, m: Move, z: Inst)
    requires WellFormed(tree) && FreshPids(m.fork) && Stable(tree, s)
    requires z in s.life.instances && z.node < |tree| && tree[z.node].Sequence? && z in Next(tree, s, m).life.instances
    ensures var t := Next(tree, s, m);
      && AtStage(tree, s, z) && AtStage(tree, t, z)
      && (SequenceOf(t.life, z) == SequenceOf(s.life, z) || StagePassed(tree, s, m, t, z))
    ensures s.log <= Next(tree, s, m).log
  {
    var t := Next(tree, s, m);
    NextKeeps(tree, s, m);
    assert Down(tree, s.life, z) && Down(tree, t.life, z);
    match m.step
    case Start(n) =>
      if n < |tree| {
        StartKeeps(tree, s, n, m.fork);
        assert SameTables(s.life, t.life, z);
      }
    case Exit(pid, code) =>
      SequencesMoveByOwnStage(tree, s, pid, code, m.fork, z);
      if pid in s.life.runningNodes {
        ReapLogs(tree, s, pid, code, m.fork);
      }
    case Link(n, fd, extFd) =>
    case Watch(n, tag) =>
  }

  /** `stages` are instances of the nodes of `order` from position `first` on, from `from` up to `to`. */
  predicate InOrder(order: seq<NodeId>, first: nat, stages: seq<Inst>, from: Inst, to: Inst) {
    && stages != [] && first + |stages| <= |order|
    && (forall j | 0 <= j < |stages| :: stages[j].node == order[first + j])
    && stages[0] == from && stages[|stages| - 1] == to
  }

  /** The stages that `z` waited for from `s` to `t`. */
  ghost predicate Passed(tree: Tree, s: State, t: State, z: Inst, stages: seq<Inst>) {
    && AtStage(tree, s, z) && AtStage(tree, t, z) && s.log <= t.log
    && InOrder(tree[z.node].order, s.life.sequences[z].stage, stages, Current(s.life, z), Current(t.life, z))
    && |stages| == t.life.sequences[z].stage - s.life.sequences[z].stage + 1
    && Succeeded(NewEvents(s, t), stages[..|stages| - 1])
  }

  /** Over every run that a sequence survives, with any number of overlapping instances: it waited for
      instances of successive nodes of its order, without skipping or repeating one, and all of them
      but the last completed with 0, in this order. */
  lemma {:induction false} StagesPassInOrder(tree: Tree, s: State, moves: seq<Move>, z: Inst)
    requires WellFormed(tree) && Forks(moves) && Stable(tree, s)
    requires z.node < |tree| && tree[z.node].Sequence? && RunsThroughout(tree, s, moves, z)
    ensures Passed(tree, s, After(tree, s, moves), z, StagesOf(tree, s, moves, z))
    decreases |moves|
  {
    if moves == [] {
      assert Down(tree, s.life, z);
    } else {
      var t := Next(tree, s, moves[0]);
      MovePasses(tree, s, moves[0], z);
      NextKeeps(tree, s, moves[0]);
      StagesPassInOrder(tree, t, moves[1..], z);
      PassedBefore(tree, s, moves[0], t, After(tree, s, moves), z, StagesOf(tree, t, moves[1..], z));
    }
  }

  lemma {:induction false} PassedBefore(tree: Tree, s: State, m: Move, t: State, u: State, z: Inst, stages: seq<Inst>)
    requires WellFormed(tree) && AtStage(tree, s, z) && s.log <= t.log && Passed(tree, t, u, z, stages)
    requires SequenceOf(t.life, z) == SequenceOf(s.life, z) || StagePassed(tree, s, m, t, z)
    ensures Passed(tree, s, u, z, if SequenceOf(t.life, z) == SequenceOf(s.life, z) then stages else [Current(s.life, z)] + stages)
  {
    EventsBoth(s.log, t.log, u.log);
    if SequenceOf(t.life, z) == SequenceOf(s.life, z) {
      SucceededLater(NewEvents(s, t), NewEvents(t, u), stages[..|stages| - 1]);
    } else {
      OneMoreStage(tree[z.node].order, t.life.sequences[z].stage, stages, Current(t.life, z), Current(u.life, z), Current(s.life, z));
      SucceededFirst(NewEvents(s, t), NewEvents(t, u), Current(s.life, z), stages[..|stages| - 1]);
    }
  }

  lemma {:induction false} OneMoreStage(order: seq<NodeId>, first: nat, stages: seq<Inst>, from: Inst, to: Inst, y: Inst)
    requires InOrder(order, first, stages, from, to) && first > 0 && y.node == order[first - 1]
    ensures InOrder(order, first - 1, [y] + stages, y, to)
    ensures ([y] + stages)[..|stages|] == [y] + stages[..|stages| - 1]
  {
  }

  lemma {:induction false} EventsBoth(a: seq<Event>, b: seq<Event>, c: seq<Event>)
    requires a <= b <= c
    ensures a <= c && c[|a|..] == b[|a|..] + c[|b|..]
  {
  }

  /** The whole history of a sequence instance, from the move that starts it: what it has started is a
      prefix of its order, a new instance of each node in turn, and when it is at stage `k` the first `k`
      of them have completed with 0, one after the other. */
  lemma {:induction false} SequencesStartPrefixes(tree: Tree, s: State, m: Move, moves: seq<Move>, z: Inst)
    requires WellFormed(tree) && FreshPids(m.fork) && Forks(moves) && Stable(tree, s)
    requires z !in s.life.instances && z.node < |tree| && tree[z.node].Sequence?
    requires RunsThroughout(tree, Next(tree, s, m), moves, z)
    ensures var t := Next(tree, s, m); var u := After(tree, t, moves); var stages := StagesOf(tree, t, moves, z);
      && AtStage(tree, u, z) && |stages| == u.life.sequences[z].stage + 1
      && InOrder(tree[z.node].order, 0, stages, Current(t.life, z), Current(u.life, z))
      && t.log <= u.log && Succeeded(NewEvents(t, u), stages[..|stages| - 1])
  {
    var t := Next(tree, s, m);
    NextKeeps(tree, s, m);
    MoveRenews(tree, s, m);
    assert AtStart(tree, t.life, z);
    StagesPassInOrder(tree, t, moves, z);
  }
}
