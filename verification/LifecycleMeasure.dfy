/** How many process exits the running instances can still need. */
module LifecycleMeasure {
  import opened NodeTree
  import opened Descriptors
  import opened Lifecycle
  import opened LifecycleInvariant
  import opened LifecycleStarting
  import opened LifecycleFinishing

  /** The leaves of the stages that sequence instance `x` has not started. */
  function Unstarted(tree: Tree, x: Inst, r: RunningSequence): nat
    requires WellFormed(tree)
  {
    if x.node < |tree| && tree[x.node].Sequence? && 0 <= r.stage + 1 <= |tree[x.node].order|
    then LeavesFrom(tree, x.node, r.stage + 1) else 0
  }

  ghost function Sum(tree: Tree, seqs: map<Inst, RunningSequence>): nat
    requires WellFormed(tree)
    decreases |seqs|
  {
    if seqs == map[] then 0
    else
      var x :| x in seqs;
      Unstarted(tree, x, seqs[x]) + Sum(tree, seqs - {x})
  }

  /** Live processes plus the leaves of all unstarted stages. */
  ghost function Weight(tree: Tree, l: Life): nat
    requires WellFormed(tree)
  {
    |l.runningNodes| + Sum(tree, l.sequences)
  }

  lemma {:induction false} SumWithout(tree: Tree, seqs: map<Inst, RunningSequence>, x: Inst)
    requires WellFormed(tree) && x in seqs
    ensures Sum(tree, seqs) == Unstarted(tree, x, seqs[x]) + Sum(tree, seqs - {x})
    decreases |seqs|
  {
    var y :| y in seqs && Sum(tree, seqs) == Unstarted(tree, y, seqs[y]) + Sum(tree, seqs - {y});
    if y != x {
      SumWithout(tree, seqs - {y}, x);
      SumWithout(tree, seqs - {x}, y);
      assert seqs - {y} - {x} == seqs - {x} - {y};
    }
  }

  lemma {:induction false} SumUpdate(tree: Tree, seqs: map<Inst, RunningSequence>, x: Inst, r: RunningSequence)
    requires WellFormed(tree)
    ensures Sum(tree, seqs[x := r]) + (if x in seqs then Unstarted(tree, x, seqs[x]) else 0)
      == Sum(tree, seqs) + Unstarted(tree, x, r)
  {
    SumWithout(tree, seqs[x := r], x);
    assert seqs[x := r] - {x} == seqs - {x};
    if x in seqs {
      SumWithout(tree, seqs, x);
    } else {
      assert seqs - {x} == seqs;
    }
  }

  // ---- Starting adds the leaves of what is started ----

  lemma {:induction false} StartupAdds(tree: Tree, s: State, n: NodeId, fork: Fork, down: set<Inst>, up: set<Inst>)
    requires WellFormed(tree) && FreshPids(fork) && n < |tree|
    requires Inv(tree, s.life, down, up) && down <= s.life.instances.Keys && up <= s.life.instances.Keys
    requires HandlersOk(tree, n, Pending(s, n)) && (forall m | m in s.pending && m != n :: AllExternal(s.pending[m]))
    ensures Weight(tree, Startup(tree, s, n, fork).0.life) == Weight(tree, s.life) + Leaves(tree, n)
    decreases |tree| - n, 2, 0
  {
    FreshNumber(s.life, n);
    var x := Inst(n, FirstFree(Numbers(s.life, n), 0));
    var s1 := s.(life := Appear(s.life, x, Pending(s, n)), pending := s.pending[n := []]);
    AppearKeeps(tree, s.life, x, Pending(s, n), down, up);
    match tree[n]
    case Executable => StartProcessAdds(tree, s1, x, fork);
    case Launch(_, _, _) => StartLaunchAdds(tree, s1, x, fork, down, up + {x});
    case Sequence(_) => StartSequenceAdds(tree, s1, x, fork, down, up + {x});
  }

  lemma {:induction false} StartProcessAdds(tree: Tree, s: State, x: Inst, fork: Fork)
    requires WellFormed(tree) && FreshPids(fork)
    ensures Weight(tree, StartProcess(s, x, fork).life) == Weight(tree, s.life) + 1
  {
    assert fork(s.life.runningNodes.Keys) !in s.life.runningNodes;
  }

  lemma {:induction false} StartLaunchAdds(tree: Tree, s: State, x: Inst, fork: Fork, down: set<Inst>, up: set<Inst>)
    requires WellFormed(tree) && FreshPids(fork) && x.node < |tree| && tree[x.node].Launch?
    requires Inv(tree, s.life, down + {x}, up) && down <= s.life.instances.Keys && up <= s.life.instances.Keys
    requires x in s.life.instances && x !in down && x in up && NobodyCalls(s.life, x, up) && PendingOk(s)
    ensures Weight(tree, StartInstance(tree, s, x, fork).life) == Weight(tree, s.life) + LeavesFrom(tree, x.node, 0)
    decreases |tree| - x.node, 1, 0
  {
    var f := PassExternals(WireLinks(s.fds, tree[x.node].links), OfNode(x.node), tree[x.node].externals);
    var s1 := s.(fds := f, life := SetAwaited(s.life, x, map[]));
    OpenLaunch(tree, s.life, x, down, up);
    StartMembersAdds(tree, s1, x, 0, fork, down, up);
  }

  lemma {:induction false} StartMembersAdds(tree: Tree, s: State, x: Inst, k: nat, fork: Fork, down: set<Inst>, up: set<Inst>)
    requires WellFormed(tree) && FreshPids(fork)
    requires Filling(tree, s, x, k, down, up)
    ensures Weight(tree, StartMembers(tree, s, x, k, fork).life) == Weight(tree, s.life) + LeavesFrom(tree, x.node, k)
    decreases |tree| - x.node, 0, |tree[x.node].members| - k, 1
  {
    if k < |tree[x.node].members| {
      assert WellFormedNode(tree, x.node) && tree[x.node].members[k] == Parts(tree[x.node])[k];
      StartMemberAdds(tree, s, x, k, fork, down, up);
      StartMemberKeeps(tree, s, x, k, fork, down, up);
      StartMembersAdds(tree, StartMember(tree, s, x, k, fork), x, k + 1, fork, down, up);
    }
  }

  lemma {:induction false} StartMemberAdds(tree: Tree, s: State, x: Inst, k: nat, fork: Fork, down: set<Inst>, up: set<Inst>)
    requires WellFormed(tree) && FreshPids(fork)
    requires Filling(tree, s, x, k, down, up) && k < |tree[x.node].members|
    requires tree[x.node].members[k] < |tree|
    ensures Weight(tree, StartMember(tree, s, x, k, fork).life) == Weight(tree, s.life) + Leaves(tree, tree[x.node].members[k])
    decreases |tree| - x.node, 0, |tree[x.node].members| - k, 0
  {
    assert WellFormedNode(tree, x.node) && tree[x.node].members[k] == Parts(tree[x.node])[k];
    var c := tree[x.node].members[k];
    var s0 := AddInstanceCompletionHandler(s, c, SubNodeDeath(x));
    assert HandlersOk(tree, c, Pending(s0, c)) && (forall m | m in s0.pending && m != c :: AllExternal(s0.pending[m])) by {
      HandlerAdded(tree, s, c, SubNodeDeath(x));
    }
    StartupAdds(tree, s0, c, fork, down + {x}, up);
  }

  lemma {:induction false} StartSequenceAdds(tree: Tree, s: State, x: Inst, fork: Fork, down: set<Inst>, up: set<Inst>)
    requires WellFormed(tree) && FreshPids(fork) && x.node < |tree| && tree[x.node].Sequence?
    requires Inv(tree, s.life, down + {x}, up) && down <= s.life.instances.Keys && up <= s.life.instances.Keys
    requires x in s.life.instances && x !in down && x !in s.life.sequences && NobodyCalls(s.life, x, up) && PendingOk(s)
    ensures Weight(tree, StartInstance(tree, s, x, fork).life) == Weight(tree, s.life) + LeavesFrom(tree, x.node, 0)
    decreases |tree| - x.node, 1, 0
  {
    assert WellFormedNode(tree, x.node);
    var s1 := s.(life := SetSequence(s.life, x, RunningSequence(-1, 0, 0)));
    var s2 := s1.(fds := PassFds(s1.fds, OfNode(x.node), OfSequence(x)));
    SumUpdate(tree, s.life.sequences, x, RunningSequence(-1, 0, 0));
    OpenSequence(tree, s.life, x, RunningSequence(-1, 0, 0), down, up);
    StartStageAdds(tree, s2, x, 0, fork, down, up);
  }

  /** Starting the next stage only moves its leaves from unstarted to started. */
  lemma {:induction false} StartStageAdds(tree: Tree, s: State, x: Inst, k: nat, fork: Fork, down: set<Inst>, up: set<Inst>)
    requires WellFormed(tree) && FreshPids(fork)
    requires x.node < |tree| && tree[x.node].Sequence? && k < |tree[x.node].order|
    requires Inv(tree, s.life, down + {x}, up) && down <= s.life.instances.Keys && up <= s.life.instances.Keys
    requires x in s.life.instances && x !in down && PendingOk(s) && NobodyCalls(s.life, x, up)
    requires x in s.life.sequences && s.life.sequences[x].stage == k - 1
    ensures Weight(tree, StartStage(tree, s, x, k, fork).life) == Weight(tree, s.life)
    decreases |tree| - x.node, 0, 0
  {
    assert WellFormedNode(tree, x.node);
    var c := Parts(tree[x.node])[k];
    var s1 := PrepareStage(s, x, k, c);
    PrepareStageWeighs(tree, s, x, k, c);
    PrepareStageKeeps(tree, s, x, k, c, down, up);
    StartupAdds(tree, s1, c, fork, down + {x}, up);
    StartupKeeps(tree, s1, c, fork, down + {x}, up);
    var (s2, i) := Startup(tree, s1, c, fork);
    assert SameTables(s1.life, s2.life, x);
    CurrentInstWeighs(tree, s2.life, x, i);
  }

  lemma {:induction false} PrepareStageWeighs(tree: Tree, s: State, x: Inst, k: nat, c: NodeId)
    requires WellFormed(tree) && x.node < |tree| && tree[x.node].Sequence? && k < |tree[x.node].order|
    requires c == tree[x.node].order[k] && c < |tree| && x in s.life.sequences && s.life.sequences[x].stage == k - 1
    ensures Weight(tree, PrepareStage(s, x, k, c).life) + Leaves(tree, c) == Weight(tree, s.life)
  {
    var r := s.life.sequences[x];
    StageMoves(tree, x, r, k, c);
    SumUpdate(tree, s.life.sequences, x, r.(stage := k, currentNode := c));
    assert PrepareStage(s, x, k, c).life == SetSequence(s.life, x, r.(stage := k, currentNode := c));
  }

  lemma {:induction false} StageMoves(tree: Tree, x: Inst, r: RunningSequence, k: nat, c: NodeId)
    requires WellFormed(tree) && x.node < |tree| && tree[x.node].Sequence? && k < |tree[x.node].order|
    requires c == tree[x.node].order[k] && c < |tree| && r.stage == k - 1
    ensures Unstarted(tree, x, r.(stage := k, currentNode := c)) + Leaves(tree, c) == Unstarted(tree, x, r)
  {
  }

  lemma {:induction false} CurrentInstWeighs(tree: Tree, l: Life, x: Inst, i: nat)
    requires WellFormed(tree) && x in l.sequences
    ensures Weight(tree, SetSequence(l, x, SequenceOf(l, x).(currentInst := i))) == Weight(tree, l)
  {
    SumUpdate(tree, l.sequences, x, SequenceOf(l, x).(currentInst := i));
    SameUnstarted(tree, x, SequenceOf(l, x), i);
  }

  lemma {:induction false} SameUnstarted(tree: Tree, x: Inst, r: RunningSequence, i: nat)
    requires WellFormed(tree)
    ensures Unstarted(tree, x, r.(currentInst := i)) == Unstarted(tree, x, r)
  {
  }

  // ---- Finishing never adds ----

  ghost predicate NoMore(tree: Tree, before: Life, after: Life, code: int)
    requires WellFormed(tree)
  {
    Weight(tree, after) <= Weight(tree, before) && (code == 0 ==> Weight(tree, after) == Weight(tree, before))
  }

  lemma {:induction false} FinishWeighs(tree: Tree, s: State, x: Inst, code: int, fork: Fork, down: set<Inst>)
    requires WellFormed(tree) && FreshPids(fork)
    requires Inv(tree, s.life, down, down) && Dying(s.life, x, down) && Up(s.life, x) && PendingOk(s)
    ensures NoMore(tree, s.life, FinishInstance(tree, s, x, code, fork).life, code)
    decreases x.node, 2, 0
  {
    var s1 := s.(log := s.log + [Completed(x, code)]);
    assert TableOk(tree, s.life, x);
    CallHandlersWeigh(tree, s1, x, code, s.life.instances[x], fork, down);
  }

  lemma {:induction false} CallHandlersWeigh(tree: Tree, s: State, x: Inst, code: int, hs: seq<Handler>, fork: Fork, down: set<Inst>)
    requires WellFormed(tree) && FreshPids(fork)
    requires Inv(tree, s.life, down, down) && Dying(s.life, x, down) && Up(s.life, x) && PendingOk(s)
    requires HandlersOk(tree, x.node, hs) && LastHandler(hs) == LastHandler(s.life.instances[x])
    ensures NoMore(tree, s.life, CallHandlers(tree, s, x, code, hs, fork).life, code)
    decreases x.node, 1, |hs|
  {
    assert TableOk(tree, s.life, x);
    if hs == [] {
    } else if |hs| == 1 {
      assert LastHandler(hs) == hs[0];
      match hs[0]
      case External(tag) =>
      case SubNodeDeath(p) => OnSubNodeDeathWeighs(tree, s, p, x, fork, down);
      case Proceed(p) => ProceedWeighs(tree, s, p, x, code, fork, down);
    } else {
      assert AllExternal(hs[..|hs| - 1]) && hs[0] == hs[..|hs| - 1][0];
      TailOk(tree, x.node, hs);
      CallHandlersWeigh(tree, CallHandler(tree, s, x, code, hs[0], fork), x, code, hs[1..], fork, down);
    }
  }

  lemma {:induction false} OnSubNodeDeathWeighs(tree: Tree, s: State, p: Inst, x: Inst, fork: Fork, down: set<Inst>)
    requires WellFormed(tree) && FreshPids(fork)
    requires Inv(tree, s.life, down, down) && Dying(s.life, x, down) && Up(s.life, x) && PendingOk(s)
    requires LastHandler(s.life.instances[x]) == SubNodeDeath(p) && p.node < x.node
    ensures NoMore(tree, s.life, OnSubNodeDeath(tree, s, p, x.node, fork).life, 0)
    decreases p.node, 3, 0
  {
    var left := Awaited(s.life, p) - {x.node};
    if left == map[] {
      MemberDies(tree, s.life, p, x, down, down + {p});
      FinishWeighs(tree, s.(life := SetAwaited(s.life, p, left)), p, 0, fork, down + {p});
    }
  }

  lemma {:induction false} ProceedWeighs(tree: Tree, s: State, p: Inst, x: Inst, code: int, fork: Fork, down: set<Inst>)
    requires WellFormed(tree) && FreshPids(fork)
    requires Inv(tree, s.life, down, down) && Dying(s.life, x, down) && Up(s.life, x) && PendingOk(s)
    requires LastHandler(s.life.instances[x]) == Proceed(p) && p.node < x.node
    ensures NoMore(tree, s.life, ProceedWith(tree, s, p, code, fork).life, code)
    decreases p.node, 3, 0
  {
    assert TableOk(tree, s.life, x);
    StageDies(tree, s.life, p, x, down);
    var stage := SequenceOf(s.life, p).stage + 1;
    if code != 0 || stage >= |Order(tree, p.node)| {
      StopWeighs(tree, s, p, x, code, fork, down);
    } else {
      GoOnWeighs(tree, s, p, stage, fork, down);
    }
  }

  lemma {:induction false} GoOnWeighs(tree: Tree, s: State, p: Inst, stage: nat, fork: Fork, down: set<Inst>)
    requires WellFormed(tree) && FreshPids(fork) && Inv(tree, s.life, down, down) && down <= s.life.instances.Keys && PendingOk(s)
    requires p in s.life.instances && p !in down && p.node < |tree| && tree[p.node].Sequence? && NobodyCalls(s.life, p, down)
    requires p in s.life.sequences && stage == s.life.sequences[p].stage + 1 < |tree[p.node].order|
    ensures NoMore(tree, s.life, StartStage(tree, s, p, stage, fork).life, 0)
  {
    MoreDown(tree, s.life, p, down);
    StartStageAdds(tree, s, p, stage, fork, down, down);
  }

  lemma {:induction false} StopWeighs(tree: Tree, s: State, p: Inst, x: Inst, code: int, fork: Fork, down: set<Inst>)
    requires WellFormed(tree) && FreshPids(fork)
    requires Inv(tree, s.life, down, down) && Dying(s.life, x, down) && PendingOk(s)
    requires p in s.life.instances && p !in down && p.node < |tree| && tree[p.node].Sequence? && p.node < x.node
    requires p in s.life.sequences && 0 <= s.life.sequences[p].stage < |tree[p.node].order| && NobodyCalls(s.life, p, down)
    requires code != 0 || s.life.sequences[p].stage + 1 >= |tree[p.node].order|
    ensures NoMore(tree, s.life, ProceedWith(tree, s, p, code, fork).life, code)
    decreases p.node, 2, 1
  {
    var s1 := s.(life := DropSequence(s.life, p), fds := CloseFds(s.fds, OfSequence(p)));
    DropWeighs(tree, s.life, p, code);
    SequenceStops(tree, s.life, p, x, down);
    FinishWeighs(tree, s1, p, code, fork, down + {p});
  }

  lemma {:induction false} DropWeighs(tree: Tree, l: Life, p: Inst, code: int)
    requires WellFormed(tree) && p.node < |tree| && tree[p.node].Sequence?
    requires p in l.sequences && 0 <= l.sequences[p].stage < |tree[p.node].order|
    requires code != 0 || l.sequences[p].stage + 1 >= |tree[p.node].order|
    ensures NoMore(tree, l, DropSequence(l, p), code)
  {
    SumWithout(tree, l.sequences, p);
  }

  // ---- Progress ----

  /** Below every running instance some process is live. */
  lemma {:induction false} SomeProcess(tree: Tree, l: Life, x: Inst) returns (pid: int)
    requires WellFormed(tree) && Inv(tree, l, {}, {}) && x in l.instances
    ensures pid in l.runningNodes
    decreases |tree| - x.node
  {
    assert TableOk(tree, l, x) && Down(tree, l, x) && WellFormedNode(tree, x.node);
    match tree[x.node]
    case Executable =>
      pid :| Runs(l, pid, x);
    case Launch(members, _, _) =>
      var c :| c in Awaited(l, x);
      assert EntryOk(l, x, members, c);
      assert TableOk(tree, l, Inst(c, Awaited(l, x)[c]));
      pid := SomeProcess(tree, l, Inst(c, Awaited(l, x)[c]));
    case Sequence(order) =>
      var y := Inst(l.sequences[x].currentNode, l.sequences[x].currentInst);
      assert TableOk(tree, l, y);
      pid := SomeProcess(tree, l, y);
  }
}
