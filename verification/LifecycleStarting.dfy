/** Starting a node keeps the invariant and disturbs nothing that was there. */
module LifecycleStarting {
  import opened NodeTree
  import opened Descriptors
  import opened Lifecycle
  import opened LifecycleInvariant

  /** Instance `x` has not gone on since it was started: a sequence is at its first stage, a launch
      waits for all its members. */
  predicate AtStart(tree: Tree, l: Life, x: Inst) {
    && (x in l.sequences ==> l.sequences[x].stage == 0)
    && (x.node < |tree| && tree[x.node].Launch? ==> forall c | c in tree[x.node].members :: c in Awaited(l, x))
  }

  /** From `l` to `t` instances were only added, at nodes from `n` on, and apart from the tables of
      the instances in `open` nothing that was there changed; what was added is at its start. */
  ghost predicate Grows(tree: Tree, l: Life, t: Life, n: NodeId, open: set<Inst>) {
    && Stay(l, t, {})
    && (forall x | x in t.instances && x !in l.instances :: x.node >= n)
    && (forall x {:trigger SameTables(l, t, x)} | x in l.instances && x !in open :: SameTables(l, t, x))
    && (forall x {:trigger AtStart(tree, t, x)} | x in t.instances && x !in l.instances :: AtStart(tree, t, x))
    && (forall pid, x {:trigger Runs(t, pid, x)} {:trigger Runs(l, pid, x)} | x in l.instances && Runs(l, pid, x) :: Runs(t, pid, x))
  }

  lemma {:induction false} GrowsTransitive(tree: Tree, l: Life, m: Life, t: Life, n: NodeId, n': NodeId, open: set<Inst>, open': set<Inst>)
    requires Grows(tree, l, m, n, open) && Grows(tree, m, t, n', open') && n <= n' && open' <= l.instances.Keys
    ensures Grows(tree, l, t, n, open + open')
  {
    forall x | x in t.instances && x !in l.instances ensures AtStart(tree, t, x) {
      if x in m.instances {
        assert AtStart(tree, m, x) && SameTables(m, t, x);
      }
    }
    forall x | x in l.instances && x !in open + open' ensures SameTables(l, t, x) {
      assert SameTables(l, m, x) && SameTables(m, t, x);
    }
  }

  predicate PendingOk(s: State) {
    forall m | m in s.pending :: AllExternal(s.pending[m])
  }

  /** Handlers pending on nodes below number `m` are untouched, and nothing was reported. */
  ghost predicate Quiet(s: State, t: State, m: NodeId) {
    t.log == s.log && forall k: NodeId | k < m :: Pending(t, k) == Pending(s, k)
  }

  lemma {:induction false} FreshNumber(l: Life, n: NodeId)
    ensures Inst(n, FirstFree(Numbers(l, n), 0)) !in l.instances
  {
    var i := FirstFree(Numbers(l, n), 0);
    assert Inst(n, i) in l.instances ==> Inst(n, i).num in Numbers(l, n);
  }

  /** An instance is started under the least number, from 0, that no running instance of its node has. */
  lemma {:induction false} LeastNumber(tree: Tree, s: State, n: NodeId, fork: Fork)
    requires WellFormed(tree) && n < |tree|
    ensures var i := Startup(tree, s, n, fork).1;
      Inst(n, i) !in s.life.instances && forall j | 0 <= j < i :: Inst(n, j) in s.life.instances
  {
    FreshNumber(s.life, n);
    forall j | 0 <= j < FirstFree(Numbers(s.life, n), 0) ensures Inst(n, j) in s.life.instances {
      assert j in Numbers(s.life, n);
    }
  }

  /** What starting node `n` gives: one fresh instance that took over the pending handlers of the
      node, is fully set up, and that nobody waits for yet. */
  ghost predicate Started(tree: Tree, s: State, n: NodeId, t: State, x: Inst, down: set<Inst>, up: set<Inst>) {
    && x.node == n && x !in s.life.instances
    && x in t.life.instances && t.life.instances[x] == Pending(s, n)
    && Inv(tree, t.life, down, up + {x})
    && Grows(tree, s.life, t.life, n, {})
    && (forall z | z in t.life.instances && z !in s.life.instances && z.node == n :: z == x)
    && PendingOk(t) && Pending(t, n) == [] && Quiet(s, t, n)
  }

  lemma {:induction false} StartupKeeps(tree: Tree, s: State, n: NodeId, fork: Fork, down: set<Inst>, up: set<Inst>)
    requires WellFormed(tree) && FreshPids(fork) && n < |tree|
    requires Inv(tree, s.life, down, up) && down <= s.life.instances.Keys && up <= s.life.instances.Keys
    requires HandlersOk(tree, n, Pending(s, n)) && (forall m | m in s.pending && m != n :: AllExternal(s.pending[m]))
    ensures var (t, i) := Startup(tree, s, n, fork); Started(tree, s, n, t, Inst(n, i), down, up)
    decreases |tree| - n, 2, 0
  {
    FreshNumber(s.life, n);
    var x := Inst(n, FirstFree(Numbers(s.life, n), 0));
    var s1 := s.(life := Appear(s.life, x, Pending(s, n)), pending := s.pending[n := []]);
    AppearKeeps(tree, s.life, x, Pending(s, n), down, up);
    StartInstanceKeeps(tree, s1, x, fork, down, up + {x});
    var t := StartInstance(tree, s1, x, fork);
    AppearGrows(tree, s.life, x, Pending(s, n), t.life);
    AppearQuiet(s, x, s1, t);
  }

  lemma {:induction false} AppearQuiet(s: State, x: Inst, s1: State, t: State)
    requires s1.pending == s.pending[x.node := []] && s1.log == s.log && Quiet(s1, t, x.node + 1)
    ensures Quiet(s, t, x.node) && Pending(t, x.node) == []
  {
    assert Pending(s1, x.node) == [];
    assert forall k: NodeId | k < x.node :: Pending(s1, k) == Pending(s, k);
  }

  lemma {:induction false} AppearGrows(tree: Tree, l: Life, x: Inst, hs: seq<Handler>, t: Life)
    requires x !in l.instances && Grows(tree, Appear(l, x, hs), t, x.node + 1, {x})
    requires AtStart(tree, t, x)
    ensures Grows(tree, l, t, x.node, {}) && x in t.instances && t.instances[x] == hs
    ensures forall z | z in t.instances && z !in l.instances && z.node == x.node :: z == x
  {
    var m := Appear(l, x, hs);
    forall y | y in l.instances ensures SameTables(l, t, y) && y in t.instances && t.instances[y] == l.instances[y] {
      assert y in m.instances && SameTables(m, t, y);
    }
    forall y | y in t.instances && y !in l.instances ensures y.node >= x.node {
      assert y == x || y !in m.instances;
    }
    forall y | y in t.instances && y !in l.instances ensures AtStart(tree, t, y) {
      assert y == x || y !in m.instances;
    }
    assert forall z | z in t.instances && z !in m.instances :: z.node >= x.node + 1;
    forall pid, y | y in l.instances && Runs(l, pid, y) ensures Runs(t, pid, y) {
      assert Runs(m, pid, y);
    }
  }

  /** What setting up instance `x` gives. */
  ghost predicate SetUp(tree: Tree, s: State, t: State, x: Inst, down: set<Inst>, up: set<Inst>) {
    && Inv(tree, t.life, down, up)
    && Grows(tree, s.life, t.life, x.node + 1, {x})
    && PendingOk(t) && Quiet(s, t, x.node + 1)
  }

  lemma {:induction false} StartInstanceKeeps(tree: Tree, s: State, x: Inst, fork: Fork, down: set<Inst>, up: set<Inst>)
    requires WellFormed(tree) && FreshPids(fork) && x.node < |tree|
    requires Inv(tree, s.life, down + {x}, up) && down <= s.life.instances.Keys && up <= s.life.instances.Keys
    requires x in s.life.instances && x !in down && x in up
    requires x !in s.life.launches && x !in s.life.sequences && NobodyCalls(s.life, x, up)
    requires PendingOk(s)
    ensures SetUp(tree, s, StartInstance(tree, s, x, fork), x, down, up)
    ensures AtStart(tree, StartInstance(tree, s, x, fork).life, x)
    decreases |tree| - x.node, 1, 0, 1
  {
    match tree[x.node]
    case Executable => StartProcessKeeps(tree, s, x, fork, down, up);
    case Launch(_, _, _) => StartLaunchKeeps(tree, s, x, fork, down, up);
    case Sequence(_) => StartSequenceKeeps(tree, s, x, fork, down, up);
  }

  lemma {:induction false} StartLaunchKeeps(tree: Tree, s: State, x: Inst, fork: Fork, down: set<Inst>, up: set<Inst>)
    requires WellFormed(tree) && FreshPids(fork) && x.node < |tree| && tree[x.node].Launch?
    requires Inv(tree, s.life, down + {x}, up) && down <= s.life.instances.Keys && up <= s.life.instances.Keys
    requires x in s.life.instances && x !in down && x in up && NobodyCalls(s.life, x, up) && PendingOk(s)
    ensures SetUp(tree, s, StartInstance(tree, s, x, fork), x, down, up)
    ensures AtStart(tree, StartInstance(tree, s, x, fork).life, x)
    decreases |tree| - x.node, 1, 0, 0
  {
    var f := PassExternals(WireLinks(s.fds, tree[x.node].links), OfNode(x.node), tree[x.node].externals);
    var s1 := s.(fds := f, life := SetAwaited(s.life, x, map[]));
    OpenLaunch(tree, s.life, x, down, up);
    StartMembersKeeps(tree, s1, x, 0, fork, down, up);
    var t := StartMembers(tree, s1, x, 0, fork);
    SetUpAfter(tree, s, s1, t, x, down, up);
    assert KeyOk(tree, t.life, x, down);
  }

  lemma {:induction false} StartSequenceKeeps(tree: Tree, s: State, x: Inst, fork: Fork, down: set<Inst>, up: set<Inst>)
    requires WellFormed(tree) && FreshPids(fork) && x.node < |tree| && tree[x.node].Sequence?
    requires Inv(tree, s.life, down + {x}, up) && down <= s.life.instances.Keys && up <= s.life.instances.Keys
    requires x in s.life.instances && x !in down && NobodyCalls(s.life, x, up) && PendingOk(s)
    ensures SetUp(tree, s, StartInstance(tree, s, x, fork), x, down, up)
    ensures AtStart(tree, StartInstance(tree, s, x, fork).life, x)
    decreases |tree| - x.node, 1, 0, 0
  {
    assert WellFormedNode(tree, x.node);
    var s1 := s.(life := SetSequence(s.life, x, RunningSequence(-1, 0, 0)));
    var s2 := s1.(fds := PassFds(s1.fds, OfNode(x.node), OfSequence(x)));
    OpenSequence(tree, s.life, x, RunningSequence(-1, 0, 0), down, up);
    StartStageKeeps(tree, s2, x, 0, fork, down, up);
    SetUpAfter(tree, s, s2, StartStage(tree, s2, x, 0, fork), x, down, up);
  }

  lemma {:induction false} StartProcessKeeps(tree: Tree, s: State, x: Inst, fork: Fork, down: set<Inst>, up: set<Inst>)
    requires FreshPids(fork) && x.node < |tree| && tree[x.node].Executable?
    requires Inv(tree, s.life, down + {x}, up) && x in s.life.instances && x !in down && PendingOk(s)
    ensures SetUp(tree, s, StartProcess(s, x, fork), x, down, up)
    ensures AtStart(tree, StartProcess(s, x, fork).life, x)
  {
    assert KeyOk(tree, s.life, x, down + {x});
    var pid := fork(s.life.runningNodes.Keys);
    assert pid !in s.life.runningNodes;
    AddProcessKeeps(tree, s.life, x, pid, down, up);
    AddProcessGrows(tree, s.life, x, pid);
  }

  lemma {:induction false} AddProcessGrows(tree: Tree, l: Life, x: Inst, pid: int)
    requires pid !in l.runningNodes
    ensures Grows(tree, l, AddProcess(l, x, pid), x.node + 1, {x})
  {
  }

  lemma {:induction false} SetUpAfter(tree: Tree, s: State, m: State, t: State, x: Inst, down: set<Inst>, up: set<Inst>)
    requires Grows(tree, s.life, m.life, x.node + 1, {x}) && Quiet(s, m, x.node + 1)
    requires SetUp(tree, m, t, x, down, up) && x in s.life.instances
    ensures SetUp(tree, s, t, x, down, up)
  {
    GrowsTransitive(tree, s.life, m.life, t.life, x.node + 1, x.node + 1, {x}, {x});
    assert {x} + {x} == {x};
  }

  lemma {:induction false} OpenLaunch(tree: Tree, l: Life, x: Inst, down: set<Inst>, up: set<Inst>)
    requires x.node < |tree| && tree[x.node].Launch? && x in l.instances
    requires Inv(tree, l, down + {x}, up) && NobodyCalls(l, x, up)
    ensures var t := SetAwaited(l, x, map[]);
      Inv(tree, t, down + {x}, up) && Grows(tree, l, t, x.node + 1, {x}) && Filled(t, x, tree[x.node].members, 0)
  {
    SetAwaitedKeeps(tree, l, x, map[], down + {x}, up, up);
  }

  lemma {:induction false} OpenSequence(tree: Tree, l: Life, x: Inst, r: RunningSequence, down: set<Inst>, up: set<Inst>)
    requires x.node < |tree| && tree[x.node].Sequence? && x in l.instances
    requires Inv(tree, l, down + {x}, up) && NobodyCalls(l, x, up)
    ensures var t := SetSequence(l, x, r);
      Inv(tree, t, down + {x}, up) && Grows(tree, l, t, x.node + 1, {x}) && NobodyCalls(t, x, up)
  {
    SetSequenceKeeps(tree, l, x, r, down + {x}, up, up);
  }

  // ---- Launches ----

  /** Launch instance `x` waits for its first `k` members, and each of them reports to it. */
  predicate Filled(l: Life, x: Inst, members: seq<NodeId>, k: nat)
    requires k <= |members|
  {
    && (forall c {:trigger EntryOk(l, x, members, c)} | c in Awaited(l, x) :: EntryOk(l, x, members, c))
    && (forall j | 0 <= j < |members| :: members[j] in Awaited(l, x) <==> j < k)
  }

  /** Launch instance `x` is being set up and its first `k` members are started. */
  ghost predicate Filling(tree: Tree, s: State, x: Inst, k: nat, down: set<Inst>, up: set<Inst>) {
    && x.node < |tree| && tree[x.node].Launch? && k <= |tree[x.node].members|
    && Inv(tree, s.life, down + {x}, up) && down <= s.life.instances.Keys && up <= s.life.instances.Keys
    && x in s.life.instances && x !in down && x in up && PendingOk(s)
    && Filled(s.life, x, tree[x.node].members, k)
  }

  /** What one turn of the loop over the members gives. */
  ghost predicate MemberStarted(tree: Tree, s: State, t: State, x: Inst, k: nat, down: set<Inst>, up: set<Inst>)
    requires x.node < |tree| && tree[x.node].Launch? && k < |tree[x.node].members|
  {
    Filling(tree, t, x, k + 1, down, up) && Grows(tree, s.life, t.life, x.node + 1, {x}) && Quiet(s, t, x.node + 1)
  }

  lemma {:induction false} StartMembersKeeps(tree: Tree, s: State, x: Inst, k: nat, fork: Fork, down: set<Inst>, up: set<Inst>)
    requires WellFormed(tree) && FreshPids(fork)
    requires Filling(tree, s, x, k, down, up)
    ensures SetUp(tree, s, StartMembers(tree, s, x, k, fork), x, down, up)
    ensures Filled(StartMembers(tree, s, x, k, fork).life, x, tree[x.node].members, |tree[x.node].members|)
    decreases |tree| - x.node, 0, |tree[x.node].members| - k, 1
  {
    if k == |tree[x.node].members| {
      AllMembersRecorded(tree, s.life, x, down, up);
    } else {
      StartMemberKeeps(tree, s, x, k, fork, down, up);
      var s1 := StartMember(tree, s, x, k, fork);
      StartMembersKeeps(tree, s1, x, k + 1, fork, down, up);
      SetUpAfter(tree, s, s1, StartMembers(tree, s1, x, k + 1, fork), x, down, up);
    }
  }

  lemma {:induction false} StartMemberKeeps(tree: Tree, s: State, x: Inst, k: nat, fork: Fork, down: set<Inst>, up: set<Inst>)
    requires WellFormed(tree) && FreshPids(fork)
    requires Filling(tree, s, x, k, down, up) && k < |tree[x.node].members|
    ensures MemberStarted(tree, s, StartMember(tree, s, x, k, fork), x, k, down, up)
    decreases |tree| - x.node, 0, |tree[x.node].members| - k, 0
  {
    assert WellFormedNode(tree, x.node);
    var c := tree[x.node].members[k];
    assert c == Parts(tree[x.node])[k];
    var s0 := AddInstanceCompletionHandler(s, c, SubNodeDeath(x));
    assert HandlersOk(tree, c, Pending(s0, c)) && (forall m | m in s0.pending && m != c :: AllExternal(s0.pending[m])) by {
      HandlerAdded(tree, s, c, SubNodeDeath(x));
    }
    assert LastHandler(Pending(s0, c)) == SubNodeDeath(x) && Quiet(s, s0, c) by {
      HandlerAdded(tree, s, c, SubNodeDeath(x));
    }
    StartupKeeps(tree, s0, c, fork, down + {x}, up);
    var (s1, i) := Startup(tree, s0, c, fork);
    MemberRecorded(tree, s, s0, s1, StartMember(tree, s, x, k, fork), x, k, i, down, up);
  }

  lemma {:induction false} AllMembersRecorded(tree: Tree, l: Life, x: Inst, down: set<Inst>, up: set<Inst>)
    requires WellFormed(tree) && x.node < |tree| && tree[x.node].Launch? && x in l.instances
    requires Inv(tree, l, down + {x}, up) && Filled(l, x, tree[x.node].members, |tree[x.node].members|)
    ensures Inv(tree, l, down, up) && Grows(tree, l, l, x.node + 1, {x})
  {
    assert WellFormedNode(tree, x.node);
    assert tree[x.node].members[0] in Awaited(l, x);
    ReadyKeeps(tree, l, x, down, up);
  }

  lemma {:induction false} HandlerAdded(tree: Tree, s: State, c: NodeId, h: Handler)
    requires PendingOk(s) && OwnerAbove(tree, c, h)
    ensures var t := AddInstanceCompletionHandler(s, c, h);
      && Pending(t, c) == Pending(s, c) + [h]
      && HandlersOk(tree, c, Pending(t, c)) && LastHandler(Pending(t, c)) == h
      && (forall m | m in t.pending && m != c :: AllExternal(t.pending[m]))
      && Quiet(s, t, c)
  {
    var t := AddInstanceCompletionHandler(s, c, h);
    assert Pending(t, c)[..|Pending(t, c)| - 1] == Pending(s, c);
  }

  lemma {:induction false} MemberRecorded(tree: Tree, s: State, s0: State, s1: State, s2: State, x: Inst, k: nat, i: nat, down: set<Inst>, up: set<Inst>)
    requires WellFormed(tree) && x.node < |tree| && tree[x.node].Launch? && k < |tree[x.node].members|
    requires Filling(tree, s, x, k, down, up)
    requires s0.life == s.life && Quiet(s, s0, tree[x.node].members[k])
    requires Started(tree, s0, tree[x.node].members[k], s1, Inst(tree[x.node].members[k], i), down + {x}, up)
    requires LastHandler(Pending(s0, tree[x.node].members[k])) == SubNodeDeath(x)
    requires s2 == s1.(life := SetAwaited(s1.life, x, Awaited(s1.life, x)[tree[x.node].members[k] := i]))
    ensures MemberStarted(tree, s, s2, x, k, down, up)
  {
    assert WellFormedNode(tree, x.node);
    assert tree[x.node].members[k] == Parts(tree[x.node])[k];
    EntryRecorded(tree, s.life, s1.life, x, k, i, down, up);
  }

  lemma {:induction false} EntryRecorded(tree: Tree, l: Life, m: Life, x: Inst, k: nat, i: nat, down: set<Inst>, up: set<Inst>)
    requires WellFormed(tree) && x.node < |tree| && tree[x.node].Launch? && k < |tree[x.node].members|
    requires up <= l.instances.Keys && x in l.instances && x !in down && x in up
    requires Filled(l, x, tree[x.node].members, k)
    requires var y := Inst(tree[x.node].members[k], i);
      && y !in l.instances && Hooked(m, y, SubNodeDeath(x))
      && Inv(tree, m, down + {x}, up + {y}) && Grows(tree, l, m, tree[x.node].members[k], {})
    ensures var t := SetAwaited(m, x, Awaited(m, x)[tree[x.node].members[k] := i]);
      && Inv(tree, t, down + {x}, up)
      && Grows(tree, l, t, x.node + 1, {x}) && Filled(t, x, tree[x.node].members, k + 1)
  {
    assert WellFormedNode(tree, x.node);
    var members := tree[x.node].members;
    var c := members[k];
    assert c == Parts(tree[x.node])[k];
    var y := Inst(c, i);
    var t := SetAwaited(m, x, Awaited(m, x)[c := i]);
    assert SameTables(l, m, x);
    forall z | z in m.instances && z !in up && HasOwner(LastHandler(m.instances[z]), x)
      ensures LastHandler(m.instances[z]).SubNodeDeath? && z.node in Awaited(t, x) && Awaited(t, x)[z.node] == z.num
    {
      assert TableOk(tree, m, z);
      assert z != y ==> Up(m, z);
    }
    SetAwaitedKeeps(tree, m, x, Awaited(t, x), down + {x}, up + {y}, up);
    RecordedGrows(tree, l, m, t, x, c);
    forall d | d in Awaited(t, x) ensures EntryOk(t, x, members, d) {
      assert d != c ==> EntryOk(l, x, members, d);
    }
  }

  lemma {:induction false} RecordedGrows(tree: Tree, l: Life, m: Life, t: Life, x: Inst, c: NodeId)
    requires Grows(tree, l, m, c, {}) && x.node < c && x in l.instances
    requires t == SetAwaited(m, x, Awaited(t, x)) || t == SetSequence(m, x, SequenceOf(t, x))
    ensures Grows(tree, l, t, x.node + 1, {x})
  {
    forall z | z in t.instances && z !in l.instances ensures AtStart(tree, t, z) {
      assert AtStart(tree, m, z);
    }
    forall z | z in l.instances && z !in {x} ensures SameTables(l, t, z) {
      assert SameTables(l, m, z);
    }
    forall pid, z | z in l.instances && Runs(l, pid, z) ensures Runs(t, pid, z) {
      assert Runs(m, pid, z);
    }
  }

  // ---- Sequences ----

  /** What making stage `k` current gives. */
  ghost predicate StageStarted(tree: Tree, s: State, t: State, x: Inst, k: nat, down: set<Inst>, up: set<Inst>) {
    && SetUp(tree, s, t, x, down, up)
    && x in t.life.sequences && t.life.sequences[x].stage == k
    && Inst(t.life.sequences[x].currentNode, t.life.sequences[x].currentInst) !in s.life.instances
  }

  lemma {:induction false} StartStageKeeps(tree: Tree, s: State, x: Inst, k: nat, fork: Fork, down: set<Inst>, up: set<Inst>)
    requires WellFormed(tree) && FreshPids(fork)
    requires x.node < |tree| && tree[x.node].Sequence? && k < |tree[x.node].order|
    requires Inv(tree, s.life, down + {x}, up) && down <= s.life.instances.Keys && up <= s.life.instances.Keys
    requires x in s.life.instances && x !in down && PendingOk(s)
    requires NobodyCalls(s.life, x, up)
    ensures StageStarted(tree, s, StartStage(tree, s, x, k, fork), x, k, down, up)
    decreases |tree| - x.node, 0, 0
  {
    assert WellFormedNode(tree, x.node);
    var c := Parts(tree[x.node])[k];
    var s1 := PrepareStage(s, x, k, c);
    PrepareStageKeeps(tree, s, x, k, c, down, up);
    StartupKeeps(tree, s1, c, fork, down + {x}, up);
    var (s2, i) := Startup(tree, s1, c, fork);
    StageRecorded(tree, s, s1, s2, StartStage(tree, s, x, k, fork), x, k, i, down, up);
  }

  lemma {:induction false} PrepareStageKeeps(tree: Tree, s: State, x: Inst, k: nat, c: NodeId, down: set<Inst>, up: set<Inst>)
    requires x.node < |tree| && tree[x.node].Sequence? && x.node < c < |tree|
    requires Inv(tree, s.life, down + {x}, up) && x in s.life.instances && PendingOk(s) && NobodyCalls(s.life, x, up)
    ensures var t := PrepareStage(s, x, k, c);
      && Inv(tree, t.life, down + {x}, up) && t.life.instances == s.life.instances
      && t.life == SetSequence(s.life, x, SequenceOf(t.life, x))
      && SequenceOf(t.life, x).stage == k && SequenceOf(t.life, x).currentNode == c
      && HandlersOk(tree, c, Pending(t, c)) && LastHandler(Pending(t, c)) == Proceed(x)
      && (forall m | m in t.pending && m != c :: AllExternal(t.pending[m]))
      && Quiet(s, t, c)
  {
    var r := SequenceOf(s.life, x).(stage := k, currentNode := c);
    OpenSequence(tree, s.life, x, r, down, up);
    var s1 := s.(life := SetSequence(s.life, x, r));
    HandlerAdded(tree, s1, c, Proceed(x));
    QuietWithFds(s, s1, AddInstanceCompletionHandler(s1, c, Proceed(x)), PrepareStage(s, x, k, c), c);
  }

  lemma {:induction false} QuietWithFds(s: State, s1: State, s2: State, t: State, c: NodeId)
    requires s1.pending == s.pending && s1.log == s.log && Quiet(s1, s2, c)
    requires t.pending == s2.pending && t.log == s2.log
    ensures Quiet(s, t, c)
  {
    assert forall k: NodeId | k < c :: Pending(s1, k) == Pending(s, k) && Pending(t, k) == Pending(s2, k);
  }

  lemma {:induction false} StageRecorded(tree: Tree, s: State, s3: State, s4: State, t: State, x: Inst, k: nat, i: nat, down: set<Inst>, up: set<Inst>)
    requires WellFormed(tree) && x.node < |tree| && tree[x.node].Sequence? && k < |tree[x.node].order|
    requires up <= s.life.instances.Keys && x in s.life.instances && x !in down && NobodyCalls(s.life, x, up)
    requires s3.life == SetSequence(s.life, x, SequenceOf(s3.life, x)) && Quiet(s, s3, tree[x.node].order[k])
    requires SequenceOf(s3.life, x).stage == k && SequenceOf(s3.life, x).currentNode == tree[x.node].order[k]
    requires Started(tree, s3, tree[x.node].order[k], s4, Inst(tree[x.node].order[k], i), down + {x}, up)
    requires LastHandler(Pending(s3, tree[x.node].order[k])) == Proceed(x)
    requires t == s4.(life := SetSequence(s4.life, x, SequenceOf(s4.life, x).(currentInst := i)))
    ensures StageStarted(tree, s, t, x, k, down, up)
  {
    assert WellFormedNode(tree, x.node);
    assert tree[x.node].order[k] == Parts(tree[x.node])[k];
    CurrentRecorded(tree, s.life, s3.life, s4.life, x, k, i, down, up);
  }

  lemma {:induction false} CurrentRecorded(tree: Tree, l0: Life, l: Life, m: Life, x: Inst, k: nat, i: nat, down: set<Inst>, up: set<Inst>)
    requires WellFormed(tree) && x.node < |tree| && tree[x.node].Sequence? && k < |tree[x.node].order|
    requires up <= l.instances.Keys && x in l.instances && x !in down && NobodyCalls(l, x, up)
    requires l == SetSequence(l0, x, SequenceOf(l, x))
    requires SequenceOf(l, x).stage == k && SequenceOf(l, x).currentNode == tree[x.node].order[k]
    requires var y := Inst(tree[x.node].order[k], i);
      && y !in l.instances && Hooked(m, y, Proceed(x))
      && Inv(tree, m, down + {x}, up + {y}) && Grows(tree, l, m, tree[x.node].order[k], {})
      && (forall z | z in m.instances && z !in l.instances && z.node == y.node :: z == y)
    ensures var t := SetSequence(m, x, SequenceOf(m, x).(currentInst := i));
      && Inv(tree, t, down, up) && Grows(tree, l0, t, x.node + 1, {x})
      && SequenceOf(t, x) == RunningSequence(k, tree[x.node].order[k], i)
  {
    assert WellFormedNode(tree, x.node);
    var c := tree[x.node].order[k];
    assert c == Parts(tree[x.node])[k];
    var y := Inst(c, i);
    assert SameTables(l, m, x);
    var r := SequenceOf(m, x).(currentInst := i);
    var t := SetSequence(m, x, r);
    forall z | z in m.instances && z !in up && HasOwner(LastHandler(m.instances[z]), x) ensures z == y {
      assert TableOk(tree, m, z);
      assert z != y ==> Up(m, z);
    }
    SetSequenceKeeps(tree, m, x, r, down + {x}, up + {y}, up);
    ReadyKeeps(tree, t, x, down, up);
    RecordedGrows(tree, l, m, t, x, c);
    RecordedGrows(tree, l0, l0, l, x, c);
    GrowsTransitive(tree, l0, l, t, x.node + 1, x.node + 1, {x}, {x});
  }
}
