/** The exact course of a cascade: which instances end with a finished one, where that stops, and what
    changes there. */
module LifecycleCascade {
  import opened NodeTree
  import opened Descriptors
  import opened Lifecycle
  import opened LifecycleInvariant
  import opened LifecycleStarting
  import opened LifecycleFinishing
  import opened LifecycleMeaning

  /** Instance `z` is `x` or one of the groups that, at some depth, started `x`. */
  predicate Above(ins: Instances, z: Inst, x: Inst)
    decreases x.node
  {
    z == x || (Owned(ins, x) && Above(ins, z, OwnerOf(ins, x)))
  }

  /** The instance that sequence instance `z` currently waits for. */
  function Current(l: Life, z: Inst): Inst {
    Inst(SequenceOf(l, z).currentNode, SequenceOf(l, z).currentInst)
  }

  /** The cascade stopped before any node with a number below `n`, and changed at most the tables of `moved`. */
  ghost predicate Settled(l: Life, t: Life, n: NodeId, moved: set<Inst>) {
    && (forall z | z in l.instances && z.node < n :: z in t.instances)
    && (forall z {:trigger SameTables(l, t, z)} | z in l.instances && z in t.instances && z !in moved :: SameTables(l, t, z))
  }

  /** From `l` to `t` instance `x` ended with `code`, and with it whatever its end brings about: its
      launch ends with 0 if `x` was all it waited for and otherwise waits for the rest; its sequence ends with
      `code` if that is not 0 or no stage is left, and otherwise waits for a new instance of the next stage. */
  ghost predicate Climbs(tree: Tree, l: Life, t: Life, x: Inst, code: int)
    decreases x.node, 1
  {
    x in l.instances && x !in t.instances && CalledBack(tree, l, t, x, code)
  }

  ghost predicate CalledBack(tree: Tree, l: Life, t: Life, x: Inst, code: int)
    requires x in l.instances
    decreases x.node, 0
  {
    match LastHandler(l.instances[x])
    case External(_) => Settled(l, t, x.node, {})
    case SubNodeDeath(p) =>
      && p.node < x.node && p in l.instances && p.node < |tree| && tree[p.node].Launch?
      && x.node in Awaited(l, p) && Awaited(l, p)[x.node] == x.num
      && if Awaited(l, p) - {x.node} == map[] then Climbs(tree, l, t, p, 0)
         else Settled(l, t, x.node, {p}) && Awaited(t, p) == Awaited(l, p) - {x.node}
    case Proceed(p) =>
      && p.node < x.node && p in l.instances && p.node < |tree| && tree[p.node].Sequence?
      && p in l.sequences && Current(l, p) == x
      && var stage := l.sequences[p].stage + 1;
         if code != 0 || stage >= |tree[p.node].order| then Climbs(tree, l, t, p, code)
         else Settled(l, t, x.node, {p}) && p in t.sequences && t.sequences[p].stage == stage && Current(t, p) !in l.instances
  }

  /** Only `x` and what is above it can end with `x`. */
  ghost predicate Confined(l: Life, t: Life, x: Inst) {
    forall z {:trigger Above(l.instances, z, x)} | z in l.instances && z !in t.instances :: Above(l.instances, z, x)
  }

  /** Assignments to the tables of what is gone, and the removal of what has a number from that of `x` on,
      do not matter. */
  ghost predicate SameAround(l: Life, l1: Life, t: Life, t1: Life, n: NodeId) {
    && l1.instances == l.instances
    && (forall z | z in t.instances :: z in t1.instances)
    && (forall z | z in t1.instances && z.node < n :: z in t.instances)
    && (forall z: Inst {:trigger SameTables(l, l1, z)} | z.node < n || z in t.instances :: SameTables(l, l1, z))
    && (forall z: Inst {:trigger SameTables(t1, t, z)} | z.node < n || z in t.instances :: SameTables(t1, t, z))
  }

  lemma {:induction false} SettledAround(l: Life, l1: Life, t: Life, t1: Life, n: NodeId, moved: set<Inst>)
    requires SameAround(l, l1, t, t1, n) && Settled(l1, t1, n, moved)
    ensures Settled(l, t, n, moved)
  {
    forall z | z in l.instances && z in t.instances && z !in moved ensures SameTables(l, t, z) {
      assert SameTables(l, l1, z) && SameTables(l1, t1, z) && SameTables(t1, t, z);
    }
  }

  lemma {:induction false} CalledBackAround(tree: Tree, l: Life, l1: Life, t: Life, t1: Life, x: Inst, code: int)
    requires x in l.instances && SameAround(l, l1, t, t1, x.node) && CalledBack(tree, l1, t1, x, code)
    ensures CalledBack(tree, l, t, x, code)
    decreases x.node
  {
    match LastHandler(l.instances[x])
    case External(_) => SettledAround(l, l1, t, t1, x.node, {});
    case SubNodeDeath(p) =>
      assert SameTables(l, l1, p) && SameTables(t1, t, p);
      if Awaited(l, p) - {x.node} == map[] {
        CalledBackAround(tree, l, l1, t, t1, p, 0);
      } else {
        SettledAround(l, l1, t, t1, x.node, {p});
      }
    case Proceed(p) =>
      assert SameTables(l, l1, p) && SameTables(t1, t, p);
      if code != 0 || l.sequences[p].stage + 1 >= |tree[p.node].order| {
        CalledBackAround(tree, l, l1, t, t1, p, code);
      } else {
        SettledAround(l, l1, t, t1, x.node, {p});
      }
  }

  // ---- The callbacks take this course ----

  /** `Confined` while `x` itself is still there. */
  ghost predicate ConfinedAbove(l: Life, t: Life, x: Inst) {
    x in t.instances && Confined(l, t, x)
  }

  lemma {:induction false} FinishClimbs(tree: Tree, s: State, x: Inst, code: int, fork: Fork, down: set<Inst>)
    requires WellFormed(tree) && FreshPids(fork)
    requires Inv(tree, s.life, down, down) && Dying(s.life, x, down) && Up(s.life, x) && PendingOk(s)
    ensures var t := FinishInstance(tree, s, x, code, fork); Climbs(tree, s.life, t.life, x, code) && Confined(s.life, t.life, x)
    decreases x.node, 2, 0
  {
    var s1 := s.(log := s.log + [Completed(x, code)]);
    assert TableOk(tree, s.life, x);
    CallHandlersClimb(tree, s1, x, code, s.life.instances[x], fork, down);
    var s2 := CallHandlers(tree, s1, x, code, s.life.instances[x], fork);
    VanishClimbs(tree, s.life, s2.life, x, code);
  }

  lemma {:induction false} VanishClimbs(tree: Tree, l: Life, m: Life, x: Inst, code: int)
    requires x in l.instances && CalledBack(tree, l, m, x, code) && ConfinedAbove(l, m, x)
    ensures Climbs(tree, l, Vanish(m, x), x, code) && Confined(l, Vanish(m, x), x)
  {
    CalledBackAround(tree, l, l, Vanish(m, x), m, x, code);
  }

  lemma {:induction false} CallHandlersClimb(tree: Tree, s: State, x: Inst, code: int, hs: seq<Handler>, fork: Fork, down: set<Inst>)
    requires WellFormed(tree) && FreshPids(fork)
    requires Inv(tree, s.life, down, down) && Dying(s.life, x, down) && Up(s.life, x) && PendingOk(s)
    requires HandlersOk(tree, x.node, hs) && LastHandler(hs) == LastHandler(s.life.instances[x])
    ensures var t := CallHandlers(tree, s, x, code, hs, fork);
      CalledBack(tree, s.life, t.life, x, code) && ConfinedAbove(s.life, t.life, x)
    decreases x.node, 1, |hs|
  {
    if hs == [] {
    } else if |hs| == 1 {
      assert LastHandler(hs) == hs[0];
      assert TableOk(tree, s.life, x);
      match hs[0]
      case External(tag) =>
      case SubNodeDeath(p) => OnSubNodeDeathClimbs(tree, s, p, x, code, fork, down);
      case Proceed(p) => ProceedClimbs(tree, s, p, x, code, fork, down);
    } else {
      assert AllExternal(hs[..|hs| - 1]) && hs[0] == hs[..|hs| - 1][0];
      TailOk(tree, x.node, hs);
      CallHandlersClimb(tree, CallHandler(tree, s, x, code, hs[0], fork), x, code, hs[1..], fork, down);
    }
  }

  lemma {:induction false} OnSubNodeDeathClimbs(tree: Tree, s: State, p: Inst, x: Inst, code: int, fork: Fork, down: set<Inst>)
    requires WellFormed(tree) && FreshPids(fork)
    requires Inv(tree, s.life, down, down) && Dying(s.life, x, down) && Up(s.life, x) && PendingOk(s)
    requires LastHandler(s.life.instances[x]) == SubNodeDeath(p) && p.node < x.node
    ensures var t := OnSubNodeDeath(tree, s, p, x.node, fork);
      CalledBack(tree, s.life, t.life, x, code) && ConfinedAbove(s.life, t.life, x)
    decreases p.node, 3, 0
  {
    var left := Awaited(s.life, p) - {x.node};
    if left == map[] {
      var s1 := s.(life := SetAwaited(s.life, p, left));
      MemberDies(tree, s.life, p, x, down, down + {p});
      FinishClimbs(tree, s1, p, 0, fork, down + {p});
      FinishKeeps(tree, s1, p, 0, fork, down + {p});
      var s2 := FinishInstance(tree, s1, p, 0, fork);
      OwnerEnds(tree, s.life, s1.life, s2.life, DropLaunch(s2.life, p), p, x, 0, down);
      LaunchCalledBack(tree, s.life, DropLaunch(s2.life, p), p, x, code, down);
    } else {
      LaunchCalledBack(tree, s.life, SetAwaited(s.life, p, left), p, x, code, down);
    }
  }

  lemma {:induction false} LaunchCalledBack(tree: Tree, l: Life, t: Life, p: Inst, x: Inst, code: int, down: set<Inst>)
    requires TablesOk(tree, l) && x in l.instances && Up(l, x) && LastHandler(l.instances[x]) == SubNodeDeath(p)
    requires if Awaited(l, p) - {x.node} == map[] then Climbs(tree, l, t, p, 0)
      else t == SetAwaited(l, p, Awaited(l, p) - {x.node})
    ensures CalledBack(tree, l, t, x, code)
  {
    assert TableOk(tree, l, x);
  }

  /** The end of the owner is the course of the end of `x`. */
  lemma {:induction false} OwnerEnds(tree: Tree, l: Life, l1: Life, t1: Life, t: Life, p: Inst, x: Inst, code: int, down: set<Inst>)
    requires OnlyAt(l, l1, p) && OnlyAt(t1, t, p) && Climbs(tree, l1, t1, p, code) && Confined(l1, t1, p)
    requires x in l.instances && HasOwner(LastHandler(l.instances[x]), p) && p.node < x.node
    requires x in down && DownStays(l1, t1, down)
    ensures Climbs(tree, l, t, p, code) && ConfinedAbove(l, t, x)
  {
    assert SameTables(l1, t1, x);
    CalledBackAround(tree, l, l1, t, t1, p, code);
    forall z | z in l.instances && z !in t.instances ensures Above(l.instances, z, x) {
      assert Above(l1.instances, z, p);
    }
  }

  lemma {:induction false} ProceedClimbs(tree: Tree, s: State, p: Inst, x: Inst, code: int, fork: Fork, down: set<Inst>)
    requires WellFormed(tree) && FreshPids(fork)
    requires Inv(tree, s.life, down, down) && Dying(s.life, x, down) && Up(s.life, x) && PendingOk(s)
    requires LastHandler(s.life.instances[x]) == Proceed(p) && p.node < x.node
    ensures var t := ProceedWith(tree, s, p, code, fork);
      CalledBack(tree, s.life, t.life, x, code) && ConfinedAbove(s.life, t.life, x)
    decreases p.node, 3, 0
  {
    assert TableOk(tree, s.life, x);
    StageDies(tree, s.life, p, x, down);
    var stage := SequenceOf(s.life, p).stage + 1;
    if code != 0 || stage >= |Order(tree, p.node)| {
      StopClimbs(tree, s, p, x, code, fork, down);
    } else {
      MoreDown(tree, s.life, p, down);
      StartStageKeeps(tree, s, p, stage, fork, down, down);
      StageCalledBack(tree, s, StartStage(tree, s, p, stage, fork), p, x, stage, down);
    }
  }

  lemma {:induction false} StageCalledBack(tree: Tree, s: State, t: State, p: Inst, x: Inst, stage: nat, down: set<Inst>)
    requires x in s.life.instances && LastHandler(s.life.instances[x]) == Proceed(p) && p.node < x.node
    requires p in s.life.instances && p.node < |tree| && tree[p.node].Sequence?
    requires p in s.life.sequences && Current(s.life, p) == x && s.life.sequences[p].stage + 1 == stage < |tree[p.node].order|
    requires StageStarted(tree, s, t, p, stage, down, down)
    ensures CalledBack(tree, s.life, t.life, x, 0) && ConfinedAbove(s.life, t.life, x)
  {
  }

  lemma {:induction false} StopClimbs(tree: Tree, s: State, p: Inst, x: Inst, code: int, fork: Fork, down: set<Inst>)
    requires WellFormed(tree) && FreshPids(fork)
    requires Inv(tree, s.life, down, down) && Dying(s.life, x, down) && PendingOk(s)
    requires p in s.life.instances && p !in down && p.node < |tree| && tree[p.node].Sequence? && p.node < x.node
    requires LastHandler(s.life.instances[x]) == Proceed(p) && p in s.life.sequences && Current(s.life, p) == x
    requires NobodyCalls(s.life, p, down) && (code != 0 || SequenceOf(s.life, p).stage + 1 >= |Order(tree, p.node)|)
    ensures var t := ProceedWith(tree, s, p, code, fork);
      CalledBack(tree, s.life, t.life, x, code) && ConfinedAbove(s.life, t.life, x)
    decreases p.node, 2, 1
  {
    var s1 := s.(life := DropSequence(s.life, p), fds := CloseFds(s.fds, OfSequence(p)));
    SequenceStops(tree, s.life, p, x, down);
    FinishClimbs(tree, s1, p, code, fork, down + {p});
    FinishKeeps(tree, s1, p, code, fork, down + {p});
    var t := FinishInstance(tree, s1, p, code, fork);
    OwnerEnds(tree, s.life, s1.life, t.life, t.life, p, x, code, down);
  }

  // ---- What follows from the course ----

  /** What survives and is not above `x` is untouched. */
  lemma {:induction false} Untouched(tree: Tree, l: Life, t: Life, x: Inst, code: int, z: Inst)
    requires Climbs(tree, l, t, x, code) && z in l.instances && z in t.instances && !Above(l.instances, z, x)
    ensures SameTables(l, t, z)
    decreases x.node
  {
    match LastHandler(l.instances[x])
    case External(_) =>
    case SubNodeDeath(p) =>
      if Awaited(l, p) - {x.node} == map[] {
        Untouched(tree, l, t, p, 0, z);
      }
    case Proceed(p) =>
      if code != 0 || l.sequences[p].stage + 1 >= |tree[p.node].order| {
        Untouched(tree, l, t, p, code, z);
      }
  }

  /** A sequence moves on only when its own current stage ends: `x` lies below that. */
  lemma {:induction false} MovedIsAbove(tree: Tree, l: Life, t: Life, x: Inst, code: int, z: Inst)
    requires Climbs(tree, l, t, x, code) && z in l.instances && z in t.instances && z.node < |tree| && tree[z.node].Sequence?
    requires KeyOk(tree, l, z, {}) && KeyOk(tree, t, z, {})
    ensures SequenceOf(t, z) == SequenceOf(l, z) || (Above(l.instances, Current(l, z), x) && Current(l, z) !in t.instances)
    decreases x.node
  {
    match LastHandler(l.instances[x])
    case External(_) => assert SameTables(l, t, z);
    case SubNodeDeath(p) =>
      if Awaited(l, p) - {x.node} == map[] {
        MovedIsAbove(tree, l, t, p, 0, z);
      } else {
        assert z != p ==> SameTables(l, t, z);
      }
    case Proceed(p) =>
      if code != 0 || l.sequences[p].stage + 1 >= |tree[p.node].order| {
        MovedIsAbove(tree, l, t, p, code, z);
      } else {
        assert z != p ==> SameTables(l, t, z);
      }
  }
}
