/** What a cascade reports, event by event, and why a running sequence moves on: only because its own
    current stage exited with 0. */
module LifecycleHistory {
  import opened NodeTree
  import opened Descriptors
  import opened Lifecycle
  import opened LifecycleInvariant
  import opened LifecycleStarting
  import opened LifecycleFinishing
  import opened LifecycleMeaning
  import opened LifecycleCascade

  /** The events that step from `s` to `t` added. */
  function NewEvents(s: State, t: State): seq<Event> {
    if |s.log| <= |t.log| then t.log[|s.log|..] else []
  }

  /** What the end of `x` with `code` reports: first the end itself, to every handler of `x`, and then, if
      it ends the group that waits for `x`, the same for that group. */
  function CascadeLog(tree: Tree, l: Life, x: Inst, code: int): seq<Event>
    decreases x.node, 1
  {
    if x !in l.instances then [] else Report(x, code, l.instances[x]) + OwnersLog(tree, l, x, code)
  }

  function OwnersLog(tree: Tree, l: Life, x: Inst, code: int): seq<Event>
    requires x in l.instances
    decreases x.node, 0
  {
    match LastHandler(l.instances[x])
    case External(_) => []
    case SubNodeDeath(p) =>
      if p.node < x.node && Awaited(l, p) - {x.node} == map[] then CascadeLog(tree, l, p, 0) else []
    case Proceed(p) =>
      if p.node < x.node && (code != 0 || SequenceOf(l, p).stage + 1 >= |Order(tree, p.node)|) then CascadeLog(tree, l, p, code)
      else []
  }

  /** Only the tables of what is above `x` matter. */
  lemma {:induction false} SameLog(tree: Tree, l: Life, l1: Life, x: Inst, code: int)
    requires l1.instances == l.instances && forall z: Inst {:trigger SameTables(l, l1, z)} | z.node < x.node :: SameTables(l, l1, z)
    ensures CascadeLog(tree, l1, x, code) == CascadeLog(tree, l, x, code)
    decreases x.node
  {
    if x in l.instances {
      match LastHandler(l.instances[x])
      case External(_) =>
      case SubNodeDeath(p) =>
        if p.node < x.node {
          assert SameTables(l, l1, p);
          SameLog(tree, l, l1, p, 0);
        }
      case Proceed(p) =>
        if p.node < x.node {
          assert SameTables(l, l1, p);
          SameLog(tree, l, l1, p, code);
        }
    }
  }

  lemma {:induction false} FinishLogs(tree: Tree, s: State, x: Inst, code: int, fork: Fork, down: set<Inst>)
    requires WellFormed(tree) && FreshPids(fork)
    requires Inv(tree, s.life, down, down) && Dying(s.life, x, down) && Up(s.life, x) && PendingOk(s)
    ensures FinishInstance(tree, s, x, code, fork).log == s.log + CascadeLog(tree, s.life, x, code)
    decreases x.node, 2, 0
  {
    var s1 := s.(log := s.log + [Completed(x, code)]);
    assert TableOk(tree, s.life, x);
    CallHandlersLog(tree, s1, x, code, s.life.instances[x], fork, down);
  }

  lemma {:induction false} CallHandlersLog(tree: Tree, s: State, x: Inst, code: int, hs: seq<Handler>, fork: Fork, down: set<Inst>)
    requires WellFormed(tree) && FreshPids(fork)
    requires Inv(tree, s.life, down, down) && Dying(s.life, x, down) && Up(s.life, x) && PendingOk(s)
    requires HandlersOk(tree, x.node, hs) && LastHandler(hs) == LastHandler(s.life.instances[x])
    ensures CallHandlers(tree, s, x, code, hs, fork).log == s.log + Deliveries(x, code, hs) + OwnersLog(tree, s.life, x, code)
    decreases x.node, 1, |hs|
  {
    assert TableOk(tree, s.life, x);
    if hs == [] {
    } else if |hs| == 1 {
      assert LastHandler(hs) == hs[0] && Deliveries(x, code, hs[1..]) == [];
      match hs[0]
      case External(tag) =>
      case SubNodeDeath(p) => OnSubNodeDeathLogs(tree, s, p, x, code, fork, down);
      case Proceed(p) => ProceedLogs(tree, s, p, x, code, fork, down);
    } else {
      assert AllExternal(hs[..|hs| - 1]) && hs[0] == hs[..|hs| - 1][0];
      TailOk(tree, x.node, hs);
      CallHandlersLog(tree, CallHandler(tree, s, x, code, hs[0], fork), x, code, hs[1..], fork, down);
    }
  }

  lemma {:induction false} OnSubNodeDeathLogs(tree: Tree, s: State, p: Inst, x: Inst, code: int, fork: Fork, down: set<Inst>)
    requires WellFormed(tree) && FreshPids(fork)
    requires Inv(tree, s.life, down, down) && Dying(s.life, x, down) && Up(s.life, x) && PendingOk(s)
    requires LastHandler(s.life.instances[x]) == SubNodeDeath(p) && p.node < x.node
    ensures OnSubNodeDeath(tree, s, p, x.node, fork).log == s.log + OwnersLog(tree, s.life, x, code)
    decreases p.node, 3, 0
  {
    var left := Awaited(s.life, p) - {x.node};
    if left == map[] {
      var s1 := s.(life := SetAwaited(s.life, p, left));
      MemberDies(tree, s.life, p, x, down, down + {p});
      FinishLogs(tree, s1, p, 0, fork, down + {p});
      SameLog(tree, s.life, s1.life, p, 0);
    }
  }

  lemma {:induction false} ProceedLogs(tree: Tree, s: State, p: Inst, x: Inst, code: int, fork: Fork, down: set<Inst>)
    requires WellFormed(tree) && FreshPids(fork)
    requires Inv(tree, s.life, down, down) && Dying(s.life, x, down) && Up(s.life, x) && PendingOk(s)
    requires LastHandler(s.life.instances[x]) == Proceed(p) && p.node < x.node
    ensures ProceedWith(tree, s, p, code, fork).log == s.log + OwnersLog(tree, s.life, x, code)
    decreases p.node, 3, 0
  {
    assert TableOk(tree, s.life, x);
    StageDies(tree, s.life, p, x, down);
    var stage := SequenceOf(s.life, p).stage + 1;
    if code != 0 || stage >= |Order(tree, p.node)| {
      StopLogs(tree, s, p, x, code, fork, down);
    } else {
      MoreDown(tree, s.life, p, down);
      StartStageKeeps(tree, s, p, stage, fork, down, down);
    }
  }

  lemma {:induction false} StopLogs(tree: Tree, s: State, p: Inst, x: Inst, code: int, fork: Fork, down: set<Inst>)
    requires WellFormed(tree) && FreshPids(fork)
    requires Inv(tree, s.life, down, down) && Dying(s.life, x, down) && PendingOk(s)
    requires p in s.life.instances && p !in down && p.node < |tree| && tree[p.node].Sequence? && p.node < x.node
    requires NobodyCalls(s.life, p, down) && (code != 0 || SequenceOf(s.life, p).stage + 1 >= |Order(tree, p.node)|)
    ensures ProceedWith(tree, s, p, code, fork).log == s.log + CascadeLog(tree, s.life, p, code)
    decreases p.node, 2, 1
  {
    var s1 := s.(life := DropSequence(s.life, p), fds := CloseFds(s.fds, OfSequence(p)));
    SequenceStops(tree, s.life, p, x, down);
    FinishLogs(tree, s1, p, code, fork, down + {p});
    SameLog(tree, s.life, s1.life, p, code);
  }

  /** A surviving sequence that moved on did so after its current stage completed with 0. */
  lemma {:induction false} MovedCompleted(tree: Tree, l: Life, t: Life, x: Inst, code: int, z: Inst)
    requires Climbs(tree, l, t, x, code) && z in l.instances && z in t.instances && z.node < |tree| && tree[z.node].Sequence?
    ensures SequenceOf(t, z) == SequenceOf(l, z) || Completed(Current(l, z), 0) in CascadeLog(tree, l, x, code)
    decreases x.node
  {
    match LastHandler(l.instances[x])
    case External(_) => assert SameTables(l, t, z);
    case SubNodeDeath(p) =>
      if Awaited(l, p) - {x.node} == map[] {
        MovedCompleted(tree, l, t, p, 0, z);
      } else {
        assert SameTables(l, t, z);
      }
    case Proceed(p) =>
      if code != 0 || l.sequences[p].stage + 1 >= |tree[p.node].order| {
        MovedCompleted(tree, l, t, p, code, z);
      } else {
        assert z != p ==> SameTables(l, t, z);
        assert CascadeLog(tree, l, x, code)[0] == Completed(x, 0);
      }
  }
}
