/** Finishing an instance, with everything its callbacks start and finish in turn, keeps the invariant. */
module LifecycleFinishing {
  import opened NodeTree
  import opened Descriptors
  import opened Lifecycle
  import opened LifecycleInvariant
  import opened LifecycleStarting

  /** A dying instance waits for nothing any more. */
  predicate Dead(l: Life, z: Inst) {
    Awaited(l, z) == map[] && z !in l.sequences
  }

  /** The instances that are being finished, the one that started it last: each is dead, and only
      the ancestors of the last, with smaller numbers, can join them. */
  ghost predicate Dying(l: Life, x: Inst, down: set<Inst>) {
    && x in down && down <= l.instances.Keys
    && (forall z {:trigger Dead(l, z)} | z in down :: Dead(l, z))
    && (forall z | z in down :: z == x || z.node > x.node)
  }

  /** Sequence instance `z` moved on by one stage, to an instance that did not run before. */
  predicate Advanced(l: Life, t: Life, z: Inst) {
    && SequenceOf(t, z).stage == SequenceOf(l, z).stage + 1
    && Inst(SequenceOf(t, z).currentNode, SequenceOf(t, z).currentInst) !in l.instances
  }

  /** All that can happen to the tables of an instance that survives. */
  predicate TableStep(l: Life, t: Life, z: Inst) {
    && (forall c | c in Awaited(t, z) :: c in Awaited(l, z) && Awaited(t, z)[c] == Awaited(l, z)[c])
    && (z in t.sequences <==> z in l.sequences)
    && (SequenceOf(t, z) == SequenceOf(l, z) || Advanced(l, t, z))
  }

  /** From `l` to `t` survivors keep their handlers and their tables change by steps, and what was
      started is at its start. */
  ghost predicate Evolves(tree: Tree, l: Life, t: Life, down: set<Inst>) {
    && (forall z | z in l.instances && z in t.instances :: t.instances[z] == l.instances[z])
    && (forall z {:trigger AtStart(tree, t, z)} | z in t.instances && z !in l.instances :: AtStart(tree, t, z))
    && (forall z {:trigger TableStep(l, t, z)} | z in l.instances && z in t.instances && z !in down :: TableStep(l, t, z))
  }

  ghost predicate DownStays(l: Life, t: Life, down: set<Inst>) {
    forall z {:trigger SameTables(l, t, z)} | z in down :: z in t.instances && SameTables(l, t, z)
  }

  /** What calling the handlers of `x` gives. */
  ghost predicate Handled(tree: Tree, s: State, t: State, x: Inst, down: set<Inst>) {
    && Inv(tree, t.life, down, down) && PendingOk(t)
    && DownStays(s.life, t.life, down)
    && x in t.life.instances && Unwanted(t.life, x, down)
    && Evolves(tree, s.life, t.life, down)
  }

  /** What finishing `x` gives. */
  ghost predicate Finished(tree: Tree, s: State, t: State, x: Inst, down: set<Inst>) {
    && Inv(tree, t.life, down, down) && PendingOk(t)
    && x !in t.life.instances && DownStays(s.life, t.life, down - {x})
    && Evolves(tree, s.life, t.life, down)
    && SameTables(s.life, t.life, x)
  }

  lemma {:induction false} DeadNobodyCalls(l: Life, x: Inst, down: set<Inst>)
    requires UpOk(l, down) && Dead(l, x)
    ensures NobodyCalls(l, x, down)
  {
    forall y | y in l.instances && y !in down ensures !HasOwner(LastHandler(l.instances[y]), x) {
      assert Up(l, y);
    }
  }

  lemma {:induction false} FinishKeeps(tree: Tree, s: State, x: Inst, code: int, fork: Fork, down: set<Inst>)
    requires WellFormed(tree) && FreshPids(fork)
    requires Inv(tree, s.life, down, down) && Dying(s.life, x, down) && Up(s.life, x) && PendingOk(s)
    ensures Finished(tree, s, FinishInstance(tree, s, x, code, fork), x, down)
    decreases x.node, 2, 0
  {
    var s1 := s.(log := s.log + [Completed(x, code)]);
    assert TableOk(tree, s.life, x);
    CallHandlersKeep(tree, s1, x, code, s.life.instances[x], fork, down);
    var s2 := CallHandlers(tree, s1, x, code, s.life.instances[x], fork);
    assert Dead(s.life, x) && SameTables(s.life, s2.life, x);
    DeadNobodyCalls(s2.life, x, down);
    VanishKeeps(tree, s2.life, x, down, down);
    VanishFinishes(tree, s.life, s2.life, x, down);
  }

  lemma {:induction false} VanishFinishes(tree: Tree, l: Life, m: Life, x: Inst, down: set<Inst>)
    requires Evolves(tree, l, m, down) && DownStays(l, m, down) && x in down
    ensures Evolves(tree, l, Vanish(m, x), down) && DownStays(l, Vanish(m, x), down - {x}) && SameTables(l, Vanish(m, x), x)
  {
    var t := Vanish(m, x);
    forall z | z in l.instances && z in t.instances && z !in down ensures TableStep(l, t, z) {
      assert TableStep(l, m, z);
    }
    forall z | z in t.instances && z !in l.instances ensures AtStart(tree, t, z) {
      assert AtStart(tree, m, z);
    }
    forall z | z in down ensures SameTables(l, t, z) && (z != x ==> z in t.instances) {
      assert SameTables(l, m, z);
    }
  }

  lemma {:induction false} CallHandlersKeep(tree: Tree, s: State, x: Inst, code: int, hs: seq<Handler>, fork: Fork, down: set<Inst>)
    requires WellFormed(tree) && FreshPids(fork)
    requires Inv(tree, s.life, down, down) && Dying(s.life, x, down) && Up(s.life, x) && PendingOk(s)
    requires x in s.life.instances && HandlersOk(tree, x.node, hs) && LastHandler(hs) == LastHandler(s.life.instances[x])
    ensures Handled(tree, s, CallHandlers(tree, s, x, code, hs, fork), x, down)
    decreases x.node, 1, |hs|
  {
    if hs == [] {
      NothingHandled(tree, s, s, x, down);
    } else if |hs| == 1 {
      assert LastHandler(hs) == hs[0];
      CallHandlerKeeps(tree, s, x, code, hs[0], fork, down);
    } else {
      assert AllExternal(hs[..|hs| - 1]) && hs[0] == hs[..|hs| - 1][0];
      var s1 := CallHandler(tree, s, x, code, hs[0], fork);
      TailOk(tree, x.node, hs);
      CallHandlersKeep(tree, s1, x, code, hs[1..], fork, down);
    }
  }

  lemma {:induction false} TailOk(tree: Tree, n: NodeId, hs: seq<Handler>)
    requires |hs| >= 2 && HandlersOk(tree, n, hs)
    ensures HandlersOk(tree, n, hs[1..]) && LastHandler(hs[1..]) == LastHandler(hs)
  {
    assert hs[1..][..|hs| - 2] == hs[..|hs| - 1][1..];
  }

  lemma {:induction false} NothingHandled(tree: Tree, s: State, t: State, x: Inst, down: set<Inst>)
    requires Inv(tree, s.life, down, down) && Dying(s.life, x, down) && PendingOk(s)
    requires t.life == s.life && t.pending == s.pending && LastHandler(s.life.instances[x]).External?
    ensures Handled(tree, s, t, x, down)
  {
  }

  lemma {:induction false} CallHandlerKeeps(tree: Tree, s: State, x: Inst, code: int, h: Handler, fork: Fork, down: set<Inst>)
    requires WellFormed(tree) && FreshPids(fork)
    requires Inv(tree, s.life, down, down) && Dying(s.life, x, down) && Up(s.life, x) && PendingOk(s)
    requires h == LastHandler(s.life.instances[x])
    ensures Handled(tree, s, CallHandler(tree, s, x, code, h, fork), x, down)
    decreases x.node, 0, 0
  {
    assert TableOk(tree, s.life, x);
    match h
    case External(tag) => NothingHandled(tree, s, CallHandler(tree, s, x, code, h, fork), x, down);
    case SubNodeDeath(p) => OnSubNodeDeathKeeps(tree, s, p, x, fork, down);
    case Proceed(p) => ProceedKeeps(tree, s, p, x, code, fork, down);
  }

  // ---- Launches ----

  lemma {:induction false} OnSubNodeDeathKeeps(tree: Tree, s: State, p: Inst, x: Inst, fork: Fork, down: set<Inst>)
    requires WellFormed(tree) && FreshPids(fork)
    requires Inv(tree, s.life, down, down) && Dying(s.life, x, down) && Up(s.life, x) && PendingOk(s)
    requires LastHandler(s.life.instances[x]) == SubNodeDeath(p) && p.node < x.node
    ensures Handled(tree, s, OnSubNodeDeath(tree, s, p, x.node, fork), x, down)
    decreases p.node, 3, 0
  {
    assert TableOk(tree, s.life, x);
    var left := Awaited(s.life, p) - {x.node};
    var s1 := s.(life := SetAwaited(s.life, p, left));
    var down' := if left == map[] then down + {p} else down;
    MemberDies(tree, s.life, p, x, down, down');
    if left == map[] {
      FinishKeeps(tree, s1, p, 0, fork, down');
      var s2 := FinishInstance(tree, s1, p, 0, fork);
      LaunchFinished(tree, s, s1, s2, p, x, down);
    } else {
      LaunchGoesOn(tree, s, s1, p, x, down);
    }
  }

  lemma {:induction false} MemberDies(tree: Tree, l: Life, p: Inst, x: Inst, down: set<Inst>, down': set<Inst>)
    requires Inv(tree, l, down, down) && Dying(l, x, down) && Up(l, x)
    requires LastHandler(l.instances[x]) == SubNodeDeath(p) && p.node < x.node
    requires down' == if Awaited(l, p) - {x.node} == map[] then down + {p} else down
    ensures var t := SetAwaited(l, p, Awaited(l, p) - {x.node});
      && Inv(tree, t, down', down')
      && Up(t, p) && (Awaited(t, p) == map[] ==> Dying(t, p, down'))
  {
    assert TableOk(tree, l, x);
    assert p !in down;
    var t := SetAwaited(l, p, Awaited(l, p) - {x.node});
    EntryGoes(tree, l, p, x, down, down', down);
    MoreExempt(tree, t, down', down, down');
    assert Up(l, p);
    assert TableOk(tree, l, p);
    assert KeyOk(tree, l, p, down);
    forall z | z in down ensures Dead(t, z) {
      assert Dead(l, z);
    }
  }

  lemma {:induction false} MoreExempt(tree: Tree, l: Life, down: set<Inst>, up: set<Inst>, up': set<Inst>)
    requires Inv(tree, l, down, up) && up <= up'
    ensures Inv(tree, l, down, up')
  {
    forall y | y in l.instances && y !in up' ensures Up(l, y) {
      assert y !in up;
    }
  }

  /** From `l` to `t` only the tables of `p` were assigned. */
  ghost predicate OnlyAt(l: Life, t: Life, p: Inst) {
    t.instances == l.instances && forall z {:trigger SameTables(l, t, z)} | z != p :: SameTables(l, t, z)
  }

  /** Dropping an entry is a step of the table. */
  lemma {:induction false} EntryStep(l: Life, p: Inst, c: NodeId)
    ensures var t := SetAwaited(l, p, Awaited(l, p) - {c}); OnlyAt(l, t, p) && TableStep(l, t, p)
  {
  }

  lemma {:induction false} LaunchGoesOn(tree: Tree, s: State, t: State, p: Inst, x: Inst, down: set<Inst>)
    requires Dying(s.life, x, down) && p !in down && PendingOk(s) && LastHandler(s.life.instances[x]) == SubNodeDeath(p)
    requires t == s.(life := SetAwaited(s.life, p, Awaited(s.life, p) - {x.node})) && Inv(tree, t.life, down, down)
    requires p.node < |tree| && tree[p.node].Launch?
    ensures Handled(tree, s, t, x, down)
  {
    EntryStep(s.life, p, x.node);
    assert KeyOk(tree, t.life, p, down);
    forall z | z in s.life.instances && z in t.life.instances && z !in down ensures TableStep(s.life, t.life, z) {
      assert z != p ==> SameTables(s.life, t.life, z);
    }
  }

  /** Tables assigned at `p` do not count once `p` is gone. */
  lemma {:induction false} EvolvesAround(tree: Tree, l: Life, l1: Life, l2: Life, t: Life, p: Inst, down: set<Inst>)
    requires OnlyAt(l, l1, p) && OnlyAt(l2, t, p) && p !in down && p !in l2.instances
    requires Evolves(tree, l1, l2, down + {p}) && DownStays(l1, l2, down)
    ensures Evolves(tree, l, t, down) && DownStays(l, t, down)
  {
    forall z | z in down ensures z in t.instances && SameTables(l, t, z) {
      assert SameTables(l, l1, z) && SameTables(l1, l2, z) && SameTables(l2, t, z);
    }
    forall z | z in l.instances && z in t.instances && z !in down ensures TableStep(l, t, z) {
      assert SameTables(l, l1, z) && TableStep(l1, l2, z) && SameTables(l2, t, z);
    }
    forall z | z in t.instances && z !in l.instances ensures AtStart(tree, t, z) {
      assert AtStart(tree, l2, z) && SameTables(l2, t, z);
    }
  }

  lemma {:induction false} LaunchFinished(tree: Tree, s: State, s1: State, s2: State, p: Inst, x: Inst, down: set<Inst>)
    requires Dying(s.life, x, down) && p !in down && LastHandler(s.life.instances[x]) == SubNodeDeath(p)
    requires s1 == s.(life := SetAwaited(s.life, p, Awaited(s.life, p) - {x.node}))
    requires Finished(tree, s1, s2, p, down + {p}) && p.node < |tree| && tree[p.node].Launch?
    ensures Handled(tree, s, s2.(life := DropLaunch(s2.life, p)), x, down)
  {
    var t := s2.(life := DropLaunch(s2.life, p));
    assert KeyOk(tree, s2.life, p, down + {p});
    DropLaunchKeeps(tree, s2.life, p, down, down + {p});
    LessExempt(tree, t.life, p, down, down);
    EntryStep(s.life, p, x.node);
    assert (down + {p}) - {p} == down;
    EvolvesAround(tree, s.life, s1.life, s2.life, t.life, p, down);
    GoneOwner(tree, s.life, t.life, x, p, down);
  }

  lemma {:induction false} GoneOwner(tree: Tree, l: Life, t: Life, x: Inst, p: Inst, down: set<Inst>)
    requires Evolves(tree, l, t, down) && DownStays(l, t, down) && x in down && x in l.instances
    requires HasOwner(LastHandler(l.instances[x]), p) && p !in t.instances
    ensures x in t.instances && Unwanted(t, x, down)
  {
    assert SameTables(l, t, x);
  }

  /** An instance that is gone need not be exempt. */
  lemma {:induction false} LessExempt(tree: Tree, l: Life, p: Inst, down: set<Inst>, up: set<Inst>)
    requires Inv(tree, l, down, up + {p}) && p !in l.instances
    ensures Inv(tree, l, down, up)
  {
    forall y | y in l.instances && y !in up ensures Up(l, y) {
      assert y !in up + {p};
    }
  }

  // ---- Sequences ----

  lemma {:induction false} ProceedKeeps(tree: Tree, s: State, p: Inst, x: Inst, code: int, fork: Fork, down: set<Inst>)
    requires WellFormed(tree) && FreshPids(fork)
    requires Inv(tree, s.life, down, down) && Dying(s.life, x, down) && Up(s.life, x) && PendingOk(s)
    requires LastHandler(s.life.instances[x]) == Proceed(p) && p.node < x.node
    ensures Handled(tree, s, ProceedWith(tree, s, p, code, fork), x, down)
    decreases p.node, 3, 0
  {
    assert TableOk(tree, s.life, x);
    assert tree[p.node].Sequence? && p !in down && p in s.life.instances;
    StageDies(tree, s.life, p, x, down);
    var stage := SequenceOf(s.life, p).stage + 1;
    if code != 0 || stage >= |Order(tree, p.node)| {
      var s1 := s.(life := DropSequence(s.life, p), fds := CloseFds(s.fds, OfSequence(p)));
      SequenceStops(tree, s.life, p, x, down);
      FinishKeeps(tree, s1, p, code, fork, down + {p});
      SequenceFinished(tree, s, s1, FinishInstance(tree, s1, p, code, fork), p, x, down);
    } else {
      MoreDown(tree, s.life, p, down);
      StartStageKeeps(tree, s, p, stage, fork, down, down);
      SequenceGoesOn(tree, s, StartStage(tree, s, p, stage, fork), p, x, stage, down);
    }
  }

  lemma {:induction false} StageDies(tree: Tree, l: Life, p: Inst, x: Inst, down: set<Inst>)
    requires Inv(tree, l, down, down) && Dying(l, x, down) && Up(l, x)
    requires LastHandler(l.instances[x]) == Proceed(p) && p !in down && p in l.instances
    requires p.node < |tree| && tree[p.node].Sequence?
    ensures p in l.sequences && 0 <= l.sequences[p].stage < |tree[p.node].order|
    ensures x == Inst(l.sequences[p].currentNode, l.sequences[p].currentInst)
    ensures NobodyCalls(l, p, down)
  {
    assert Down(tree, l, p);
    forall y | y in l.instances && y !in down ensures !HasOwner(LastHandler(l.instances[y]), p) {
      assert TableOk(tree, l, y) && Up(l, y);
    }
  }

  lemma {:induction false} MoreDown(tree: Tree, l: Life, p: Inst, down: set<Inst>)
    requires Inv(tree, l, down, down) && p in l.instances && p.node < |tree| && !tree[p.node].Executable?
    ensures Inv(tree, l, down + {p}, down)
  {
    KeysCarry(tree, l, l, down, down + {p});
    forall y | y in l.instances && y !in down + {p} ensures y.node < |tree| && Down(tree, l, y) {
      assert TableOk(tree, l, y) && Down(tree, l, y);
    }
    PidsCarry(tree, l, l, down, down + {p});
  }

  lemma {:induction false} SequenceStops(tree: Tree, l: Life, p: Inst, x: Inst, down: set<Inst>)
    requires Inv(tree, l, down, down) && Dying(l, x, down) && p.node < x.node
    requires p !in down && p in l.instances && NobodyCalls(l, p, down)
    requires p.node < |tree| && tree[p.node].Sequence?
    ensures var t := DropSequence(l, p);
      Inv(tree, t, down + {p}, down + {p}) && Dying(t, p, down + {p}) && Up(t, p)
  {
    var t := DropSequence(l, p);
    DropSequenceKeeps(tree, l, p, down, down);
    MoreExempt(tree, t, down + {p}, down, down + {p});
    assert KeyOk(tree, l, p, down) && TableOk(tree, l, p) && Up(l, p);
    forall z | z in down + {p} ensures Dead(t, z) {
      assert z != p ==> Dead(l, z);
    }
  }

  lemma {:induction false} SequenceFinished(tree: Tree, s: State, s1: State, t: State, p: Inst, x: Inst, down: set<Inst>)
    requires Dying(s.life, x, down) && p !in down && LastHandler(s.life.instances[x]) == Proceed(p)
    requires s1.life == DropSequence(s.life, p) && p.node < |tree| && tree[p.node].Sequence?
    requires Finished(tree, s1, t, p, down + {p})
    ensures Handled(tree, s, t, x, down)
  {
    assert KeyOk(tree, t.life, p, down + {p});
    assert SameTables(s1.life, t.life, p);
    DropGone(tree, t.life, p, down);
    assert (down + {p}) - {p} == down;
    EvolvesAround(tree, s.life, s1.life, t.life, t.life, p, down);
    GoneOwner(tree, s.life, t.life, x, p, down);
  }

  lemma {:induction false} DropGone(tree: Tree, l: Life, p: Inst, down: set<Inst>)
    requires Inv(tree, l, down + {p}, down + {p}) && p !in l.instances && p !in l.sequences && p !in l.launches
    ensures Inv(tree, l, down, down)
  {
    KeysCarry(tree, l, l, down + {p}, down);
    forall y | y in l.instances && y !in down ensures y.node < |tree| && Down(tree, l, y) {
      assert TableOk(tree, l, y) && Down(tree, l, y);
    }
    LessUp(l, p, down);
    PidsCarry(tree, l, l, down + {p}, down);
  }

  lemma {:induction false} LessUp(l: Life, p: Inst, up: set<Inst>)
    requires UpOk(l, up + {p}) && p !in l.instances
    ensures UpOk(l, up)
  {
    forall y | y in l.instances && y !in up ensures Up(l, y) {
      assert y !in up + {p};
    }
  }

  lemma {:induction false} SequenceGoesOn(tree: Tree, s: State, t: State, p: Inst, x: Inst, stage: nat, down: set<Inst>)
    requires Dying(s.life, x, down) && p !in down && p in s.life.instances && LastHandler(s.life.instances[x]) == Proceed(p)
    requires p in s.life.sequences && s.life.sequences[p].stage + 1 == stage
    requires StageStarted(tree, s, t, p, stage, down, down) && p.node < |tree| && tree[p.node].Sequence?
    ensures Handled(tree, s, t, x, down)
  {
    assert KeyOk(tree, t.life, p, down);
    forall z | z in down ensures z in t.life.instances && SameTables(s.life, t.life, z) {
      assert z in s.life.instances;
    }
    forall z | z in s.life.instances && z in t.life.instances && z !in down ensures TableStep(s.life, t.life, z) {
      if z == p {
        assert Advanced(s.life, t.life, z);
      } else {
        assert SameTables(s.life, t.life, z);
      }
    }
  }
}
