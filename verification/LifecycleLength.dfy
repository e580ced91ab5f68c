/** How many process exits each instance takes, whatever else runs beside it. */
module LifecycleLength {
  import opened NodeTree
  import opened Descriptors
  import opened Lifecycle
  import opened LifecycleInvariant
  import opened LifecycleStarting
  import opened LifecycleMeaning
  import opened LifecycleCascade
  import opened LifecycleMeasure
  import opened LifecycleRuns
  import opened LifecycleTheorems

  // ---- The exits that an instance still needs ----

  /** The live processes below instance `x` and the leaves of all unstarted stages below it. */
  function Remaining(tree: Tree, l: Life, x: Inst): nat
    requires WellFormed(tree)
    decreases |tree| - x.node, 1, 0
  {
    if x.node >= |tree| then 0
    else
      match tree[x.node]
      case Executable => 1
      case Launch(_, _, _) => RemainingFrom(tree, l, x, 0)
      case Sequence(_) =>
        (if x.node < Current(l, x).node then Remaining(tree, l, Current(l, x)) else 0)
        + Unstarted(tree, x, SequenceOf(l, x))
  }

  /** The same for the members of launch instance `x` from position `k` on. */
  function RemainingFrom(tree: Tree, l: Life, x: Inst, k: nat): nat
    requires WellFormed(tree) && x.node < |tree| && tree[x.node].Launch? && k <= |tree[x.node].members|
    decreases |tree| - x.node, 0, |tree[x.node].members| - k
  {
    if k == |tree[x.node].members| then 0
    else RemainingOf(tree, l, x, k) + RemainingFrom(tree, l, x, k + 1)
  }

  function RemainingOf(tree: Tree, l: Life, x: Inst, k: nat): nat
    requires WellFormed(tree) && x.node < |tree| && tree[x.node].Launch? && k < |tree[x.node].members|
    decreases |tree| - x.node, 0, |tree[x.node].members| - k - 1, 1
  {
    assert WellFormedNode(tree, x.node);
    var c := Parts(tree[x.node])[k];
    if c in Awaited(l, x) then Remaining(tree, l, Inst(c, Awaited(l, x)[c])) else 0
  }

  /** Something always remains of what runs. */
  lemma {:induction false} SomethingRemains(tree: Tree, l: Life, x: Inst)
    requires WellFormed(tree) && Inv(tree, l, {}, {}) && x in l.instances
    ensures x.node < |tree| && Remaining(tree, l, x) > 0
    decreases |tree| - x.node
  {
    assert TableOk(tree, l, x) && Down(tree, l, x) && WellFormedNode(tree, x.node);
    match tree[x.node]
    case Executable =>
    case Launch(members, _, _) =>
      var c :| c in Awaited(l, x);
      assert EntryOk(l, x, members, c);
      var j :| 0 <= j < |members| && members[j] == c;
      assert Parts(tree[x.node])[j] == c;
      SomethingRemains(tree, l, Inst(c, Awaited(l, x)[c]));
      OneOfThem(tree, l, x, 0, j);
    case Sequence(order) =>
      assert order[l.sequences[x].stage] == Parts(tree[x.node])[l.sequences[x].stage];
      SomethingRemains(tree, l, Current(l, x));
  }

  lemma {:induction false} OneOfThem(tree: Tree, l: Life, x: Inst, k: nat, j: nat)
    requires WellFormed(tree) && x.node < |tree| && tree[x.node].Launch? && k <= j < |tree[x.node].members|
    ensures RemainingFrom(tree, l, x, k) >= RemainingOf(tree, l, x, j)
    decreases j - k
  {
    if k < j {
      OneOfThem(tree, l, x, k + 1, j);
    }
  }

  // ---- A started instance needs its leaves ----

  /** What a fresh instance waits for is fresh. */
  lemma {:induction false} FreshBelow(tree: Tree, l: Life, t: Life, x: Inst, y: Inst)
    requires Inv(tree, l, {}, {}) && Renews(tree, l, t) && x !in l.instances
    requires y in t.instances && HasOwner(LastHandler(t.instances[y]), x)
    ensures y !in l.instances
  {
    assert y in l.instances ==> Up(l, y);
  }

  lemma {:induction false} FreshNeedsLeaves(tree: Tree, l: Life, t: Life, x: Inst)
    requires WellFormed(tree) && Inv(tree, l, {}, {}) && Inv(tree, t, {}, {}) && Renews(tree, l, t)
    requires x in t.instances && x !in l.instances
    ensures x.node < |tree| && Remaining(tree, t, x) == Leaves(tree, x.node)
    decreases |tree| - x.node, 1, 0
  {
    assert TableOk(tree, t, x) && Down(tree, t, x) && WellFormedNode(tree, x.node) && AtStart(tree, t, x);
    match tree[x.node]
    case Executable =>
    case Launch(_, _, _) => FreshMembersNeedLeaves(tree, l, t, x, 0);
    case Sequence(order) =>
      assert order[0] == Parts(tree[x.node])[0];
      FreshBelow(tree, l, t, x, Current(t, x));
      FreshNeedsLeaves(tree, l, t, Current(t, x));
  }

  lemma {:induction false} FreshMembersNeedLeaves(tree: Tree, l: Life, t: Life, x: Inst, k: nat)
    requires WellFormed(tree) && Inv(tree, l, {}, {}) && Inv(tree, t, {}, {}) && Renews(tree, l, t)
    requires x in t.instances && x !in l.instances
    requires x.node < |tree| && tree[x.node].Launch? && k <= |tree[x.node].members|
    ensures RemainingFrom(tree, t, x, k) == LeavesFrom(tree, x.node, k)
    decreases |tree| - x.node, 0, |tree[x.node].members| - k
  {
    if k < |tree[x.node].members| {
      assert Down(tree, t, x) && WellFormedNode(tree, x.node) && AtStart(tree, t, x);
      var c := Parts(tree[x.node])[k];
      assert c == tree[x.node].members[k] && EntryOk(t, x, tree[x.node].members, c);
      var y := Inst(c, Awaited(t, x)[c]);
      FreshBelow(tree, l, t, x, y);
      FreshNeedsLeaves(tree, l, t, y);
      FreshMembersNeedLeaves(tree, l, t, x, k + 1);
    }
  }

  // ---- What a reap leaves alone ----

  /** Whatever is below `x` still runs, with the same tables. */
  ghost predicate AllBelowKept(l: Life, t: Life, x: Inst) {
    forall z {:trigger Above(l.instances, x, z)} | z in l.instances && Above(l.instances, x, z) :: z in t.instances && SameTables(l, t, z)
  }

  lemma {:induction false} AboveOwner(ins: Instances, y: Inst, z: Inst)
    requires Owned(ins, y) && Above(ins, y, z)
    ensures Above(ins, OwnerOf(ins, y), z)
    decreases z.node
  {
    if y != z {
      AboveOwner(ins, y, OwnerOf(ins, z));
    }
  }

  lemma {:induction false} PartKept(tree: Tree, l: Life, t: Life, x: Inst, y: Inst)
    requires AllBelowKept(l, t, x) && Owned(l.instances, y) && OwnerOf(l.instances, y) == x
    ensures AllBelowKept(l, t, y)
  {
    forall z | z in l.instances && Above(l.instances, y, z) ensures z in t.instances && SameTables(l, t, z) {
      AboveOwner(l.instances, y, z);
      assert Above(l.instances, x, z);
    }
  }

  lemma {:induction false} KeptRemains(tree: Tree, l: Life, t: Life, x: Inst)
    requires WellFormed(tree) && Inv(tree, l, {}, {}) && x in l.instances && AllBelowKept(l, t, x)
    ensures Remaining(tree, t, x) == Remaining(tree, l, x)
    decreases |tree| - x.node, 1, 0
  {
    assert TableOk(tree, l, x) && Down(tree, l, x) && WellFormedNode(tree, x.node);
    assert Above(l.instances, x, x) && SameTables(l, t, x);
    match tree[x.node]
    case Executable =>
    case Launch(_, _, _) => KeptMembersRemain(tree, l, t, x, 0);
    case Sequence(order) =>
      var y := Current(l, x);
      assert order[l.sequences[x].stage] == Parts(tree[x.node])[l.sequences[x].stage];
      PartKept(tree, l, t, x, y);
      KeptRemains(tree, l, t, y);
  }

  lemma {:induction false} KeptMembersRemain(tree: Tree, l: Life, t: Life, x: Inst, k: nat)
    requires WellFormed(tree) && Inv(tree, l, {}, {}) && x in l.instances && AllBelowKept(l, t, x) && SameTables(l, t, x)
    requires x.node < |tree| && tree[x.node].Launch? && k <= |tree[x.node].members|
    ensures RemainingFrom(tree, t, x, k) == RemainingFrom(tree, l, x, k)
    decreases |tree| - x.node, 0, |tree[x.node].members| - k
  {
    if k < |tree[x.node].members| {
      MemberRemains(tree, l, t, x, k);
      KeptMembersRemain(tree, l, t, x, k + 1);
    }
  }

  lemma {:induction false} MemberRemains(tree: Tree, l: Life, t: Life, x: Inst, k: nat)
    requires WellFormed(tree) && Inv(tree, l, {}, {}) && x in l.instances && AllBelowKept(l, t, x) && SameTables(l, t, x)
    requires x.node < |tree| && tree[x.node].Launch? && k < |tree[x.node].members|
    ensures RemainingOf(tree, t, x, k) == RemainingOf(tree, l, x, k)
    decreases |tree| - x.node, 0, |tree[x.node].members| - k - 1
  {
    assert WellFormedNode(tree, x.node) && Down(tree, l, x);
    var c := Parts(tree[x.node])[k];
    if c in Awaited(l, x) {
      assert EntryOk(l, x, tree[x.node].members, c);
      PartKept(tree, l, t, x, Inst(c, Awaited(l, x)[c]));
      KeptRemains(tree, l, t, Inst(c, Awaited(l, x)[c]));
    }
  }

  lemma {:induction false} AboveTransitive(ins: Instances, a: Inst, b: Inst, x: Inst)
    requires Above(ins, a, b) && Above(ins, b, x)
    ensures Above(ins, a, x)
    decreases x.node
  {
    if b != x {
      AboveTransitive(ins, a, b, OwnerOf(ins, x));
    }
  }

  lemma {:induction false} AboveSmaller(ins: Instances, a: Inst, x: Inst)
    requires Above(ins, a, x)
    ensures a == x || a.node < x.node
    decreases x.node
  {
    if a != x {
      AboveSmaller(ins, a, OwnerOf(ins, x));
    }
  }

  /** What is above `x` forms a chain. */
  lemma {:induction false} AboveIsChain(ins: Instances, a: Inst, b: Inst, x: Inst)
    requires Above(ins, a, x) && Above(ins, b, x)
    ensures Above(ins, a, b) || Above(ins, b, a)
    decreases x.node
  {
    if a != x && b != x {
      AboveIsChain(ins, a, b, OwnerOf(ins, x));
    }
  }

  /** `a` and `b` are two things that the same group waits for. */
  predicate Siblings(ins: Instances, a: Inst, b: Inst) {
    a != b && Owned(ins, a) && Owned(ins, b) && OwnerOf(ins, a) == OwnerOf(ins, b)
  }

  lemma {:induction false} SiblingsApart(ins: Instances, a: Inst, b: Inst, w: Inst, x: Inst)
    requires Siblings(ins, a, b) && Above(ins, a, x) && Above(ins, b, w)
    ensures !Above(ins, w, x)
  {
    if Above(ins, w, x) {
      AboveTransitive(ins, b, w, x);
      AboveIsChain(ins, a, b, x);
      var o := OwnerOf(ins, a);
      if Above(ins, a, b) {
        AboveSmaller(ins, a, o);
      } else {
        AboveSmaller(ins, b, o);
      }
      assert false;
    }
  }

  /** `x` ended with `code`, on the way from `l` to `t`. */
  ghost predicate Ends(tree: Tree, l: Life, t: Life, x: Inst, code: int)
    requires WellFormed(tree)
  {
    && Inv(tree, l, {}, {}) && Inv(tree, t, {}, {}) && Renews(tree, l, t)
    && Climbs(tree, l, t, x, code) && Confined(l, t, x)
  }

  lemma {:induction false} SiblingKept(tree: Tree, l: Life, t: Life, x: Inst, code: int, a: Inst, b: Inst)
    requires WellFormed(tree) && Ends(tree, l, t, x, code) && Siblings(l.instances, a, b) && Above(l.instances, a, x)
    ensures AllBelowKept(l, t, b)
  {
    forall w | w in l.instances && Above(l.instances, b, w) ensures w in t.instances && SameTables(l, t, w) {
      SiblingsApart(l.instances, a, b, w, x);
      Untouched(tree, l, t, x, code, w);
    }
  }

  /** What is not above `x` needs as much as before. */
  lemma {:induction false} ElsewhereRemains(tree: Tree, l: Life, t: Life, x: Inst, code: int, r: Inst)
    requires WellFormed(tree) && Ends(tree, l, t, x, code) && r in l.instances && !Above(l.instances, r, x)
    ensures r in t.instances && Remaining(tree, t, r) == Remaining(tree, l, r)
  {
    forall w | w in l.instances && Above(l.instances, r, w) ensures w in t.instances && SameTables(l, t, w) {
      if Above(l.instances, w, x) {
        AboveTransitive(l.instances, r, w, x);
      }
      Untouched(tree, l, t, x, code, w);
    }
    assert Above(l.instances, r, r);
    KeptRemains(tree, l, t, r);
  }

  // ---- Launches ----

  /** Only position `j` counts differently in `l` and `t`. */
  ghost predicate OnlyPosition(tree: Tree, l: Life, t: Life, p: Inst, j: nat)
    requires WellFormed(tree) && p.node < |tree| && tree[p.node].Launch? && j < |tree[p.node].members|
  {
    forall k: nat {:trigger RemainingOf(tree, t, p, k)} | k < |tree[p.node].members| && k != j ::
      RemainingOf(tree, t, p, k) == RemainingOf(tree, l, p, k)
  }

  lemma {:induction false} OnePosition(tree: Tree, l: Life, t: Life, p: Inst, j: nat, k: nat)
    requires WellFormed(tree) && p.node < |tree| && tree[p.node].Launch? && j < |tree[p.node].members|
    requires k <= |tree[p.node].members| && OnlyPosition(tree, l, t, p, j)
    ensures RemainingFrom(tree, l, p, k) - RemainingFrom(tree, t, p, k)
      == if k <= j then RemainingOf(tree, l, p, j) - RemainingOf(tree, t, p, j) else 0
    decreases |tree[p.node].members| - k
  {
    if k < |tree[p.node].members| {
      OnePosition(tree, l, t, p, j, k + 1);
      assert k != j ==> RemainingOf(tree, t, p, k) == RemainingOf(tree, l, p, k);
    }
  }

  /** The position of member instance `y` of launch `p`. */
  lemma {:induction false} PositionOf(tree: Tree, l: Life, p: Inst, y: Inst) returns (j: nat)
    requires WellFormed(tree) && Inv(tree, l, {}, {}) && y in l.instances && LastHandler(l.instances[y]) == SubNodeDeath(p)
    ensures p in l.instances && p.node < y.node && p.node < |tree| && tree[p.node].Launch? && j < |tree[p.node].members|
    ensures tree[p.node].members[j] == y.node && RemainingOf(tree, l, p, j) == Remaining(tree, l, y)
    ensures forall k | 0 <= k < |tree[p.node].members| && k != j :: tree[p.node].members[k] != y.node
  {
    assert TableOk(tree, l, y) && Up(l, y);
    assert Down(tree, l, p) && WellFormedNode(tree, p.node);
    assert EntryOk(l, p, tree[p.node].members, y.node);
    j :| 0 <= j < |tree[p.node].members| && tree[p.node].members[j] == y.node;
    assert Parts(tree[p.node])[j] == y.node;
    forall k | 0 <= k < |tree[p.node].members| && k != j ensures tree[p.node].members[k] != y.node {
      assert if k < j then tree[p.node].members[k] != tree[p.node].members[j] else tree[p.node].members[j] != tree[p.node].members[k];
    }
  }

  /** The other members of a launch whose member is above `x` need as much as before. */
  lemma {:induction false} OtherMembers(tree: Tree, l: Life, t: Life, x: Inst, code: int, p: Inst, y: Inst, j: nat)
    requires WellFormed(tree) && Ends(tree, l, t, x, code) && Above(l.instances, y, x)
    requires y in l.instances && LastHandler(l.instances[y]) == SubNodeDeath(p) && p.node < y.node
    requires p in l.instances && p.node < |tree| && tree[p.node].Launch? && j < |tree[p.node].members| && tree[p.node].members[j] == y.node
    requires forall k | 0 <= k < |tree[p.node].members| && k != j :: tree[p.node].members[k] != y.node
    requires forall c | c != y.node :: (c in Awaited(t, p) <==> c in Awaited(l, p)) && (c in Awaited(l, p) ==> Awaited(t, p)[c] == Awaited(l, p)[c])
    ensures OnlyPosition(tree, l, t, p, j)
  {
    forall k: nat | k < |tree[p.node].members| && k != j ensures RemainingOf(tree, t, p, k) == RemainingOf(tree, l, p, k) {
      assert WellFormedNode(tree, p.node) && Down(tree, l, p);
      var c := Parts(tree[p.node])[k];
      assert c == tree[p.node].members[k] != y.node;
      if c in Awaited(l, p) {
        var b := Inst(c, Awaited(l, p)[c]);
        assert EntryOk(l, p, tree[p.node].members, c);
        SiblingKept(tree, l, t, x, code, y, b);
        KeptRemains(tree, l, t, b);
      }
    }
  }

  /** A launch whose member `y` is gone needs less by what `y` needed. */
  lemma {:induction false} LaunchLoses(tree: Tree, l: Life, t: Life, x: Inst, code: int, p: Inst, y: Inst)
    requires WellFormed(tree) && Ends(tree, l, t, x, code) && Above(l.instances, y, x)
    requires y in l.instances && LastHandler(l.instances[y]) == SubNodeDeath(p) && Awaited(t, p) == Awaited(l, p) - {y.node}
    ensures Remaining(tree, l, p) == Remaining(tree, t, p) + Remaining(tree, l, y)
  {
    var j := PositionOf(tree, l, p, y);
    OtherMembers(tree, l, t, x, code, p, y, j);
    OnePosition(tree, l, t, p, j, 0);
  }

  /** A launch that is as it was needs less by what its member `y` needs less. */
  lemma {:induction false} LaunchFollows(tree: Tree, l: Life, t: Life, x: Inst, code: int, p: Inst, y: Inst)
    requires WellFormed(tree) && Ends(tree, l, t, x, code) && Above(l.instances, y, x)
    requires y in l.instances && LastHandler(l.instances[y]) == SubNodeDeath(p) && SameTables(l, t, p)
    ensures Remaining(tree, l, p) - Remaining(tree, t, p) == Remaining(tree, l, y) - Remaining(tree, t, y)
  {
    var j := PositionOf(tree, l, p, y);
    OtherMembers(tree, l, t, x, code, p, y, j);
    OnePosition(tree, l, t, p, j, 0);
    assert Up(l, y) && WellFormedNode(tree, p.node) && Parts(tree[p.node])[j] == y.node;
  }

  /** A launch that waits for `y` only needs what `y` needs. */
  lemma {:induction false} LastMember(tree: Tree, l: Life, p: Inst, y: Inst)
    requires WellFormed(tree) && Inv(tree, l, {}, {}) && y in l.instances && LastHandler(l.instances[y]) == SubNodeDeath(p)
    requires Awaited(l, p) - {y.node} == map[]
    ensures Remaining(tree, l, p) == Remaining(tree, l, y)
  {
    var j := PositionOf(tree, l, p, y);
    var e := SetAwaited(l, p, map[]);
    forall k: nat | k < |tree[p.node].members| && k != j ensures RemainingOf(tree, e, p, k) == RemainingOf(tree, l, p, k) {
      assert WellFormedNode(tree, p.node);
      var c := Parts(tree[p.node])[k];
      assert c == tree[p.node].members[k] != y.node;
      assert c !in Awaited(l, p) - {y.node};
    }
    OnePosition(tree, l, e, p, j, 0);
    NothingAwaited(tree, e, p, 0);
    assert WellFormedNode(tree, p.node);
  }

  lemma {:induction false} NothingAwaited(tree: Tree, l: Life, p: Inst, k: nat)
    requires WellFormed(tree) && p.node < |tree| && tree[p.node].Launch? && k <= |tree[p.node].members| && Awaited(l, p) == map[]
    ensures RemainingFrom(tree, l, p, k) == 0
    decreases |tree[p.node].members| - k
  {
    if k < |tree[p.node].members| {
      NothingAwaited(tree, l, p, k + 1);
    }
  }

  // ---- Sequences ----

  /** What a running sequence needs: what its current stage needs, and the leaves of the later ones. */
  lemma {:induction false} SequenceNeeds(tree: Tree, l: Life, p: Inst, y: Inst)
    requires WellFormed(tree) && Inv(tree, l, {}, {}) && y in l.instances && LastHandler(l.instances[y]) == Proceed(p)
    ensures p in l.instances && p.node < y.node && p.node < |tree| && tree[p.node].Sequence?
    ensures p in l.sequences && 0 <= l.sequences[p].stage < |tree[p.node].order| && y == Current(l, p)
    ensures y.node == tree[p.node].order[l.sequences[p].stage]
    ensures Remaining(tree, l, p) == Remaining(tree, l, y) + LeavesFrom(tree, p.node, l.sequences[p].stage + 1)
  {
    assert TableOk(tree, l, y) && Up(l, y);
    assert Down(tree, l, p);
  }

  /** A sequence that moved on from `y` needs less by what `y` needed. */
  lemma {:induction false} SequenceLoses(tree: Tree, l: Life, t: Life, p: Inst, y: Inst)
    requires WellFormed(tree) && Inv(tree, l, {}, {}) && Inv(tree, t, {}, {}) && Renews(tree, l, t)
    requires y in l.instances && LastHandler(l.instances[y]) == Proceed(p) && p in t.instances
    requires p in l.sequences && p in t.sequences && t.sequences[p].stage == l.sequences[p].stage + 1 && Current(t, p) !in l.instances
    ensures Remaining(tree, l, p) == Remaining(tree, t, p) + Remaining(tree, l, y)
  {
    SequenceNeeds(tree, l, p, y);
    assert Down(tree, t, p) && WellFormedNode(tree, p.node);
    SequenceNeeds(tree, t, p, Current(t, p));
    FreshNeedsLeaves(tree, l, t, Current(t, p));
    assert tree[p.node].order[t.sequences[p].stage] == Parts(tree[p.node])[t.sequences[p].stage];
  }

  lemma {:induction false} SequenceFollows(tree: Tree, l: Life, t: Life, p: Inst, y: Inst)
    requires WellFormed(tree) && Inv(tree, l, {}, {}) && y in l.instances && LastHandler(l.instances[y]) == Proceed(p)
    requires SameTables(l, t, p)
    ensures Remaining(tree, l, p) - Remaining(tree, t, p) == Remaining(tree, l, y) - Remaining(tree, t, y)
  {
    SequenceNeeds(tree, l, p, y);
  }

  // ---- The chain ----

  /** From `l` to `t` instance `z` has come closer to its end by one exit at least, and by exactly one
      if `exact`. */
  ghost predicate Closer(tree: Tree, l: Life, t: Life, z: Inst, exact: bool)
    requires WellFormed(tree)
  {
    var left := if z in t.instances then Remaining(tree, t, z) else 0;
    left + 1 <= Remaining(tree, l, z) && (exact ==> left + 1 == Remaining(tree, l, z))
  }

  /** Above the place where the cascade stopped every instance needs less by the same number. */
  lemma {:induction false} SameAbove(tree: Tree, l: Life, t: Life, x: Inst, code: int, p: Inst, z: Inst)
    requires WellFormed(tree) && Ends(tree, l, t, x, code) && Above(l.instances, p, x) && Above(l.instances, z, p)
    requires p in l.instances && p in t.instances && Closer(tree, l, t, p, code == 0)
    requires forall w | w in l.instances && w.node < p.node :: w in t.instances
    requires forall w {:trigger SameTables(l, t, w)} | w in l.instances && w.node < p.node :: SameTables(l, t, w)
    ensures z in l.instances && Closer(tree, l, t, z, code == 0)
    decreases p.node
  {
    if z != p {
      var o := OwnerOf(l.instances, p);
      assert TableOk(tree, l, p) && Up(l, p);
      assert SameTables(l, t, o);
      if LastHandler(l.instances[p]).SubNodeDeath? {
        LaunchFollows(tree, l, t, x, code, o, p);
      } else {
        SequenceFollows(tree, l, t, o, p);
      }
      AboveTransitive(l.instances, o, p, x);
      SameAbove(tree, l, t, x, code, o, z);
    }
  }

  /** `y`, which is above `x`, ended with `c` and needed one more exit at least: so everything above it
      is closer to its end. */
  lemma {:induction false} CloserAbove(tree: Tree, l: Life, t: Life, x: Inst, code: int, y: Inst, c: int, z: Inst)
    requires WellFormed(tree) && Ends(tree, l, t, x, code) && Above(l.instances, y, x) && Above(l.instances, z, y)
    requires Climbs(tree, l, t, y, c) && (code == 0 ==> c == 0) && Closer(tree, l, t, y, code == 0)
    ensures z in l.instances && Closer(tree, l, t, z, code == 0)
    decreases y.node
  {
    if z != y {
      var p := OwnerOf(l.instances, y);
      AboveTransitive(l.instances, p, y, x);
      if LastHandler(l.instances[y]).SubNodeDeath? {
        if Awaited(l, p) - {y.node} == map[] {
          LastMember(tree, l, p, y);
          CloserAbove(tree, l, t, x, code, p, 0, z);
        } else {
          LaunchLoses(tree, l, t, x, code, p, y);
          SameAbove(tree, l, t, x, code, p, z);
        }
      } else {
        SequenceNeeds(tree, l, p, y);
        if c != 0 || l.sequences[p].stage + 1 >= |tree[p.node].order| {
          CloserAbove(tree, l, t, x, code, p, c, z);
        } else {
          SequenceLoses(tree, l, t, p, y);
          SameAbove(tree, l, t, x, code, p, z);
        }
      }
    }
  }

  // ---- Moves ----

  /** The move is the exit of a process below `r`. */
  ghost predicate Takes(s: State, m: Move, r: Inst) {
    && m.step.Exit? && m.step.pid in s.life.runningNodes
    && (s.life.runningNodes[m.step.pid], m.step.pid) in s.life.pidInstance
    && Above(s.life.instances, r, PidInst(s.life, m.step.pid))
  }

  /** A process exit brings every instance above it closer to its end, and exactly by one if its code is 0.
      For every other instance, and in every other move, nothing changes. */
  lemma {:induction false} MoveTakes(tree: Tree, s: State, m: Move, r: Inst)
    requires WellFormed(tree) && FreshPids(m.fork) && Stable(tree, s) && r in s.life.instances
    ensures var t := Next(tree, s, m);
      if Takes(s, m, r) then Closer(tree, s.life, t.life, r, m.step.code == 0)
      else r in t.life.instances && Remaining(tree, t.life, r) == Remaining(tree, s.life, r)
  {
    var t := Next(tree, s, m);
    NextKeeps(tree, s, m);
    match m.step
    case Start(n) =>
      if n < |tree| {
        StartKeeps(tree, s, n, m.fork);
        KeptRemains(tree, s.life, t.life, r);
      }
    case Exit(pid, code) =>
      if pid in s.life.runningNodes {
        ReapEnds(tree, s, pid, code, m.fork);
        var x := PidInst(s.life, pid);
        if Above(s.life.instances, r, x) {
          CloserAbove(tree, s.life, t.life, x, code, x, code, r);
        } else {
          ElsewhereRemains(tree, s.life, t.life, x, code, r);
        }
      }
    case Link(n, fd, extFd) =>
    case Watch(n, tag) =>
  }

  lemma {:induction false} ReapEnds(tree: Tree, s: State, pid: int, code: int, fork: Fork)
    requires WellFormed(tree) && FreshPids(fork) && Stable(tree, s) && pid in s.life.runningNodes
    ensures LivePid(tree, s.life, pid, {}) && Remaining(tree, s.life, PidInst(s.life, pid)) == 1
    ensures Ends(tree, s.life, Reap(tree, s, pid, code, fork).life, PidInst(s.life, pid), code)
  {
    ReapKeeps(tree, s, pid, code, fork);
    ReapClimbs(tree, s, pid, code, fork);
  }

  // ---- Runs ----

  /** How many of the moves are exits of processes below `r`. */
  ghost function ExitsOf(tree: Tree, s: State, moves: seq<Move>, r: Inst): nat
    requires WellFormed(tree)
    decreases |moves|
  {
    if moves == [] then 0
    else (if Takes(s, moves[0], r) then 1 else 0) + ExitsOf(tree, Next(tree, s, moves[0]), moves[1..], r)
  }

  /** All these exits have the code 0. */
  ghost predicate ExitsSucceed(tree: Tree, s: State, moves: seq<Move>, r: Inst)
    requires WellFormed(tree)
    decreases |moves|
  {
    moves == []
    || ((Takes(s, moves[0], r) ==> moves[0].step.code == 0) && ExitsSucceed(tree, Next(tree, s, moves[0]), moves[1..], r))
  }

  /** Over every run: what `r` still needs goes down with every exit below it and with nothing else, to
      nothing when it is over.  If these exits all have the code 0 the account is exact. */
  lemma {:induction false} RunTakes(tree: Tree, s: State, moves: seq<Move>, r: Inst)
    requires WellFormed(tree) && Forks(moves) && Stable(tree, s) && r in s.life.instances && RunsBefore(tree, s, moves, r)
    ensures var u := After(tree, s, moves); var left := if r in u.life.instances then Remaining(tree, u.life, r) else 0;
      && ExitsOf(tree, s, moves, r) + left <= Remaining(tree, s.life, r)
      && (ExitsSucceed(tree, s, moves, r) ==> ExitsOf(tree, s, moves, r) + left == Remaining(tree, s.life, r))
    decreases |moves|
  {
    if moves != [] {
      var t := Next(tree, s, moves[0]);
      MoveTakes(tree, s, moves[0], r);
      NextKeeps(tree, s, moves[0]);
      if r in t.life.instances {
        RunTakes(tree, t, moves[1..], r);
      } else {
        assert moves[1..] == [];
      }
    }
  }

  /** However an instance `r` is started, from outside or as a member or stage of a run, and whatever else
      runs beside it: at most as many processes below it are reaped as its node has leaves, fewer as long
      as it runs; and when they all exit with 0 it is over exactly when there were that many. */
  lemma {:induction false} RunEndsWithinLeaves(tree: Tree, s: State, m: Move, moves: seq<Move>, r: Inst)
    requires WellFormed(tree) && FreshPids(m.fork) && Forks(moves) && Stable(tree, s)
    requires r !in s.life.instances && r in Next(tree, s, m).life.instances && RunsBefore(tree, Next(tree, s, m), moves, r)
    ensures r.node < |tree|
    ensures var t := Next(tree, s, m); var u := After(tree, t, moves); var exits := ExitsOf(tree, t, moves, r);
      && exits <= Leaves(tree, r.node)
      && (r in u.life.instances ==> exits < Leaves(tree, r.node))
      && (ExitsSucceed(tree, t, moves, r) ==> (r !in u.life.instances <==> exits == Leaves(tree, r.node)))
  {
    var t := Next(tree, s, m);
    var u := After(tree, t, moves);
    NextKeeps(tree, s, m);
    RunsKeep(tree, t, moves);
    MoveRenews(tree, s, m);
    FreshNeedsLeaves(tree, s.life, t.life, r);
    RunTakes(tree, t, moves, r);
    if r in u.life.instances {
      SomethingRemains(tree, u.life, r);
    }
  }
}
