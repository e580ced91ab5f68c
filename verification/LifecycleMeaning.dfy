/** The callbacks deliver what the recursive meaning of the tree says. */
module LifecycleMeaning {
  import opened NodeTree
  import opened Descriptors
  import opened Lifecycle
  import opened LifecycleInvariant
  import opened LifecycleStarting
  import opened LifecycleFinishing

  type Instances = map<Inst, seq<Handler>>
  type Sequences = map<Inst, RunningSequence>

  /** Instance `y` was started by a group. */
  predicate Owned(ins: Instances, y: Inst) {
    y in ins && !LastHandler(ins[y]).External? && LastHandler(ins[y]).owner.node < y.node
  }

  function OwnerOf(ins: Instances, y: Inst): Inst
    requires Owned(ins, y)
  {
    LastHandler(ins[y]).owner
  }

  /** The instance from outside the tree that the run of `y` goes back to. */
  function Root(ins: Instances, y: Inst): Inst
    decreases y.node
  {
    if Owned(ins, y) then Root(ins, OwnerOf(ins, y)) else y
  }

  function Stage(seqs: Sequences, x: Inst): nat {
    if x in seqs && seqs[x].stage >= 0 then seqs[x].stage else 0
  }

  /** Where in its run instance `y` sits, as a path for scripts. */
  function Path(ins: Instances, seqs: Sequences, y: Inst): seq<nat>
    decreases y.node
  {
    if Owned(ins, y) then
      var o := OwnerOf(ins, y);
      Path(ins, seqs, o) + [if LastHandler(ins[y]).SubNodeDeath? then y.node else Stage(seqs, o)]
    else []
  }

  function PathIn(l: Life, y: Inst): seq<nat> {
    Path(l.instances, l.sequences, y)
  }

  lemma {:induction false} PathKept(l: Life, t: Life, y: Inst, among: set<Inst>)
    requires y in among
    requires forall z | z in among :: z in l.instances && z in t.instances && t.instances[z] == l.instances[z]
    requires forall z | z in among && Owned(l.instances, z) ::
      OwnerOf(l.instances, z) in among
      && Stage(l.sequences, OwnerOf(l.instances, z)) == Stage(t.sequences, OwnerOf(l.instances, z))
    ensures Root(l.instances, y) == Root(t.instances, y) && PathIn(l, y) == PathIn(t, y)
    decreases y.node
  {
    if Owned(l.instances, y) {
      PathKept(l, t, OwnerOf(l.instances, y), among);
    }
  }

  // ---- The scripted codes of the stages ----

  function StageMeaning(tree: Tree, n: NodeId, script: Script, path: seq<nat>, j: nat): int
    requires WellFormed(tree) && n < |tree| && tree[n].Sequence? && j < |tree[n].order|
  {
    assert WellFormedNode(tree, n) && Parts(tree[n])[j] == tree[n].order[j];
    Meaning(tree, tree[n].order[j], script, path + [j])
  }

  /** The first `k` stages are scripted to exit with 0. */
  ghost predicate StagesZero(tree: Tree, n: NodeId, script: Script, path: seq<nat>, k: nat)
    requires WellFormed(tree) && n < |tree| && tree[n].Sequence? && k <= |tree[n].order|
  {
    forall j: nat | j < k :: StageMeaning(tree, n, script, path, j) == 0
  }

  lemma {:induction false} ZerosAreSkipped(tree: Tree, n: NodeId, script: Script, path: seq<nat>, k: nat)
    requires WellFormed(tree) && n < |tree| && tree[n].Sequence? && k <= |tree[n].order|
    requires StagesZero(tree, n, script, path, k)
    ensures Meaning(tree, n, script, path) == StagesMeaning(tree, n, script, path, k)
  {
    if k > 0 {
      ZerosAreSkipped(tree, n, script, path, k - 1);
      assert StageMeaning(tree, n, script, path, k - 1) == 0;
    }
  }

  /** Sequence instance `z` only got past stages that are scripted to exit with 0. */
  ghost predicate PastStagesZero(tree: Tree, l: Life, z: Inst, script: Script)
    requires WellFormed(tree)
  {
    z in l.sequences && z.node < |tree| && tree[z.node].Sequence? ==>
      && Stage(l.sequences, z) < |tree[z.node].order|
      && StagesZero(tree, z.node, script, PathIn(l, z), Stage(l.sequences, z))
  }

  /** Every sequence in the run of `root` is where the script takes it. */
  ghost predicate OnScript(tree: Tree, l: Life, root: Inst, script: Script, down: set<Inst>)
    requires WellFormed(tree)
  {
    forall z {:trigger PastStagesZero(tree, l, z, script)} | z in l.instances && z !in down && Root(l.instances, z) == root ::
      PastStagesZero(tree, l, z, script)
  }

  // ---- What is reported about one instance ----

  function EventsOf(log: seq<Event>, r: Inst): seq<Event> {
    if log == [] then []
    else EventsOf(log[..|log| - 1], r) + (if log[|log| - 1].x == r then [log[|log| - 1]] else [])
  }

  lemma {:induction false} EventsOfAppend(log: seq<Event>, e: Event, r: Inst)
    ensures EventsOf(log + [e], r) == EventsOf(log, r) + (if e.x == r then [e] else [])
  {
    assert (log + [e])[..|log|] == log;
  }

  /** Each external handler of `x`, in order, is told the code. */
  function Deliveries(x: Inst, code: int, hs: seq<Handler>): seq<Event> {
    if hs == [] then []
    else (if hs[0].External? then [Delivered(hs[0].tag, x, code)] else []) + Deliveries(x, code, hs[1..])
  }

  function Report(x: Inst, code: int, hs: seq<Handler>): seq<Event> {
    [Completed(x, code)] + Deliveries(x, code, hs)
  }

  lemma {:induction false} CallExternals(tree: Tree, s: State, x: Inst, code: int, hs: seq<Handler>, fork: Fork)
    requires WellFormed(tree) && AllExternal(hs)
    ensures CallHandlers(tree, s, x, code, hs, fork) == s.(log := s.log + Deliveries(x, code, hs))
    decreases |hs|
  {
    if hs == [] {
      assert s.log + [] == s.log;
    } else {
      var s1 := s.(log := s.log + [Delivered(hs[0].tag, x, code)]);
      CallExternals(tree, s1, x, code, hs[1..], fork);
      assert s1.log + Deliveries(x, code, hs[1..]) == s.log + Deliveries(x, code, hs);
    }
  }

  lemma {:induction false} EventsOfDeliveries(log: seq<Event>, x: Inst, code: int, hs: seq<Handler>)
    ensures EventsOf(log + Deliveries(x, code, hs), x) == EventsOf(log, x) + Deliveries(x, code, hs)
    decreases |hs|
  {
    if hs == [] {
      assert log + [] == log;
    } else if hs[0].External? {
      var e := Delivered(hs[0].tag, x, code);
      EventsOfDeliveries(log + [e], x, code, hs[1..]);
      EventsOfAppend(log, e, x);
      assert log + [e] + Deliveries(x, code, hs[1..]) == log + Deliveries(x, code, hs);
    } else {
      EventsOfDeliveries(log, x, code, hs[1..]);
      assert Deliveries(x, code, hs) == Deliveries(x, code, hs[1..]);
    }
  }

  // ---- Paths of survivors ----

  lemma {:induction false} OwnersAlive(tree: Tree, l: Life, down: set<Inst>, z: Inst)
    requires Inv(tree, l, down, down) && (forall d {:trigger Dead(l, d)} | d in down :: Dead(l, d))
    requires z in l.instances && z !in down && !LastHandler(l.instances[z]).External?
    ensures Owned(l.instances, z)
    ensures OwnerOf(l.instances, z) in l.instances && OwnerOf(l.instances, z) !in down
  {
    assert TableOk(tree, l, z) && Up(l, z);
    var o := LastHandler(l.instances[z]).owner;
    assert o in down ==> Dead(l, o);
  }

  /** A step leaves the path of a survivor as it was: its owner survives too, and a sequence that
      moves on does so to an instance that did not run before. */
  lemma {:induction false} EvolvedPaths(tree: Tree, l: Life, t: Life, down: set<Inst>, y: Inst)
    requires Inv(tree, l, down, down) && (forall d {:trigger Dead(l, d)} | d in down :: Dead(l, d))
    requires Inv(tree, t, down, down) && (forall d {:trigger Dead(t, d)} | d in down :: Dead(t, d))
    requires Evolves(tree, l, t, down) && y in l.instances && y in t.instances && y !in down
    ensures Root(l.instances, y) == Root(t.instances, y) && PathIn(l, y) == PathIn(t, y)
  {
    var among := set z | z in l.instances && z in t.instances && z !in down;
    forall z | z in among && Owned(l.instances, z)
      ensures OwnerOf(l.instances, z) in among
      ensures Stage(l.sequences, OwnerOf(l.instances, z)) == Stage(t.sequences, OwnerOf(l.instances, z))
    {
      OwnersAlive(tree, l, down, z);
      OwnersAlive(tree, t, down, z);
      var o := OwnerOf(l.instances, z);
      assert TableStep(l, t, o) && Up(t, z);
      assert TableOk(tree, l, z) && KeyOk(tree, l, o, down) && KeyOk(tree, t, o, down);
    }
    PathKept(l, t, y, among);
  }

  // ---- One finishing instance ----

  /** `code` is what the script says about `x`, if `x` belongs to the run of `root`. */
  ghost predicate Scripted(tree: Tree, l: Life, x: Inst, code: int, root: Inst, script: Script)
    requires WellFormed(tree)
  {
    x.node < |tree| && (Root(l.instances, x) == root ==> code == Meaning(tree, x.node, script, PathIn(l, x)))
  }

  /** What a step from `s` to `t` reports about instance `r`, in whatever position of the run of `root` it
      is: nothing, unless `r` is gone; then its meaning there, once, and once to each of its handlers. */
  ghost predicate Outcome(tree: Tree, s: State, t: State, root: Inst, r: Inst, script: Script)
    requires WellFormed(tree)
  {
    if r !in s.life.instances || r in t.life.instances then
      EventsOf(t.log, r) == EventsOf(s.log, r)
    else
      r.node < |tree| && Root(s.life.instances, r) == root ==>
        EventsOf(t.log, r) ==
          EventsOf(s.log, r) + Report(r, Meaning(tree, r.node, script, PathIn(s.life, r)), s.life.instances[r])
  }

  /** The situation in which an instance is finished while the run of `root` is watched. */
  ghost predicate Watching(tree: Tree, s: State, x: Inst, down: set<Inst>, root: Inst, script: Script)
    requires WellFormed(tree)
  {
    && Inv(tree, s.life, down, down) && Dying(s.life, x, down) && Up(s.life, x) && PendingOk(s)
    && OnScript(tree, s.life, root, script, down)
  }

  lemma {:induction false} FinishMeans(tree: Tree, s: State, x: Inst, code: int, fork: Fork, down: set<Inst>, root: Inst, r: Inst, script: Script)
    requires WellFormed(tree) && FreshPids(fork)
    requires Watching(tree, s, x, down, root, script) && Scripted(tree, s.life, x, code, root, script)
    ensures Outcome(tree, s, FinishInstance(tree, s, x, code, fork), root, r, script)
    ensures OnScript(tree, FinishInstance(tree, s, x, code, fork).life, root, script, down)
    decreases x.node, 2, 0
  {
    var s1 := s.(log := s.log + [Completed(x, code)]);
    EventsOfAppend(s.log, Completed(x, code), r);
    assert TableOk(tree, s.life, x);
    var hs := s.life.instances[x];
    CallHandlersMean(tree, s1, x, code, hs, fork, down, root, r, script);
    var s2 := CallHandlers(tree, s1, x, code, hs, fork);
    CallHandlersKeep(tree, s1, x, code, hs, fork, down);
    VanishOnScript(tree, s1, s2, x, root, script, down);
    if r == x {
      assert EventsOf(s.log, r) + [Completed(x, code)] + Deliveries(x, code, hs)
        == EventsOf(s.log, r) + Report(r, code, hs);
    }
  }

  lemma {:induction false} VanishOnScript(tree: Tree, s: State, t: State, x: Inst, root: Inst, script: Script, down: set<Inst>)
    requires WellFormed(tree) && Dying(s.life, x, down) && Handled(tree, s, t, x, down)
    requires OnScript(tree, t.life, root, script, down)
    ensures OnScript(tree, Vanish(t.life, x), root, script, down)
  {
    var l := t.life;
    forall d | d in down ensures Dead(l, d) {
      assert Dead(s.life, d) && SameTables(s.life, l, d);
    }
    var v := Vanish(l, x);
    forall z | z in v.instances && z !in down && Root(v.instances, z) == root ensures PastStagesZero(tree, v, z, script) {
      VanishPath(tree, l, x, down, z);
      assert PastStagesZero(tree, l, z, script);
    }
  }

  lemma {:induction false} VanishPath(tree: Tree, l: Life, x: Inst, down: set<Inst>, y: Inst)
    requires Inv(tree, l, down, down) && (forall d {:trigger Dead(l, d)} | d in down :: Dead(l, d))
    requires x in down && y in l.instances && y !in down
    ensures Root(l.instances, y) == Root(Vanish(l, x).instances, y) && PathIn(l, y) == PathIn(Vanish(l, x), y)
  {
    var among := l.instances.Keys - down;
    forall z | z in among && Owned(l.instances, z) ensures OwnerOf(l.instances, z) in among {
      OwnersAlive(tree, l, down, z);
    }
    PathKept(l, Vanish(l, x), y, among);
  }

  /** What calling the handlers `hs` of `x` reports about `r`. */
  ghost predicate HandlersReport(tree: Tree, s: State, t: State, x: Inst, code: int, hs: seq<Handler>, root: Inst, r: Inst, script: Script)
    requires WellFormed(tree)
  {
    if r == x then EventsOf(t.log, r) == EventsOf(s.log, r) + Deliveries(x, code, hs)
    else Outcome(tree, s, t, root, r, script)
  }

  lemma {:induction false} CallHandlersMean(tree: Tree, s: State, x: Inst, code: int, hs: seq<Handler>, fork: Fork, down: set<Inst>, root: Inst, r: Inst, script: Script)
    requires WellFormed(tree) && FreshPids(fork)
    requires Watching(tree, s, x, down, root, script) && Scripted(tree, s.life, x, code, root, script)
    requires HandlersOk(tree, x.node, hs) && LastHandler(hs) == LastHandler(s.life.instances[x])
    ensures HandlersReport(tree, s, CallHandlers(tree, s, x, code, hs, fork), x, code, hs, root, r, script)
    ensures OnScript(tree, CallHandlers(tree, s, x, code, hs, fork).life, root, script, down)
    decreases x.node, 1, |hs|
  {
    if hs == [] {
    } else if |hs| == 1 {
      assert LastHandler(hs) == hs[0];
      CallHandlerMeans(tree, s, x, code, hs[0], fork, down, root, r, script);
      assert hs == [hs[0]];
    } else {
      assert AllExternal(hs[..|hs| - 1]) && hs[0] == hs[..|hs| - 1][0];
      var s1 := CallHandler(tree, s, x, code, hs[0], fork);
      assert s1 == s.(log := s.log + [Delivered(hs[0].tag, x, code)]);
      TailOk(tree, x.node, hs);
      CallHandlersMean(tree, s1, x, code, hs[1..], fork, down, root, r, script);
      DeliveredFirst(tree, s, s1, CallHandlers(tree, s1, x, code, hs[1..], fork), x, code, hs, root, r, script);
    }
  }

  lemma {:induction false} DeliveredFirst(tree: Tree, s: State, s1: State, t: State, x: Inst, code: int, hs: seq<Handler>, root: Inst, r: Inst, script: Script)
    requires WellFormed(tree) && hs != [] && hs[0].External? && s1 == s.(log := s.log + [Delivered(hs[0].tag, x, code)])
    requires HandlersReport(tree, s1, t, x, code, hs[1..], root, r, script)
    ensures HandlersReport(tree, s, t, x, code, hs, root, r, script)
  {
    EventsOfAppend(s.log, Delivered(hs[0].tag, x, code), r);
  }

  lemma {:induction false} CallHandlerMeans(tree: Tree, s: State, x: Inst, code: int, h: Handler, fork: Fork, down: set<Inst>, root: Inst, r: Inst, script: Script)
    requires WellFormed(tree) && FreshPids(fork)
    requires Watching(tree, s, x, down, root, script) && Scripted(tree, s.life, x, code, root, script)
    requires h == LastHandler(s.life.instances[x])
    ensures HandlersReport(tree, s, CallHandler(tree, s, x, code, h, fork), x, code, [h], root, r, script)
    ensures OnScript(tree, CallHandler(tree, s, x, code, h, fork).life, root, script, down)
    decreases x.node, 0, 0
  {
    assert TableOk(tree, s.life, x);
    assert Deliveries(x, code, [h][1..]) == [];
    CallHandlerKeeps(tree, s, x, code, h, fork, down);
    match h
    case External(tag) => EventsOfAppend(s.log, Delivered(tag, x, code), r);
    case SubNodeDeath(p) => OnSubNodeDeathMeans(tree, s, p, x, fork, down, root, r, script);
    case Proceed(p) => ProceedMeans(tree, s, p, x, code, fork, down, root, r, script);
  }

  lemma {:induction false} OnSubNodeDeathMeans(tree: Tree, s: State, p: Inst, x: Inst, fork: Fork, down: set<Inst>, root: Inst, r: Inst, script: Script)
    requires WellFormed(tree) && FreshPids(fork)
    requires Watching(tree, s, x, down, root, script)
    requires LastHandler(s.life.instances[x]) == SubNodeDeath(p) && p.node < x.node
    ensures Outcome(tree, s, OnSubNodeDeath(tree, s, p, x.node, fork), root, r, script)
    ensures OnScript(tree, OnSubNodeDeath(tree, s, p, x.node, fork).life, root, script, down)
    decreases p.node, 3, 0
  {
    assert TableOk(tree, s.life, x);
    var left := Awaited(s.life, p) - {x.node};
    var s1 := s.(life := SetAwaited(s.life, p, left));
    var down' := if left == map[] then down + {p} else down;
    MemberDies(tree, s.life, p, x, down, down');
    SameTreeOnScript(tree, s.life, s1.life, root, script, down, down');
    if left == map[] {
      assert Watching(tree, s1, p, down', root, script);
      FinishMeans(tree, s1, p, 0, fork, down', root, r, script);
      FinishKeeps(tree, s1, p, 0, fork, down');
      var s2 := FinishInstance(tree, s1, p, 0, fork);
      GoneExempt(tree, s2.life, DropLaunch(s2.life, p), p, root, script, down);
    }
  }

  /** The launch tables play no part in paths. */
  lemma {:induction false} SameTreeOnScript(tree: Tree, l: Life, t: Life, root: Inst, script: Script, down: set<Inst>, down': set<Inst>)
    requires WellFormed(tree) && t.instances == l.instances && t.sequences == l.sequences && down <= down'
    requires OnScript(tree, l, root, script, down)
    ensures OnScript(tree, t, root, script, down')
  {
    forall z | z in t.instances && z !in down' && Root(t.instances, z) == root ensures PastStagesZero(tree, t, z, script) {
      assert PastStagesZero(tree, l, z, script);
    }
  }

  /** An instance that is gone need not be exempt. */
  lemma {:induction false} GoneExempt(tree: Tree, l: Life, t: Life, p: Inst, root: Inst, script: Script, down: set<Inst>)
    requires WellFormed(tree) && OnScript(tree, l, root, script, down + {p}) && p !in l.instances
    requires t.instances == l.instances && t.sequences == l.sequences
    ensures OnScript(tree, t, root, script, down)
  {
    forall z | z in t.instances && z !in down && Root(t.instances, z) == root ensures PastStagesZero(tree, t, z, script) {
      assert PastStagesZero(tree, l, z, script);
    }
  }

  lemma {:induction false} ProceedMeans(tree: Tree, s: State, p: Inst, x: Inst, code: int, fork: Fork, down: set<Inst>, root: Inst, r: Inst, script: Script)
    requires WellFormed(tree) && FreshPids(fork)
    requires Watching(tree, s, x, down, root, script) && Scripted(tree, s.life, x, code, root, script)
    requires LastHandler(s.life.instances[x]) == Proceed(p) && p.node < x.node
    ensures Outcome(tree, s, ProceedWith(tree, s, p, code, fork), root, r, script)
    ensures OnScript(tree, ProceedWith(tree, s, p, code, fork).life, root, script, down)
    decreases p.node, 3, 0
  {
    assert TableOk(tree, s.life, x);
    StageDies(tree, s.life, p, x, down);
    StageScripted(tree, s.life, p, x, code, root, script, down);
    var stage := SequenceOf(s.life, p).stage + 1;
    if code != 0 || stage >= |Order(tree, p.node)| {
      StopMeans(tree, s, p, x, code, fork, down, root, r, script);
    } else {
      GoOnMeans(tree, s, p, x, stage, fork, down, root, r, script);
    }
  }

  /** What `StageScripted` gives: stage `k` of sequence `p` is current and its script code is `code`. */
  ghost predicate StageCode(tree: Tree, l: Life, p: Inst, code: int, root: Inst, script: Script)
    requires WellFormed(tree)
  {
    && p in l.instances && p in l.sequences && p.node < |tree| && tree[p.node].Sequence?
    && 0 <= l.sequences[p].stage < |tree[p.node].order|
    && (Root(l.instances, p) == root ==>
          && StagesZero(tree, p.node, script, PathIn(l, p), l.sequences[p].stage)
          && code == StageMeaning(tree, p.node, script, PathIn(l, p), l.sequences[p].stage))
  }

  lemma {:induction false} StopMeans(tree: Tree, s: State, p: Inst, x: Inst, code: int, fork: Fork, down: set<Inst>, root: Inst, r: Inst, script: Script)
    requires WellFormed(tree) && FreshPids(fork) && Watching(tree, s, x, down, root, script)
    requires p !in down && p.node < x.node && NobodyCalls(s.life, p, down) && StageCode(tree, s.life, p, code, root, script)
    requires code != 0 || s.life.sequences[p].stage + 1 >= |tree[p.node].order|
    ensures Outcome(tree, s, ProceedWith(tree, s, p, code, fork), root, r, script)
    ensures OnScript(tree, ProceedWith(tree, s, p, code, fork).life, root, script, down)
    decreases p.node, 2, 1
  {
    var s1 := s.(life := DropSequence(s.life, p), fds := CloseFds(s.fds, OfSequence(p)));
    SequenceStops(tree, s.life, p, x, down);
    StoppedOnScript(tree, s.life, p, code, root, script, down);
    assert Watching(tree, s1, p, down + {p}, root, script);
    FinishMeans(tree, s1, p, code, fork, down + {p}, root, r, script);
    FinishKeeps(tree, s1, p, code, fork, down + {p});
    var t := FinishInstance(tree, s1, p, code, fork);
    GoneExempt(tree, t.life, t.life, p, root, script, down);
    if r in s.life.instances && r !in t.life.instances {
      assert r in down ==> SameTables(s1.life, t.life, r);
      DropSequencePath(tree, s.life, p, down, r);
    }
  }

  lemma {:induction false} GoOnMeans(tree: Tree, s: State, p: Inst, x: Inst, stage: nat, fork: Fork, down: set<Inst>, root: Inst, r: Inst, script: Script)
    requires WellFormed(tree) && FreshPids(fork) && Watching(tree, s, x, down, root, script)
    requires p !in down && NobodyCalls(s.life, p, down) && StageCode(tree, s.life, p, 0, root, script)
    requires stage == s.life.sequences[p].stage + 1 < |tree[p.node].order|
    requires LastHandler(s.life.instances[x]) == Proceed(p)
    ensures Outcome(tree, s, StartStage(tree, s, p, stage, fork), root, r, script)
    ensures OnScript(tree, StartStage(tree, s, p, stage, fork).life, root, script, down)
  {
    MoreDown(tree, s.life, p, down);
    StartStageKeeps(tree, s, p, stage, fork, down, down);
    var t := StartStage(tree, s, p, stage, fork);
    SequenceGoesOn(tree, s, t, p, x, stage, down);
    AdvancedOnScript(tree, s, t, p, x, root, script, stage, down);
  }

  /** The code of the finished stage is what the script says about that stage of the sequence. */
  lemma {:induction false} StageScripted(tree: Tree, l: Life, p: Inst, x: Inst, code: int, root: Inst, script: Script, down: set<Inst>)
    requires WellFormed(tree) && Inv(tree, l, down, down) && OnScript(tree, l, root, script, down)
    requires p in l.instances && p !in down && p.node < |tree| && tree[p.node].Sequence? && p.node < x.node
    requires x in l.instances && LastHandler(l.instances[x]) == Proceed(p) && Scripted(tree, l, x, code, root, script)
    requires p in l.sequences && x == Inst(l.sequences[p].currentNode, l.sequences[p].currentInst)
    ensures StageCode(tree, l, p, code, root, script)
  {
    assert Owned(l.instances, x) && OwnerOf(l.instances, x) == p;
    assert Down(tree, l, p);
    if Root(l.instances, p) == root {
      assert PastStagesZero(tree, l, p, script);
      assert PathIn(l, x) == PathIn(l, p) + [Stage(l.sequences, p)];
    }
  }

  /** A sequence that stops does so with its meaning. */
  lemma {:induction false} StoppedOnScript(tree: Tree, l: Life, p: Inst, code: int, root: Inst, script: Script, down: set<Inst>)
    requires WellFormed(tree) && Inv(tree, l, down, down) && OnScript(tree, l, root, script, down)
    requires forall d {:trigger Dead(l, d)} | d in down :: Dead(l, d)
    requires p !in down && NobodyCalls(l, p, down) && StageCode(tree, l, p, code, root, script)
    requires code != 0 || l.sequences[p].stage + 1 >= |tree[p.node].order|
    ensures OnScript(tree, DropSequence(l, p), root, script, down + {p})
    ensures Scripted(tree, DropSequence(l, p), p, code, root, script)
  {
    var t := DropSequence(l, p);
    forall z | z in l.instances && z !in down ensures Root(l.instances, z) == Root(t.instances, z) && PathIn(l, z) == PathIn(t, z) {
      DropSequencePath(tree, l, p, down, z);
    }
    forall z | z in t.instances && z !in down + {p} && Root(t.instances, z) == root ensures PastStagesZero(tree, t, z, script) {
      assert PastStagesZero(tree, l, z, script);
    }
    if Root(l.instances, p) == root {
      ZerosAreSkipped(tree, p.node, script, PathIn(l, p), l.sequences[p].stage);
    }
  }

  lemma {:induction false} DropSequencePath(tree: Tree, l: Life, p: Inst, down: set<Inst>, y: Inst)
    requires Inv(tree, l, down, down) && (forall d {:trigger Dead(l, d)} | d in down :: Dead(l, d))
    requires NobodyCalls(l, p, down) && y in l.instances && y !in down
    ensures Root(l.instances, y) == Root(DropSequence(l, p).instances, y) && PathIn(l, y) == PathIn(DropSequence(l, p), y)
  {
    var among := l.instances.Keys - down;
    forall z | z in among && Owned(l.instances, z) ensures OwnerOf(l.instances, z) in among && OwnerOf(l.instances, z) != p {
      OwnersAlive(tree, l, down, z);
    }
    PathKept(l, DropSequence(l, p), y, among);
  }

  /** A sequence that goes on has one more stage behind it that exited with 0. */
  lemma {:induction false} AdvancedOnScript(tree: Tree, s: State, t: State, p: Inst, x: Inst, root: Inst, script: Script, stage: nat, down: set<Inst>)
    requires WellFormed(tree) && Watching(tree, s, x, down, root, script)
    requires Handled(tree, s, t, x, down) && StageStarted(tree, s, t, p, stage, down, down)
    requires p !in down && StageCode(tree, s.life, p, 0, root, script)
    requires stage == s.life.sequences[p].stage + 1 < |tree[p.node].order|
    ensures OnScript(tree, t.life, root, script, down)
  {
    forall d | d in down ensures Dead(t.life, d) {
      assert Dead(s.life, d) && SameTables(s.life, t.life, d);
    }
    forall z | z in t.life.instances && z !in down && Root(t.life.instances, z) == root
      ensures PastStagesZero(tree, t.life, z, script)
    {
      if z !in s.life.instances {
        assert AtStart(tree, t.life, z);
        assert TableOk(tree, t.life, z);
        assert z.node < |tree| && !tree[z.node].Executable? ==> WellFormedNode(tree, z.node);
      } else {
        EvolvedPaths(tree, s.life, t.life, down, z);
        if z != p {
          assert SameTables(s.life, t.life, z) && PastStagesZero(tree, s.life, z, script);
        }
      }
    }
  }
}
