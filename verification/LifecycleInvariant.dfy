/** What holds of the tables of running instances between steps, and how each assignment to the
    tables keeps it. */
module LifecycleInvariant {
  import opened NodeTree
  import opened Descriptors
  import opened Lifecycle

  /** The handler that a group registered, if any, is the last one. */
  function LastHandler(hs: seq<Handler>): Handler {
    if hs == [] then External(0) else hs[|hs| - 1]
  }

  /** Instance `y` runs and its last handler is `h`. */
  predicate Hooked(l: Life, y: Inst, h: Handler) {
    y in l.instances && LastHandler(l.instances[y]) == h
  }

  /** The owner of handler `h` waits for instance `y`. */
  predicate Waits(l: Life, h: Handler, y: Inst) {
    match h
    case External(_) => true
    case SubNodeDeath(p) => y.node in Awaited(l, p) && Awaited(l, p)[y.node] == y.num
    case Proceed(p) =>
      p in l.sequences && l.sequences[p].currentNode == y.node && l.sequences[p].currentInst == y.num
  }

  predicate AllExternal(hs: seq<Handler>) {
    forall k | 0 <= k < |hs| :: hs[k].External?
  }

  /** A handler that may be registered on node `n`: its owner is a group above `n`. */
  predicate OwnerAbove(tree: Tree, n: NodeId, h: Handler) {
    match h
    case External(_) => true
    case SubNodeDeath(p) => p.node < n && p.node < |tree| && tree[p.node].Launch?
    case Proceed(p) => p.node < n && p.node < |tree| && tree[p.node].Sequence?
  }

  predicate HandlersOk(tree: Tree, n: NodeId, hs: seq<Handler>) {
    (hs == [] || AllExternal(hs[..|hs| - 1])) && OwnerAbove(tree, n, LastHandler(hs))
  }

  predicate HasOwner(h: Handler, p: Inst) {
    !h.External? && h.owner == p
  }

  /** Process `pid` is live and belongs to instance `x`. */
  predicate Runs(l: Life, pid: int, x: Inst) {
    && pid in l.runningNodes && l.runningNodes[pid] == x.node
    && (x.node, pid) in l.pidInstance && l.pidInstance[(x.node, pid)] == x.num
  }

  predicate EntryOk(l: Life, x: Inst, members: seq<NodeId>, c: NodeId) {
    c in members && c in Awaited(l, x) && Hooked(l, Inst(c, Awaited(l, x)[c]), SubNodeDeath(x))
  }

  /** What a running instance waits for: a live process, at least one member, or its current stage;
      and each of these calls the instance back. */
  ghost predicate Down(tree: Tree, l: Life, x: Inst)
    requires x.node < |tree|
  {
    match tree[x.node]
    case Executable => exists pid :: Runs(l, pid, x)
    case Launch(members, _, _) =>
      Awaited(l, x) != map[]
      && forall c {:trigger EntryOk(l, x, members, c)} | c in Awaited(l, x) :: EntryOk(l, x, members, c)
    case Sequence(order) =>
      && x in l.sequences && 0 <= l.sequences[x].stage < |order|
      && l.sequences[x].currentNode == order[l.sequences[x].stage]
      && Hooked(l, Inst(l.sequences[x].currentNode, l.sequences[x].currentInst), Proceed(x))
  }

  /** The instance that registered the last handler of `y` runs and waits for `y`. */
  predicate Up(l: Life, y: Inst)
    requires y in l.instances
  {
    var h := LastHandler(l.instances[y]);
    (h.External? || h.owner in l.instances) && Waits(l, h, y)
  }

  predicate TableOk(tree: Tree, l: Life, x: Inst) {
    x in l.instances ==> x.node < |tree| && HandlersOk(tree, x.node, l.instances[x])
  }

  predicate KeyOk(tree: Tree, l: Life, x: Inst, down: set<Inst>) {
    && (x in l.launches ==> (x in l.instances || x in down) && x.node < |tree| && tree[x.node].Launch?)
    && (x in l.sequences ==> (x in l.instances || x in down) && x.node < |tree| && tree[x.node].Sequence?)
  }

  ghost predicate TablesOk(tree: Tree, l: Life) {
    forall x {:trigger TableOk(tree, l, x)} :: TableOk(tree, l, x)
  }

  ghost predicate DownOk(tree: Tree, l: Life, down: set<Inst>) {
    forall x {:trigger Down(tree, l, x)} | x in l.instances && x !in down :: x.node < |tree| && Down(tree, l, x)
  }

  ghost predicate UpOk(l: Life, up: set<Inst>) {
    forall y {:trigger Up(l, y)} | y in l.instances && y !in up :: Up(l, y)
  }

  ghost predicate KeysOk(tree: Tree, l: Life, down: set<Inst>) {
    forall x {:trigger KeyOk(tree, l, x, down)} :: KeyOk(tree, l, x, down)
  }

  function PidInst(l: Life, pid: int): Inst
    requires pid in l.runningNodes && (l.runningNodes[pid], pid) in l.pidInstance
  {
    Inst(l.runningNodes[pid], l.pidInstance[(l.runningNodes[pid], pid)])
  }

  predicate LivePid(tree: Tree, l: Life, pid: int, down: set<Inst>)
    requires pid in l.runningNodes
  {
    var n := l.runningNodes[pid];
    n < |tree| && tree[n].Executable? && (n, pid) in l.pidInstance
    && PidInst(l, pid) in l.instances && PidInst(l, pid) !in down
  }

  ghost predicate PidsOk(tree: Tree, l: Life, down: set<Inst>) {
    && (forall pid {:trigger LivePid(tree, l, pid, down)} | pid in l.runningNodes :: LivePid(tree, l, pid, down))
    && (forall p, q, x :: Runs(l, p, x) && Runs(l, q, x) ==> p == q)
  }

  /** The invariant inside a step.  Instances in `down` are exempt from `Down` because they are being
      set up or are dying, those in `up` from `Up` because nothing waits for them yet or any more. */
  ghost predicate Inv(tree: Tree, l: Life, down: set<Inst>, up: set<Inst>) {
    TablesOk(tree, l) && DownOk(tree, l, down) && UpOk(l, up) && KeysOk(tree, l, down) && PidsOk(tree, l, down)
  }

  /** Outside `up`, no running instance reports to `x`. */
  predicate NobodyCalls(l: Life, x: Inst, up: set<Inst>) {
    forall y | y in l.instances && y !in up :: !HasOwner(LastHandler(l.instances[y]), x)
  }

  /** The tables of `x` are the same in both. */
  predicate SameTables(l: Life, t: Life, x: Inst) {
    && Awaited(l, x) == Awaited(t, x)
    && (x in l.sequences <==> x in t.sequences) && SequenceOf(l, x) == SequenceOf(t, x)
  }

  /** Every instance of `l` but `gone` still runs in `t` with its handlers. */
  predicate Stay(l: Life, t: Life, gone: set<Inst>) {
    forall x | x in l.instances && x !in gone :: x in t.instances && t.instances[x] == l.instances[x]
  }

  ghost predicate SameProcesses(l: Life, t: Life) {
    t.runningNodes == l.runningNodes && t.pidInstance == l.pidInstance
  }

  lemma {:induction false} DownCarries(tree: Tree, l: Life, t: Life, x: Inst, gone: set<Inst>)
    requires x.node < |tree| && Down(tree, l, x)
    requires SameTables(l, t, x) && Stay(l, t, gone)
    requires forall g | g in gone && g in l.instances :: !HasOwner(LastHandler(l.instances[g]), x)
    requires forall pid | Runs(l, pid, x) :: Runs(t, pid, x)
    ensures Down(tree, t, x)
  {
    match tree[x.node]
    case Executable =>
      var pid :| Runs(l, pid, x);
      assert Runs(t, pid, x);
    case Launch(members, _, _) =>
      forall c | c in Awaited(t, x) ensures EntryOk(t, x, members, c) {
        assert EntryOk(l, x, members, c);
      }
    case Sequence(order) =>
  }

  lemma {:induction false} PidsCarry(tree: Tree, l: Life, t: Life, down: set<Inst>, down': set<Inst>)
    requires PidsOk(tree, l, down) && SameProcesses(l, t)
    requires forall pid | pid in l.runningNodes && LivePid(tree, l, pid, down) ::
      PidInst(l, pid) in t.instances && PidInst(l, pid) !in down'
    ensures PidsOk(tree, t, down')
  {
    forall pid | pid in t.runningNodes ensures LivePid(tree, t, pid, down') {
      assert LivePid(tree, l, pid, down);
      assert PidInst(t, pid) == PidInst(l, pid);
    }
    forall p, q, y | Runs(t, p, y) && Runs(t, q, y) ensures p == q {
      assert Runs(l, p, y) && Runs(l, q, y);
    }
  }

  /** The entries of `t` were entries of `l`, and no instance a kept entry belongs to is lost. */
  lemma {:induction false} KeysCarry(tree: Tree, l: Life, t: Life, down: set<Inst>, down': set<Inst>)
    requires TablesOk(tree, l) && KeysOk(tree, l, down)
    requires forall x | x in t.instances && x in l.instances :: t.instances[x] == l.instances[x]
    requires forall x | x in t.instances && x !in l.instances :: TableOk(tree, t, x)
    requires forall x | x in t.launches :: x in l.launches || KeyOk(tree, t, x, down')
    requires forall x | x in t.sequences :: x in l.sequences || KeyOk(tree, t, x, down')
    requires forall x | (x in t.launches || x in t.sequences) && (x in l.instances || x in down) :: x in t.instances || x in down'
    ensures TablesOk(tree, t) && KeysOk(tree, t, down')
  {
    forall x ensures TableOk(tree, t, x) && KeyOk(tree, t, x, down') {
      assert TableOk(tree, l, x) && KeyOk(tree, l, x, down);
    }
  }

  // ---- The assignments ----

  /** A fresh instance appears; it still has to be set up and nothing waits for it yet. */
  lemma {:induction false} AppearKeeps(tree: Tree, l: Life, x: Inst, hs: seq<Handler>, down: set<Inst>, up: set<Inst>)
    requires Inv(tree, l, down, up) && down <= l.instances.Keys && up <= l.instances.Keys
    requires x !in l.instances && x.node < |tree| && HandlersOk(tree, x.node, hs)
    ensures Inv(tree, Appear(l, x, hs), down + {x}, up + {x})
    ensures NobodyCalls(Appear(l, x, hs), x, up + {x})
    ensures x !in l.launches && x !in l.sequences
  {
    var t := Appear(l, x, hs);
    assert KeyOk(tree, l, x, down);
    KeysCarry(tree, l, t, down, down + {x});
    forall y | y in t.instances && y !in down + {x} ensures y.node < |tree| && Down(tree, t, y) {
      assert TableOk(tree, l, y) && Down(tree, l, y);
      DownCarries(tree, l, t, y, {});
    }
    forall y | y in t.instances && y !in up + {x} ensures Up(t, y) && !HasOwner(LastHandler(t.instances[y]), x) {
      assert Up(l, y);
    }
    PidsCarry(tree, l, t, down, down + {x});
  }

  /** A process is started for an executable instance that has none. */
  lemma {:induction false} AddProcessKeeps(tree: Tree, l: Life, x: Inst, pid: int, down: set<Inst>, up: set<Inst>)
    requires Inv(tree, l, down + {x}, up)
    requires x in l.instances && x !in down && x.node < |tree| && tree[x.node].Executable? && pid !in l.runningNodes
    ensures Inv(tree, AddProcess(l, x, pid), down, up)
  {
    var t := AddProcess(l, x, pid);
    KeysCarry(tree, l, t, down + {x}, down);
    forall y | y in t.instances && y !in down ensures y.node < |tree| && Down(tree, t, y) {
      if y == x {
        assert Runs(t, pid, x);
      } else {
        assert TableOk(tree, l, y) && Down(tree, l, y);
        DownCarries(tree, l, t, y, {});
      }
    }
    forall y | y in t.instances && y !in up ensures Up(t, y) {
      assert Up(l, y);
    }
    AddProcessPids(tree, l, x, pid, down);
  }

  lemma {:induction false} AddProcessPids(tree: Tree, l: Life, x: Inst, pid: int, down: set<Inst>)
    requires PidsOk(tree, l, down + {x}) && x in l.instances && x !in down
    requires x.node < |tree| && tree[x.node].Executable? && pid !in l.runningNodes
    ensures PidsOk(tree, AddProcess(l, x, pid), down)
  {
    var t := AddProcess(l, x, pid);
    forall p | p in t.runningNodes ensures LivePid(tree, t, p, down) {
      assert p != pid ==> LivePid(tree, l, p, down + {x});
    }
    forall p, q, y | Runs(t, p, y) && Runs(t, q, y) ensures p == q {
      assert p != pid ==> LivePid(tree, l, p, down + {x}) && Runs(l, p, y);
      assert q != pid ==> LivePid(tree, l, q, down + {x}) && Runs(l, q, y);
    }
  }

  /** A launch that is being set up is exempt from `Down`; the instances outside `up'` that report to
      it must be in its new table. */
  lemma {:induction false} SetAwaitedKeeps(tree: Tree, l: Life, x: Inst, members: map<NodeId, nat>, down: set<Inst>, up: set<Inst>, up': set<Inst>)
    requires Inv(tree, l, down, up) && x in down && up' <= up
    requires x in l.instances && x.node < |tree| && tree[x.node].Launch?
    requires forall y | y in l.instances && y !in up' && HasOwner(LastHandler(l.instances[y]), x) ::
      LastHandler(l.instances[y]).SubNodeDeath? && y.node in members && members[y.node] == y.num
    requires forall y | y in up && y !in up' :: y in l.instances && HasOwner(LastHandler(l.instances[y]), x)
    ensures Inv(tree, SetAwaited(l, x, members), down, up')
  {
    var t := SetAwaited(l, x, members);
    assert KeyOk(tree, l, x, down);
    assert KeyOk(tree, t, x, down);
    KeysCarry(tree, l, t, down, down);
    forall y | y in t.instances && y !in down ensures y.node < |tree| && Down(tree, t, y) {
      assert TableOk(tree, l, y) && Down(tree, l, y);
      DownCarries(tree, l, t, y, {});
    }
    forall y | y in t.instances && y !in up' ensures Up(t, y) {
      assert y !in up ==> Up(l, y);
    }
    PidsCarry(tree, l, t, down, down);
  }

  /** The same for the table of a sequence. */
  lemma {:induction false} SetSequenceKeeps(tree: Tree, l: Life, x: Inst, r: RunningSequence, down: set<Inst>, up: set<Inst>, up': set<Inst>)
    requires Inv(tree, l, down, up) && x in down && up' <= up
    requires x in l.instances && x.node < |tree| && tree[x.node].Sequence?
    requires forall y | y in l.instances && y !in up' && HasOwner(LastHandler(l.instances[y]), x) ::
      LastHandler(l.instances[y]).Proceed? && y == Inst(r.currentNode, r.currentInst)
    requires forall y | y in up && y !in up' :: y in l.instances && HasOwner(LastHandler(l.instances[y]), x)
    ensures Inv(tree, SetSequence(l, x, r), down, up')
  {
    var t := SetSequence(l, x, r);
    assert KeyOk(tree, l, x, down);
    assert KeyOk(tree, t, x, down);
    KeysCarry(tree, l, t, down, down);
    forall y | y in t.instances && y !in down ensures y.node < |tree| && Down(tree, t, y) {
      assert TableOk(tree, l, y) && Down(tree, l, y);
      DownCarries(tree, l, t, y, {});
    }
    forall y | y in t.instances && y !in up' ensures Up(t, y) {
      assert y !in up ==> Up(l, y);
    }
    PidsCarry(tree, l, t, down, down);
  }

  /** An instance that waits properly need not be exempt. */
  lemma {:induction false} ReadyKeeps(tree: Tree, l: Life, x: Inst, down: set<Inst>, up: set<Inst>)
    requires Inv(tree, l, down + {x}, up) && x in l.instances
    requires x.node < |tree| && Down(tree, l, x)
    ensures Inv(tree, l, down, up)
  {
    KeysCarry(tree, l, l, down + {x}, down);
    forall y | y in l.instances && y !in down ensures y.node < |tree| && Down(tree, l, y) {
      assert TableOk(tree, l, y) && (y != x ==> Down(tree, l, y));
    }
    forall pid | pid in l.runningNodes ensures LivePid(tree, l, pid, down) {
      assert LivePid(tree, l, pid, down + {x});
    }
  }

  // ---- Finishing ----

  /** No instance outside `down` waits for `x`. */
  predicate Unwanted(l: Life, x: Inst, down: set<Inst>)
    requires x in l.instances
  {
    forall y | y in l.instances && y !in down && HasOwner(LastHandler(l.instances[x]), y) ::
      !(x.node in Awaited(l, y) && Awaited(l, y)[x.node] == x.num)
      && (y in l.sequences ==> Inst(l.sequences[y].currentNode, l.sequences[y].currentInst) != x)
  }

  lemma {:induction false} VanishDown(tree: Tree, l: Life, x: Inst, y: Inst)
    requires y.node < |tree| && Down(tree, l, y) && x in l.instances && y != x && !tree[y.node].Executable?
    requires !(x.node in Awaited(l, y) && Awaited(l, y)[x.node] == x.num)
    requires y in l.sequences ==> Inst(l.sequences[y].currentNode, l.sequences[y].currentInst) != x
    ensures Down(tree, Vanish(l, x), y)
  {
    var t := Vanish(l, x);
    if tree[y.node].Launch? {
      forall c | c in Awaited(t, y) ensures EntryOk(t, y, tree[y.node].members, c) {
        assert EntryOk(l, y, tree[y.node].members, c);
      }
    }
  }

  /** A dead instance is removed: it waits for nothing, and nobody waits for it. */
  lemma {:induction false} VanishKeeps(tree: Tree, l: Life, x: Inst, down: set<Inst>, up: set<Inst>)
    requires Inv(tree, l, down, up) && x in down && x in up
    requires x in l.instances && NobodyCalls(l, x, up) && Unwanted(l, x, down)
    ensures Inv(tree, Vanish(l, x), down, up)
  {
    var t := Vanish(l, x);
    KeysCarry(tree, l, t, down, down);
    forall y | y in t.instances && y !in down ensures y.node < |tree| && Down(tree, t, y) {
      assert TableOk(tree, l, y) && Down(tree, l, y);
      if HasOwner(LastHandler(l.instances[x]), y) {
        assert TableOk(tree, l, x);
        VanishDown(tree, l, x, y);
      } else {
        DownCarries(tree, l, t, y, {x});
      }
    }
    forall y | y in t.instances && y !in up ensures Up(t, y) {
      assert Up(l, y);
    }
    PidsCarry(tree, l, t, down, down);
  }

  lemma {:induction false} EntryGoesDown(tree: Tree, l: Life, p: Inst, x: Inst, t: Life)
    requires p.node < |tree| && tree[p.node].Launch? && Down(tree, l, p)
    requires t == SetAwaited(l, p, Awaited(l, p) - {x.node}) && Awaited(t, p) != map[]
    ensures Down(tree, t, p)
  {
    forall c | c in Awaited(t, p) ensures EntryOk(t, p, tree[p.node].members, c) {
      assert EntryOk(l, p, tree[p.node].members, c);
    }
  }

  /** Member `x` of launch `p` died: its entry goes.  The launch is dying itself when that was the last. */
  lemma {:induction false} EntryGoes(tree: Tree, l: Life, p: Inst, x: Inst, down: set<Inst>, down': set<Inst>, up: set<Inst>)
    requires Inv(tree, l, down, up) && p !in down && x in up && x in l.instances
    requires p in l.instances && p.node < |tree| && tree[p.node].Launch?
    requires x.node in Awaited(l, p) && Awaited(l, p)[x.node] == x.num
    requires down' == if Awaited(l, p) - {x.node} == map[] then down + {p} else down
    ensures Inv(tree, SetAwaited(l, p, Awaited(l, p) - {x.node}), down', up)
  {
    var t := SetAwaited(l, p, Awaited(l, p) - {x.node});
    KeysCarry(tree, l, t, down, down');
    forall y | y in t.instances && y !in down' ensures y.node < |tree| && Down(tree, t, y) {
      assert TableOk(tree, l, y) && Down(tree, l, y);
      if y == p {
        EntryGoesDown(tree, l, p, x, t);
      } else {
        DownCarries(tree, l, t, y, {});
      }
    }
    forall y | y in t.instances && y !in up ensures Up(t, y) {
      assert Up(l, y);
    }
    PidsCarry(tree, l, t, down, down');
  }

  lemma {:induction false} DropLaunchKeeps(tree: Tree, l: Life, p: Inst, down: set<Inst>, up: set<Inst>)
    requires Inv(tree, l, down + {p}, up) && p !in l.instances && p !in l.sequences
    ensures Inv(tree, DropLaunch(l, p), down, up)
  {
    var t := DropLaunch(l, p);
    KeysCarry(tree, l, t, down + {p}, down);
    forall y | y in t.instances && y !in down ensures y.node < |tree| && Down(tree, t, y) {
      assert TableOk(tree, l, y) && Down(tree, l, y);
      DownCarries(tree, l, t, y, {});
    }
    forall y | y in t.instances && y !in up ensures Up(t, y) {
      assert Up(l, y);
    }
    PidsCarry(tree, l, t, down + {p}, down);
  }

  /** A sequence whose current stage is dead stops. */
  lemma {:induction false} DropSequenceKeeps(tree: Tree, l: Life, p: Inst, down: set<Inst>, up: set<Inst>)
    requires Inv(tree, l, down, up) && NobodyCalls(l, p, up)
    requires p.node < |tree| && tree[p.node].Sequence?
    ensures Inv(tree, DropSequence(l, p), down + {p}, up)
  {
    var t := DropSequence(l, p);
    KeysCarry(tree, l, t, down, down + {p});
    forall y | y in t.instances && y !in down + {p} ensures y.node < |tree| && Down(tree, t, y) {
      assert TableOk(tree, l, y) && Down(tree, l, y);
      DownCarries(tree, l, t, y, {});
    }
    forall y | y in t.instances && y !in up ensures Up(t, y) {
      assert Up(l, y);
    }
    PidsCarry(tree, l, t, down, down + {p});
  }

  /** A process was reaped: its instance is dying. */
  lemma {:induction false} DropProcessKeeps(tree: Tree, l: Life, pid: int, down: set<Inst>, up: set<Inst>)
    requires Inv(tree, l, down, up) && pid in l.runningNodes
    ensures LivePid(tree, l, pid, down)
    ensures Inv(tree, DropProcess(l, pid), down + {PidInst(l, pid)}, up)
  {
    assert LivePid(tree, l, pid, down);
    var x := PidInst(l, pid);
    var t := DropProcess(l, pid);
    assert Runs(l, pid, x);
    KeysCarry(tree, l, t, down, down + {x});
    forall y | y in t.instances && y !in down + {x} ensures y.node < |tree| && Down(tree, t, y) {
      assert TableOk(tree, l, y) && Down(tree, l, y);
      DownCarries(tree, l, t, y, {});
    }
    forall y | y in t.instances && y !in up ensures Up(t, y) {
      assert Up(l, y);
    }
    forall p | p in t.runningNodes ensures LivePid(tree, t, p, down + {x}) {
      assert LivePid(tree, l, p, down);
      assert Runs(l, p, PidInst(l, p));
    }
    forall p, q, y | Runs(t, p, y) && Runs(t, q, y) ensures p == q {
      assert Runs(l, p, y) && Runs(l, q, y);
    }
  }
}
