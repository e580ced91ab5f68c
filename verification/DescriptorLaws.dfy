/** The descriptor maps: moving sources in ascending order is a simultaneous assignment, handing a
    map on keeps that assignment, and every descriptor that is opened has an owner that closes it. */
module DescriptorLaws {
  import opened NodeTree
  import opened Descriptors

  // ---- The assignment that a map stands for ----

  /** `k` is the greatest source in `keys` that leads to `target`. */
  predicate Greatest(fdMap: map<nat, nat>, keys: set<nat>, target: nat, k: nat) {
    k in keys && k in fdMap && fdMap[k] == target
    && forall j | j in keys && j in fdMap && fdMap[j] == target :: j <= k
  }

  predicate NoSource(fdMap: map<nat, nat>, keys: set<nat>, target: nat) {
    forall j | j in keys && j in fdMap :: fdMap[j] != target
  }

  lemma {:induction false} SomeGreatest(fdMap: map<nat, nat>, keys: set<nat>, target: nat) returns (k: nat)
    requires !NoSource(fdMap, keys, target)
    ensures Greatest(fdMap, keys, target, k)
    decreases |keys|
  {
    k :| k in keys && k in fdMap && fdMap[k] == target;
    var rest := keys - {k};
    if !NoSource(fdMap, rest, target) {
      var j := SomeGreatest(fdMap, rest, target);
      if k < j {
        k := j;
      }
    }
  }

  /** Every source is open and lies above its target. */
  predicate Upward(table: Table, fdMap: map<nat, nat>, keys: set<nat>) {
    forall k | k in keys && k in fdMap :: k in table && fdMap[k] < k
  }

  lemma {:induction false} UntargetedKept(table: Table, fdMap: map<nat, nat>, todo: set<nat>, fd: nat)
    requires todo <= fdMap.Keys && NoSource(fdMap, todo, fd)
    ensures var after := OverwriteFrom(table, fdMap, todo);
      (fd in after <==> fd in table) && (fd in table ==> after[fd] == table[fd])
    decreases |todo|
  {
    if todo != {} {
      var k := Min(todo);
      UntargetedKept(Dup2(table, k, fdMap[k]), fdMap, todo - {k}, fd);
    }
  }

  lemma {:induction false} GreatestSourceWins(table: Table, fdMap: map<nat, nat>, todo: set<nat>, fd: nat, g: nat)
    requires todo <= fdMap.Keys && Upward(table, fdMap, todo) && Greatest(fdMap, todo, fd, g)
    ensures var after := OverwriteFrom(table, fdMap, todo);
      g in table && fd in after && after[fd] == Entry(table[g].file, false)
    decreases |todo|
  {
    var k := Min(todo);
    var table' := Dup2(table, k, fdMap[k]);
    if k == g {
      assert NoSource(fdMap, todo - {k}, fd);
      UntargetedKept(table', fdMap, todo - {k}, fd);
    } else {
      GreatestSourceWins(table', fdMap, todo - {k}, fd, g);
    }
  }

  /** The ascending moves are a simultaneous assignment: every target gets what its greatest source
      held before the first move, and every other number is left alone.  In particular no source is
      overwritten before it is used. */
  lemma {:induction false} OverwriteIsSimultaneous(table: Table, fdMap: map<nat, nat>, fd: nat, g: nat)
    requires Upward(table, fdMap, fdMap.Keys)
    ensures var after := OverwriteFrom(table, fdMap, fdMap.Keys);
      && (Greatest(fdMap, fdMap.Keys, fd, g) ==> fd in after && after[fd] == Entry(table[g].file, false))
      && (NoSource(fdMap, fdMap.Keys, fd) ==> (fd in after <==> fd in table) && (fd in table ==> after[fd] == table[fd]))
  {
    if Greatest(fdMap, fdMap.Keys, fd, g) {
      GreatestSourceWins(table, fdMap, fdMap.Keys, fd, g);
    } else if NoSource(fdMap, fdMap.Keys, fd) {
      UntargetedKept(table, fdMap, fdMap.Keys, fd);
    }
  }

  // ---- Ownership ----

  /** What holder `h` owns: open descriptors that are not part of `base`, close on execution, and
      lie above the number they lead to. */
  predicate Owns(f: Fds, base: Table, h: Holder) {
    forall k | k in MapOf(f, h) ::
      k in f.open && f.open[k].cloexec && k !in base && MapOf(f, h)[k] < k
  }

  /** Two holders own nothing in common. */
  predicate Apart(f: Fds, h: Holder, h': Holder) {
    forall k | k in MapOf(f, h) :: k !in MapOf(f, h')
  }

  ghost predicate Accounted(f: Fds, base: Table, k: nat) {
    k in base || exists h :: k in MapOf(f, h)
  }

  /** The open descriptors are those of `base`, unchanged, and those that exactly one holder owns; and
      every pipe among them is one that was made. */
  ghost predicate Conserved(f: Fds, base: Table) {
    && (forall h {:trigger Owns(f, base, h)} :: Owns(f, base, h))
    && (forall h, h' {:trigger Apart(f, h, h')} | h != h' :: Apart(f, h, h'))
    && (forall k | k in base :: k in f.open && f.open[k] == base[k])
    && (forall k {:trigger Accounted(f, base, k)} | k in f.open :: Accounted(f, base, k))
    && (forall k | k in f.open :: Numbered(f.open[k].file, f.pipes))
  }

  /** Only the map of `h` differs, and it gained or lost nothing that others own. */
  lemma {:induction false} OthersApart(f: Fds, t: Fds, base: Table, h: Holder)
    requires Conserved(f, base)
    requires forall h' | h' != h :: MapOf(t, h') == MapOf(f, h')
    requires forall k | k in MapOf(t, h) :: k in MapOf(f, h) || k !in f.open
    ensures forall h', h'' {:trigger Apart(t, h', h'')} | h' != h'' :: Apart(t, h', h'')
  {
    forall h', h'' | h' != h'' ensures Apart(t, h', h'') {
      assert Apart(f, h', h'') && Owns(f, base, h') && Owns(f, base, h'');
      if h' != h && h'' != h {
      } else if h' == h {
        assert MapOf(t, h'') == MapOf(f, h'');
      } else {
        assert MapOf(t, h') == MapOf(f, h');
      }
    }
  }

  lemma {:induction false} LinkConserves(f: Fds, base: Table, h: Holder, fd: nat, extFd: nat)
    requires Conserved(f, base)
    ensures Conserved(LinkFd(f, h, fd, extFd), base)
  {
    if extFd in f.open {
      var t := LinkFd(f, h, fd, extFd);
      var k := FirstFree(f.open.Keys, fd + 1);
      assert MapOf(t, h) == MapOf(f, h)[k := fd];
      OthersApart(f, t, base, h);
      forall h' ensures Owns(t, base, h') {
        assert Owns(f, base, h');
      }
      forall j | j in t.open ensures Accounted(t, base, j) {
        if j == k {
          assert k in MapOf(t, h);
        } else if j !in base {
          assert Accounted(f, base, j);
          var h' :| j in MapOf(f, h');
          assert j in MapOf(t, h');
        }
      }
    }
  }

  /** From `f` to `t` one descriptor for `file` was opened, the first closed one above `fd`, and given to
      `h` to lead to `fd`. */
  ghost predicate OpenedAbove(f: Fds, t: Fds, h: Holder, fd: nat, file: File) {
    exists k {:trigger k in t.open} :: k > fd && k !in f.open && (forall j | fd < j < k :: j in f.open)
      && t.open == f.open[k := Entry(file, true)] && MapOf(t, h) == MapOf(f, h)[k := fd]
      && forall h' | h' != h :: MapOf(t, h') == MapOf(f, h')
  }

  /** A link of an open source opens exactly one descriptor, the first closed one above the target; a link
      of a closed one does nothing. */
  lemma {:induction false} LinkOpens(f: Fds, h: Holder, fd: nat, extFd: nat)
    ensures if extFd in f.open then OpenedAbove(f, LinkFd(f, h, fd, extFd), h, fd, f.open[extFd].file)
      else LinkFd(f, h, fd, extFd) == f
  {
    if extFd in f.open {
      var t := LinkFd(f, h, fd, extFd);
      var k := FirstFree(f.open.Keys, fd + 1);
      assert MapOf(t, h) == MapOf(f, h)[k := fd] && k in t.open;
    }
  }

  lemma {:induction false} PassFromConserves(f: Fds, base: Table, source: map<nat, nat>, child: Holder, todo: set<nat>)
    requires Conserved(f, base) && todo <= source.Keys
    ensures Conserved(PassFrom(f, source, child, todo), base) && PassFrom(f, source, child, todo).pipes == f.pipes
    decreases |todo|
  {
    if todo != {} {
      var k := Min(todo);
      LinkConserves(f, base, child, source[k], k);
      PassFromConserves(LinkFd(f, child, source[k], k), base, source, child, todo - {k});
    }
  }

  lemma {:induction false} CloseConserves(f: Fds, base: Table, h: Holder)
    requires Conserved(f, base)
    ensures Conserved(CloseFds(f, h), base) && MapOf(CloseFds(f, h), h) == map[]
  {
    var t := CloseFds(f, h);
    OthersApart(f, t, base, h);
    forall h' ensures Owns(t, base, h') {
      assert Owns(f, base, h') && (h' != h ==> Apart(f, h', h));
    }
    assert Owns(f, base, h);
    forall j | j in t.open ensures Accounted(t, base, j) {
      assert Accounted(f, base, j);
      if j !in base {
        var h' :| j in MapOf(f, h');
        assert j in MapOf(t, h');
      }
    }
  }

  lemma {:induction false} PassFdConserves(f: Fds, base: Table, h: Holder, child: Holder, outer: nat, inner: nat)
    requires Conserved(f, base)
    ensures Conserved(PassFd(f, h, child, outer, inner), base)
  {
    var ks := Sources(MapOf(f, h), outer);
    if ks != {} {
      LinkConserves(f, base, child, inner, Min(ks));
    }
  }

  lemma {:induction false} PassExternalsConserve(f: Fds, base: Table, h: Holder, externals: seq<Externalize>)
    requires Conserved(f, base)
    ensures Conserved(PassExternals(f, h, externals), base) && PassExternals(f, h, externals).pipes == f.pipes
    decreases |externals|
  {
    if externals != [] {
      var e := externals[0];
      PassFdConserves(f, base, h, OfNode(e.member), e.outer, e.inner);
      PassExternalsConserve(PassFd(f, h, OfNode(e.member), e.outer, e.inner), base, h, externals[1..]);
    }
  }

  lemma {:induction false} SameMapsApart(f: Fds, t: Fds, base: Table)
    requires Conserved(f, base) && t.maps == f.maps
    ensures forall h, h' {:trigger Apart(t, h, h')} | h != h' :: Apart(t, h, h')
  {
    forall h, h' | h != h' ensures Apart(t, h, h') {
      assert Apart(f, h, h') && MapOf(t, h) == MapOf(f, h) && MapOf(t, h') == MapOf(f, h');
    }
  }

  lemma {:induction false} WidenBase(f: Fds, t: Fds, base: Table, more: Table)
    requires Conserved(f, base) && t.maps == f.maps && t.open == f.open + more
    requires forall k | k in more :: k !in f.open && Numbered(more[k].file, t.pipes)
    requires f.pipes <= t.pipes
    ensures Conserved(t, base + more)
  {
    SameMapsApart(f, t, base);
    forall h ensures Owns(t, base + more, h) {
      assert Owns(f, base, h);
    }
    forall k | k in t.open ensures Accounted(t, base + more, k) {
      if k in f.open && k !in base {
        assert Accounted(f, base, k);
        var h :| k in MapOf(f, h);
        assert k in MapOf(t, h);
      }
    }
  }

  lemma {:induction false} NarrowBase(f: Fds, t: Fds, base: Table, more: Table)
    requires Conserved(f, base + more) && t.maps == f.maps && t.open == f.open - more.Keys && t.pipes == f.pipes
    requires forall k | k in more :: k !in base
    ensures Conserved(t, base)
  {
    SameMapsApart(f, t, base + more);
    forall h ensures Owns(t, base, h) {
      assert Owns(f, base + more, h);
    }
    forall k | k in t.open ensures Accounted(t, base, k) {
      assert Accounted(f, base + more, k);
      if k !in base {
        var h :| k in MapOf(f, h);
        assert k in MapOf(t, h);
      }
    }
  }

  function PipeEntries(pipe: nat, read: nat, write: nat): Table {
    map[read := Entry(ReadEnd(pipe), true), write := Entry(WriteEnd(pipe), true)]
  }

  lemma {:induction false} PipeWidens(f: Fds, base: Table)
    requires Conserved(f, base)
    ensures var (f1, read, write) := OpenPipe(f);
      Conserved(f1, base + PipeEntries(f.pipes, read, write)) && read !in base && write !in base
  {
    var (f1, read, write) := OpenPipe(f);
    assert f1.open == f.open + PipeEntries(f.pipes, read, write);
    WidenBase(f, f1, base, PipeEntries(f.pipes, read, write));
  }

  /** The states inside one turn of the linkage loop, and the two pipe descriptors. */
  datatype Turn = Turn(piped: Fds, linkedTo: Fds, linked: Fds, pipe: nat, read: nat, write: nat) {
    function Entries(): Table {
      PipeEntries(pipe, read, write)
    }
  }

  /** `turn` leads from `f` to `t`: a pipe is opened beside what is there, linked to both members, and its two
      descriptors are closed again. */
  ghost predicate Turns(f: Fds, base: Table, link: Link, turn: Turn, t: Fds) {
    && turn.piped.maps == f.maps && turn.piped.open == f.open + turn.Entries() && turn.piped.pipes == f.pipes + 1
    && turn.pipe == f.pipes && turn.read != turn.write && turn.read !in f.open && turn.write !in f.open
    && turn.linkedTo == LinkFd(turn.piped, OfNode(link.to), link.toFd, turn.read)
    && turn.linked == LinkFd(turn.linkedTo, OfNode(link.from), link.fromFd, turn.write)
    && Conserved(turn.piped, base + turn.Entries()) && Conserved(turn.linkedTo, base + turn.Entries())
    && Conserved(turn.linked, base + turn.Entries())
    && t.maps == turn.linked.maps && t.open == turn.linked.open - turn.Entries().Keys && t.pipes == f.pipes + 1
    && turn.read !in base && turn.write !in base
  }

  lemma {:induction false} WireLinkTurns(f: Fds, base: Table, link: Link) returns (turn: Turn)
    requires Conserved(f, base)
    ensures Turns(f, base, link, turn, WireLink(f, link))
  {
    var (f1, read, write) := OpenPipe(f);
    var f2 := LinkFd(f1, OfNode(link.to), link.toFd, read);
    var f3 := LinkFd(f2, OfNode(link.from), link.fromFd, write);
    turn := Turn(f1, f2, f3, f.pipes, read, write);
    assert f1.open == f.open + turn.Entries();
    assert turn.Entries().Keys == {read, write} && f3.open - {read} - {write} == f3.open - turn.Entries().Keys;
    PipeWidens(f, base);
    LinkedConserves(f1, base + turn.Entries(), link, read, write);
  }

  lemma {:induction false} LinkedConserves(f: Fds, base: Table, link: Link, read: nat, write: nat)
    requires Conserved(f, base)
    ensures var g := LinkFd(f, OfNode(link.to), link.toFd, read);
      Conserved(g, base) && Conserved(LinkFd(g, OfNode(link.from), link.fromFd, write), base)
  {
    LinkConserves(f, base, OfNode(link.to), link.toFd, read);
    LinkConserves(LinkFd(f, OfNode(link.to), link.toFd, read), base, OfNode(link.from), link.fromFd, write);
  }

  lemma {:induction false} WireLinkConserves(f: Fds, base: Table, link: Link)
    requires Conserved(f, base)
    ensures Conserved(WireLink(f, link), base) && WireLink(f, link).pipes == f.pipes + 1
  {
    var turn := WireLinkTurns(f, base, link);
    TurnConserves(f, base, link, turn, WireLink(f, link));
  }

  lemma {:induction false} TurnConserves(f: Fds, base: Table, link: Link, turn: Turn, t: Fds)
    requires Turns(f, base, link, turn, t)
    ensures Conserved(t, base)
  {
    NarrowBase(turn.linked, t, base, turn.Entries());
  }

  lemma {:induction false} WireLinksConserve(f: Fds, base: Table, links: seq<Link>)
    requires Conserved(f, base)
    ensures Conserved(WireLinks(f, links), base) && WireLinks(f, links).pipes == f.pipes + |links|
    decreases |links|
  {
    if links != [] {
      WireLinkConserves(f, base, links[0]);
      WireLinksConserve(WireLink(f, links[0]), base, links[1..]);
    }
  }

  // ---- What a program will see ----

  /** A program started with the map of `h` finds `file` under number `fd`. */
  ghost predicate Sees(f: Fds, h: Holder, fd: nat, file: File) {
    exists g :: Greatest(MapOf(f, h), MapOf(f, h).Keys, fd, g) && g in f.open && f.open[g].file == file
  }

  predicate Free(f: Fds, h: Holder, fd: nat) {
    NoSource(MapOf(f, h), MapOf(f, h).Keys, fd)
  }

  /** `program` has `file` under number `fd`. */
  predicate Has(program: map<nat, File>, fd: nat, file: File) {
    fd in program && program[fd] == file
  }

  /** The executed program has exactly the linked descriptors, and otherwise those that arclaunch
      itself was given without close-on-exec. */
  lemma {:induction false} ProgramGetsAssignment(f: Fds, base: Table, h: Holder, fd: nat, file: File)
    requires Conserved(f, base)
    ensures Has(ProgramTable(f, h), fd, file) <==>
      Sees(f, h, fd, file) || (Free(f, h, fd) && fd in base && !base[fd].cloexec && base[fd].file == file)
  {
    var fdMap := MapOf(f, h);
    assert Owns(f, base, h);
    if NoSource(fdMap, fdMap.Keys, fd) {
      OverwriteIsSimultaneous(f.open, fdMap, fd, 0);
      if fd in f.open && fd !in base {
        assert Accounted(f, base, fd);
        var h' :| fd in MapOf(f, h');
        assert Owns(f, base, h');
      }
    } else {
      var g := SomeGreatest(fdMap, fdMap.Keys, fd);
      OverwriteIsSimultaneous(f.open, fdMap, fd, g);
    }
  }

  /** Holders for which the same numbers are free, and who see the same, mean the same program. */
  lemma {:induction false} SameProgram(f: Fds, g: Fds, base: Table, h: Holder, h': Holder)
    requires Conserved(f, base) && Conserved(g, base)
    requires forall fd {:trigger Free(g, h', fd)} :: Free(g, h', fd) <==> Free(f, h, fd)
    requires forall fd, file {:trigger Sees(g, h', fd, file)} :: Sees(g, h', fd, file) <==> Sees(f, h, fd, file)
    ensures ProgramTable(g, h') == ProgramTable(f, h)
  {
    var p, q := ProgramTable(f, h), ProgramTable(g, h');
    forall fd, file ensures Has(p, fd, file) <==> Has(q, fd, file) {
      ProgramGetsAssignment(f, base, h, fd, file);
      ProgramGetsAssignment(g, base, h', fd, file);
    }
    forall fd ensures fd in p <==> fd in q {
      assert fd in p ==> Has(p, fd, p[fd]) && Has(q, fd, p[fd]);
      assert fd in q ==> Has(q, fd, q[fd]) && Has(p, fd, q[fd]);
    }
    forall fd | fd in p ensures p[fd] == q[fd] {
      assert Has(p, fd, p[fd]) && Has(q, fd, p[fd]);
    }
  }

  /** A program has no end of a pipe that is still to be made. */
  lemma {:induction false} ProgramNumbered(f: Fds, base: Table, h: Holder)
    requires Conserved(f, base)
    ensures forall fd | fd in ProgramTable(f, h) :: Numbered(ProgramTable(f, h)[fd], f.pipes)
  {
    var program := ProgramTable(f, h);
    forall fd | fd in program ensures Numbered(program[fd], f.pipes) {
      ProgramGetsAssignment(f, base, h, fd, program[fd]);
      assert Has(program, fd, program[fd]);
    }
  }

  lemma {:induction false} LinkSees(f: Fds, h: Holder, fd: nat, extFd: nat)
    requires extFd in f.open && Free(f, h, fd)
    ensures Sees(LinkFd(f, h, fd, extFd), h, fd, f.open[extFd].file)
  {
    var t := LinkFd(f, h, fd, extFd);
    var k := FirstFree(f.open.Keys, fd + 1);
    assert MapOf(t, h) == MapOf(f, h)[k := fd];
    assert Greatest(MapOf(t, h), MapOf(t, h).Keys, fd, k);
  }

  /** A link disturbs nothing that anyone else, or the same holder elsewhere, will see. */
  lemma {:induction false} LinkElsewhere(f: Fds, base: Table, h: Holder, fd: nat, extFd: nat, h': Holder, fd': nat)
    requires Conserved(f, base) && (h', fd') != (h, fd)
    ensures forall file | Sees(f, h', fd', file) :: Sees(LinkFd(f, h, fd, extFd), h', fd', file)
    ensures Free(f, h', fd') ==> Free(LinkFd(f, h, fd, extFd), h', fd')
  {
    var t := LinkFd(f, h, fd, extFd);
    assert Owns(f, base, h');
    forall file | Sees(f, h', fd', file) ensures Sees(t, h', fd', file) {
      var g :| Greatest(MapOf(f, h'), MapOf(f, h').Keys, fd', g) && g in f.open && f.open[g].file == file;
      assert Greatest(MapOf(t, h'), MapOf(t, h').Keys, fd', g);
    }
  }

  /** From `f` to `g` nothing changes in what a program started with the map of `h` finds under number
      `fd`: the same file, or what is inherited. */
  ghost predicate SameSight(f: Fds, g: Fds, h: Holder, fd: nat) {
    (forall file | Sees(f, h, fd, file) :: Sees(g, h, fd, file)) && (Free(f, h, fd) ==> Free(g, h, fd))
  }

  lemma {:induction false} SameSightSameFile(f: Fds, g: Fds, base: Table, h: Holder, fd: nat, file: File)
    requires Conserved(f, base) && Conserved(g, base) && SameSight(f, g, h, fd)
    ensures Has(ProgramTable(g, h), fd, file) <==> Has(ProgramTable(f, h), fd, file)
  {
    ProgramGetsAssignment(f, base, h, fd, file);
    ProgramGetsAssignment(g, base, h, fd, file);
    assert Owns(f, base, h);
    if !Free(f, h, fd) {
      var top := SomeGreatest(MapOf(f, h), MapOf(f, h).Keys, fd);
      assert Sees(f, h, fd, f.open[top].file) && Sees(g, h, fd, f.open[top].file);
    }
  }

  // ---- Linkage joins two programs ----

  /** The two ends of a link are different, and nothing else is linked there. */
  predicate EndsFree(f: Fds, link: Link) {
    && (link.to, link.toFd) != (link.from, link.fromFd)
    && Free(f, OfNode(link.to), link.toFd) && Free(f, OfNode(link.from), link.fromFd)
  }

  predicate AllEndsFree(f: Fds, links: seq<Link>) {
    forall i {:trigger EndsFree(f, links[i])} | 0 <= i < |links| :: EndsFree(f, links[i])
  }

  predicate Elsewhere(link: Link, h: Holder, fd: nat) {
    (h, fd) != (OfNode(link.to), link.toFd) && (h, fd) != (OfNode(link.from), link.fromFd)
  }

  ghost predicate Joined(f: Fds, link: Link, pipe: nat) {
    Sees(f, OfNode(link.to), link.toFd, ReadEnd(pipe)) && Sees(f, OfNode(link.from), link.fromFd, WriteEnd(pipe))
  }

  /** The two pipe descriptors are closed again once both members hold their duplicates. */
  lemma {:induction false} DropPipeSees(f: Fds, t: Fds, base: Table, more: Table, h: Holder, fd: nat)
    requires Conserved(f, base + more) && t.maps == f.maps && t.open == f.open - more.Keys
    ensures forall file | Sees(f, h, fd, file) :: Sees(t, h, fd, file)
    ensures Free(f, h, fd) ==> Free(t, h, fd)
  {
    assert Owns(f, base + more, h) && MapOf(t, h) == MapOf(f, h);
    forall file | Sees(f, h, fd, file) ensures Sees(t, h, fd, file) {
      var g :| Greatest(MapOf(f, h), MapOf(f, h).Keys, fd, g) && g in f.open && f.open[g].file == file;
      assert Greatest(MapOf(t, h), MapOf(t, h).Keys, fd, g);
    }
  }

  lemma {:induction false} WireLinkElsewhere(f: Fds, base: Table, link: Link, h: Holder, fd: nat)
    requires Conserved(f, base) && Elsewhere(link, h, fd)
    ensures forall file | Sees(f, h, fd, file) :: Sees(WireLink(f, link), h, fd, file)
    ensures Free(f, h, fd) ==> Free(WireLink(f, link), h, fd)
  {
    var turn := WireLinkTurns(f, base, link);
    TurnElsewhere(f, base, link, turn, WireLink(f, link), h, fd);
  }

  lemma {:induction false} TurnElsewhere(f: Fds, base: Table, link: Link, turn: Turn, t: Fds, h: Holder, fd: nat)
    requires Conserved(f, base) && Turns(f, base, link, turn, t) && Elsewhere(link, h, fd)
    ensures forall file | Sees(f, h, fd, file) :: Sees(t, h, fd, file)
    ensures Free(f, h, fd) ==> Free(t, h, fd)
  {
    var base' := base + turn.Entries();
    PipeSees(f, turn.piped, base, h, fd);
    LinkElsewhere(turn.piped, base', OfNode(link.to), link.toFd, turn.read, h, fd);
    LinkElsewhere(turn.linkedTo, base', OfNode(link.from), link.fromFd, turn.write, h, fd);
    DropPipeSees(turn.linked, t, base, turn.Entries(), h, fd);
  }

  lemma {:induction false} PipeSees(f: Fds, t: Fds, base: Table, h: Holder, fd: nat)
    requires Conserved(f, base) && t.maps == f.maps && (forall k | k in f.open :: k in t.open && t.open[k] == f.open[k])
    ensures forall file | Sees(f, h, fd, file) :: Sees(t, h, fd, file)
    ensures Free(f, h, fd) ==> Free(t, h, fd)
  {
    assert MapOf(t, h) == MapOf(f, h);
    forall file | Sees(f, h, fd, file) ensures Sees(t, h, fd, file) {
      var g :| Greatest(MapOf(f, h), MapOf(f, h).Keys, fd, g) && g in f.open && f.open[g].file == file;
      assert Greatest(MapOf(t, h), MapOf(t, h).Keys, fd, g);
    }
  }

  /** One turn of the linkage loop joins the two members by a pipe that was not open before. */
  lemma {:induction false} WireLinkJoins(f: Fds, base: Table, link: Link)
    requires Conserved(f, base) && EndsFree(f, link)
    ensures Joined(WireLink(f, link), link, f.pipes) && WireLink(f, link).pipes == f.pipes + 1
    ensures forall k | k in f.open :: f.open[k].file != ReadEnd(f.pipes) && f.open[k].file != WriteEnd(f.pipes)
  {
    var turn := WireLinkTurns(f, base, link);
    TurnJoins(f, base, link, turn, WireLink(f, link));
  }

  lemma {:induction false} TurnJoins(f: Fds, base: Table, link: Link, turn: Turn, t: Fds)
    requires Conserved(f, base) && Turns(f, base, link, turn, t) && EndsFree(f, link)
    ensures Joined(t, link, f.pipes)
  {
    PipeSees(f, turn.piped, base, OfNode(link.to), link.toFd);
    PipeSees(f, turn.piped, base, OfNode(link.from), link.fromFd);
    ReaderJoins(f, base, link, turn, t);
    WriterJoins(f, base, link, turn, t);
  }

  lemma {:induction false} ReaderJoins(f: Fds, base: Table, link: Link, turn: Turn, t: Fds)
    requires Turns(f, base, link, turn, t) && EndsFree(f, link) && Free(turn.piped, OfNode(link.to), link.toFd)
    ensures Sees(t, OfNode(link.to), link.toFd, ReadEnd(f.pipes))
  {
    LinkSees(turn.piped, OfNode(link.to), link.toFd, turn.read);
    LinkElsewhere(turn.linkedTo, base + turn.Entries(), OfNode(link.from), link.fromFd, turn.write, OfNode(link.to), link.toFd);
    DropPipeSees(turn.linked, t, base, turn.Entries(), OfNode(link.to), link.toFd);
  }

  lemma {:induction false} WriterJoins(f: Fds, base: Table, link: Link, turn: Turn, t: Fds)
    requires Turns(f, base, link, turn, t) && EndsFree(f, link) && Free(turn.piped, OfNode(link.from), link.fromFd)
    ensures Sees(t, OfNode(link.from), link.fromFd, WriteEnd(f.pipes))
  {
    LinkElsewhere(turn.piped, base + turn.Entries(), OfNode(link.to), link.toFd, turn.read, OfNode(link.from), link.fromFd);
    assert turn.write in turn.linkedTo.open && turn.linkedTo.open[turn.write].file == WriteEnd(f.pipes);
    LinkSees(turn.linkedTo, OfNode(link.from), link.fromFd, turn.write);
    DropPipeSees(turn.linked, t, base, turn.Entries(), OfNode(link.from), link.fromFd);
  }

  /** No two links share an end. */
  predicate DistinctEnds(links: seq<Link>) {
    forall i, j {:trigger NoSharedEnd(links[i], links[j])} | 0 <= i < j < |links| :: NoSharedEnd(links[i], links[j])
  }

  predicate NoSharedEnd(a: Link, b: Link) {
    Elsewhere(a, OfNode(b.to), b.toFd) && Elsewhere(a, OfNode(b.from), b.fromFd)
  }

  lemma {:induction false} WireLinksElsewhere(f: Fds, base: Table, links: seq<Link>, h: Holder, fd: nat)
    requires Conserved(f, base) && (forall i | 0 <= i < |links| :: Elsewhere(links[i], h, fd))
    ensures forall file | Sees(f, h, fd, file) :: Sees(WireLinks(f, links), h, fd, file)
    decreases |links|
  {
    if links != [] {
      WireLinkElsewhere(f, base, links[0], h, fd);
      WireLinkConserves(f, base, links[0]);
      WireLinksElsewhere(WireLink(f, links[0]), base, links[1..], h, fd);
    }
  }

  /** After the linkage loop every link joins its two members: the programs started with their maps
      hold the two ends of one pipe, a different one for each link. */
  lemma {:induction false} LinkageJoins(f: Fds, base: Table, links: seq<Link>, i: nat, pipe: nat)
    requires Conserved(f, base) && i < |links| && DistinctEnds(links)
    requires AllEndsFree(f, links) && pipe == f.pipes + i
    ensures Joined(WireLinks(f, links), links[i], pipe)
    decreases |links|, 1
  {
    if i == 0 {
      FirstLinkJoins(f, base, links);
    } else {
      LaterLinkJoins(f, base, links, i, pipe);
    }
  }

  lemma {:induction false} LaterLinkJoins(f: Fds, base: Table, links: seq<Link>, i: nat, pipe: nat)
    requires Conserved(f, base) && 0 < i < |links| && DistinctEnds(links)
    requires AllEndsFree(f, links) && pipe == f.pipes + i
    ensures Joined(WireLinks(f, links), links[i], pipe)
    decreases |links|, 0
  {
    EndsStayFree(f, base, links);
    LinkageJoins(WireLink(f, links[0]), base, links[1..], i - 1, pipe);
  }

  lemma {:induction false} FirstLinkJoins(f: Fds, base: Table, links: seq<Link>)
    requires Conserved(f, base) && links != [] && DistinctEnds(links) && AllEndsFree(f, links)
    ensures Joined(WireLinks(f, links), links[0], f.pipes)
  {
    var t := WireLink(f, links[0]);
    assert EndsFree(f, links[0]);
    WireLinkConserves(f, base, links[0]);
    WireLinkJoins(f, base, links[0]);
    forall i | 0 <= i < |links[1..]|
      ensures Elsewhere(links[1..][i], OfNode(links[0].to), links[0].toFd)
      ensures Elsewhere(links[1..][i], OfNode(links[0].from), links[0].fromFd)
    {
      assert NoSharedEnd(links[0], links[i + 1]);
    }
    WireLinksElsewhere(t, base, links[1..], OfNode(links[0].to), links[0].toFd);
    WireLinksElsewhere(t, base, links[1..], OfNode(links[0].from), links[0].fromFd);
  }

  lemma {:induction false} EndsStayFree(f: Fds, base: Table, links: seq<Link>)
    requires Conserved(f, base) && links != [] && DistinctEnds(links)
    requires AllEndsFree(f, links)
    ensures DistinctEnds(links[1..]) && AllEndsFree(WireLink(f, links[0]), links[1..])
    ensures Conserved(WireLink(f, links[0]), base) && WireLink(f, links[0]).pipes == f.pipes + 1
  {
    WireLinkConserves(f, base, links[0]);
    forall i, j | 0 <= i < j < |links[1..]| ensures NoSharedEnd(links[1..][i], links[1..][j]) {
      assert NoSharedEnd(links[i + 1], links[j + 1]);
    }
    forall j | 0 <= j < |links[1..]| ensures EndsFree(WireLink(f, links[0]), links[1..][j]) {
      var link := links[j + 1];
      assert EndsFree(f, link) && links[1..][j] == link && NoSharedEnd(links[0], link);
      WireLinkElsewhere(f, base, links[0], OfNode(link.to), link.toFd);
      WireLinkElsewhere(f, base, links[0], OfNode(link.from), link.fromFd);
    }
  }

  // ---- Handing a map on ----

  /** The part `done` of `source` has been handed to `child`: for each target, what `child` will see
      is what the handed part assigns, and between each target and its source everything is open. */
  ghost predicate Handed(f: Fds, source: map<nat, nat>, child: Holder, done: set<nat>, g: Fds) {
    && (forall k | k in source && k in f.open :: k in g.open && g.open[k] == f.open[k])
    && (forall k | k in MapOf(g, child) :: k in g.open && MapOf(g, child)[k] < k)
    && (forall k, j | k in MapOf(g, child) && MapOf(g, child)[k] < j <= k :: j in g.open)
    && (forall fd {:trigger Free(g, child, fd)} :: Free(g, child, fd) <==> NoSource(source, done, fd))
    && (forall fd, k {:trigger Greatest(source, done, fd, k)} | Greatest(source, done, fd, k) && k in f.open ::
          Sees(g, child, fd, f.open[k].file))
  }

  lemma {:induction false} LinkFree(f: Fds, h: Holder, fd: nat, extFd: nat, fd': nat)
    requires extFd in f.open && forall k | k in MapOf(f, h) :: k in f.open
    ensures Free(LinkFd(f, h, fd, extFd), h, fd') <==> fd' != fd && Free(f, h, fd')
  {
    var t := LinkFd(f, h, fd, extFd);
    var n := FirstFree(f.open.Keys, fd + 1);
    assert MapOf(t, h) == MapOf(f, h)[n := fd];
    assert n in MapOf(t, h) && MapOf(t, h)[n] == fd;
    if !Free(f, h, fd') {
      var j :| j in MapOf(f, h) && MapOf(f, h)[j] == fd';
      assert j in MapOf(t, h) && MapOf(t, h)[j] == fd';
    }
  }

  lemma {:induction false} OneMoreSource(source: map<nat, nat>, done: set<nat>, k: nat, fd: nat)
    requires k in source
    ensures NoSource(source, done + {k}, fd) <==> fd != source[k] && NoSource(source, done, fd)
  {
    assert k in done + {k};
    assert forall j | j in done :: j in done + {k};
  }

  lemma {:induction false} HandOne(f: Fds, source: map<nat, nat>, child: Holder, done: set<nat>, g: Fds, k: nat)
    requires Handed(f, source, child, done, g) && k in source && k in f.open
    requires forall j | j in done :: j < k
    ensures Handed(f, source, child, done + {k}, LinkFd(g, child, source[k], k))
  {
    var t := LinkFd(g, child, source[k], k);
    var n := FirstFree(g.open.Keys, source[k] + 1);
    assert MapOf(t, child) == MapOf(g, child)[n := source[k]];
    forall fd ensures Free(t, child, fd) <==> NoSource(source, done + {k}, fd) {
      assert Free(g, child, fd) <==> NoSource(source, done, fd);
      LinkFree(g, child, source[k], k, fd);
      OneMoreSource(source, done, k, fd);
    }
    forall fd, j | Greatest(source, done + {k}, fd, j) && j in f.open ensures Sees(t, child, fd, f.open[j].file) {
      if fd == source[k] {
        assert k in done + {k};
        assert j == k;
        assert Greatest(MapOf(t, child), MapOf(t, child).Keys, fd, n);
      } else {
        assert Greatest(source, done, fd, j);
        var i :| Greatest(MapOf(g, child), MapOf(g, child).Keys, fd, i) && i in g.open && g.open[i].file == f.open[j].file;
        assert Greatest(MapOf(t, child), MapOf(t, child).Keys, fd, i);
      }
    }
  }

  /** What is handed stays in front of what is still to be handed. */
  predicate InFront(done: set<nat>, todo: set<nat>) {
    forall j, k | j in done && k in todo :: j < k
  }

  lemma {:induction false} LeastMoves(done: set<nat>, todo: set<nat>)
    requires InFront(done, todo) && todo != {}
    ensures InFront(done + {Min(todo)}, todo - {Min(todo)}) && (forall j | j in done :: j < Min(todo))
    ensures done + {Min(todo)} + (todo - {Min(todo)}) == done + todo
  {
  }

  lemma {:induction false} HandAll(f: Fds, source: map<nat, nat>, child: Holder, done: set<nat>, g: Fds, todo: set<nat>)
    requires Handed(f, source, child, done, g) && todo <= source.Keys && todo <= f.open.Keys && InFront(done, todo)
    ensures Handed(f, source, child, done + todo, PassFrom(g, source, child, todo))
    decreases |todo|
  {
    if todo == {} {
      assert done + todo == done;
    } else {
      var k := Min(todo);
      LeastMoves(done, todo);
      HandOne(f, source, child, done, g, k);
      assert k in g.open by {
        assert k in source && k in f.open;
      }
      HandAll(f, source, child, done + {k}, LinkFd(g, child, source[k], k), todo - {k});
    }
  }

  lemma {:induction false} AllHanded(f: Fds, base: Table, h: Holder, child: Holder)
    requires Conserved(f, base) && MapOf(f, child) == map[]
    ensures Handed(f, MapOf(f, h), child, MapOf(f, h).Keys, PassFds(f, h, child))
  {
    var source := MapOf(f, h);
    assert Owns(f, base, h);
    assert forall t :: NoSource(source, {}, t);
    HandAll(f, source, child, {}, f, source.Keys);
    assert {} + source.Keys == source.Keys;
  }

  /** A map handed to a holder with an empty map stands for the same assignment there: the child
      will see what the parent was to see, and nothing else, although all the sources are new. */
  lemma {:induction false} PassingKeepsAssignment(f: Fds, base: Table, h: Holder, child: Holder, fd: nat, file: File)
    requires Conserved(f, base) && MapOf(f, child) == map[]
    ensures Sees(PassFds(f, h, child), child, fd, file) <==> Sees(f, h, fd, file)
    ensures Free(PassFds(f, h, child), child, fd) <==> Free(f, h, fd)
  {
    AllHanded(f, base, h, child);
    HandedSees(f, base, h, child, PassFds(f, h, child), fd, file);
  }

  lemma {:induction false} HandedSees(f: Fds, base: Table, h: Holder, child: Holder, g: Fds, fd: nat, file: File)
    requires Conserved(f, base) && Handed(f, MapOf(f, h), child, MapOf(f, h).Keys, g)
    ensures Free(g, child, fd) <==> Free(f, h, fd)
    ensures Sees(g, child, fd, file) <==> Sees(f, h, fd, file)
  {
    var source := MapOf(f, h);
    assert Free(g, child, fd) <==> NoSource(source, source.Keys, fd);
    if !Free(f, h, fd) {
      var k := SomeGreatest(source, source.Keys, fd);
      assert Owns(f, base, h);
      assert Sees(g, child, fd, f.open[k].file);
    }
  }

  /** The program of a holder with an empty map, once the map of `h` was handed to it, is the program
      that would have been started with the map of `h`. */
  lemma {:induction false} PassingKeepsProgram(f: Fds, base: Table, h: Holder, child: Holder)
    requires Conserved(f, base) && MapOf(f, child) == map[]
    ensures ProgramTable(PassFds(f, h, child), child) == ProgramTable(f, h)
  {
    var g := PassFds(f, h, child);
    PassFromConserves(f, base, MapOf(f, h), child, MapOf(f, h).Keys);
    forall fd, file ensures Sees(g, child, fd, file) <==> Sees(f, h, fd, file) {
      PassingKeepsAssignment(f, base, h, child, fd, file);
    }
    forall fd ensures Free(g, child, fd) <==> Free(f, h, fd) {
      PassingKeepsAssignment(f, base, h, child, fd, Other(0));
    }
    SameProgram(f, g, base, h, child);
  }
}
