/** File descriptors: the table of the arclaunch process and the descriptor maps of the nodes.

    A descriptor map takes a descriptor that arclaunch holds open to the number under which the
    next instance of the node will see it.
 */
module Descriptors {
  import opened NodeTree

  /** Instance `num` of node `node`. */
  datatype Inst = Inst(node: NodeId, num: nat)

  /** The open file behind a descriptor: an end of a pipe that arclaunch made, or anything else. */
  datatype File = ReadEnd(pipe: nat) | WriteEnd(pipe: nat) | Other(id: nat)

  /** If the file is an end of a pipe, it is one of the first `pipes`. */
  predicate Numbered(file: File, pipes: nat) {
    !file.Other? ==> file.pipe < pipes
  }

  /** An entry of a descriptor table; `cloexec` entries disappear when a program is executed. */
  datatype Entry = Entry(file: File, cloexec: bool)

  type Table = map<nat, Entry>

  /** Who owns a descriptor map: a node, or the running sequence behind an instance. */
  datatype Holder = OfNode(n: NodeId) | OfSequence(x: Inst)

  /** `open` is the descriptor table of arclaunch, `pipes` the number of pipes made so far. */
  datatype Fds = Fds(open: Table, maps: map<Holder, map<nat, nat>>, pipes: nat)

  function MapOf(f: Fds, h: Holder): map<nat, nat> {
    if h in f.maps then f.maps[h] else map[]
  }

  // ---- Helpers on finite sets of numbers ----

  lemma {:induction false} Least(s: set<nat>) returns (m: nat)
    requires s != {}
    ensures m in s && forall x | x in s :: m <= x
    decreases |s|
  {
    m :| m in s;
    var rest := s - {m};
    if rest != {} {
      var low := Least(rest);
      assert forall x | x in s :: x == m || x in rest;
      if low < m {
        m := low;
      }
    }
  }

  lemma {:induction false} LeastExists(s: set<nat>)
    requires s != {}
    ensures exists m :: m in s && forall x | x in s :: m <= x
  {
    var m := Least(s);
  }

  function Min(s: set<nat>): (m: nat)
    requires s != {}
    ensures m in s && forall x | x in s :: m <= x
  {
    LeastExists(s);
    var m :| m in s && forall x | x in s :: m <= x;
    m
  }

  /** The least number from `from` on that is not used. */
  function FirstFree(used: set<nat>, from: nat): (r: nat)
    ensures r >= from && r !in used
    ensures forall k | from <= k < r :: k in used
    decreases |used|
  {
    if from in used then
      var r := FirstFree(used - {from}, from + 1);
      assert forall k | from <= k < r :: k in used by {
        forall k | from <= k < r ensures k in used {
          if k != from { assert k in used - {from}; }
        }
      }
      r
    else from
  }

  // ---- Operations ----

  /** Duplicates `extFd` to the first closed descriptor above `fd` and records where it must go.
      When `extFd` is not open the duplication fails and nothing is recorded. */
  function LinkFd(f: Fds, h: Holder, fd: nat, extFd: nat): Fds {
    if extFd !in f.open then f
    else
      var k := FirstFree(f.open.Keys, fd + 1);
      f.(open := f.open[k := Entry(f.open[extFd].file, true)],
         maps := f.maps[h := MapOf(f, h)[k := fd]])
  }

  /** Hands the entries of `source` whose keys are in `todo` to `child`, in ascending key order. */
  function PassFrom(f: Fds, source: map<nat, nat>, child: Holder, todo: set<nat>): Fds
    requires todo <= source.Keys
    decreases |todo|
  {
    if todo == {} then f
    else
      var k := Min(todo);
      PassFrom(LinkFd(f, child, source[k], k), source, child, todo - {k})
  }

  function PassFds(f: Fds, h: Holder, child: Holder): Fds {
    PassFrom(f, MapOf(f, h), child, MapOf(f, h).Keys)
  }

  /** The entries that lead to `target`. */
  function Sources(fdMap: map<nat, nat>, target: nat): set<nat> {
    set k | k in fdMap && fdMap[k] == target
  }

  /** Hands on the first entry that leads to `outer`, to be seen as `inner`. */
  function PassFd(f: Fds, h: Holder, child: Holder, outer: nat, inner: nat): Fds {
    var ks := Sources(MapOf(f, h), outer);
    if ks == {} then f else LinkFd(f, child, inner, Min(ks))
  }

  function CloseFds(f: Fds, h: Holder): Fds {
    f.(open := f.open - MapOf(f, h).Keys, maps := f.maps - {h})
  }

  /** Makes a pipe on the two lowest closed descriptors. */
  function OpenPipe(f: Fds): (r: (Fds, nat, nat))
    ensures r.1 !in f.open && r.2 !in f.open && r.1 != r.2
    ensures (forall k | 0 <= k < r.1 :: k in f.open) && (forall k | 0 <= k < r.2 :: k in f.open || k == r.1)
    ensures r.0.open.Keys == f.open.Keys + {r.1, r.2} && r.0.pipes == f.pipes + 1
    ensures r.0.open[r.1].file == ReadEnd(f.pipes) && r.0.open[r.2].file == WriteEnd(f.pipes)
  {
    var read := FirstFree(f.open.Keys, 0);
    var write := FirstFree(f.open.Keys + {read}, 0);
    (f.(open := f.open[read := Entry(ReadEnd(f.pipes), true)][write := Entry(WriteEnd(f.pipes), true)],
        pipes := f.pipes + 1),
     read, write)
  }

  /** One turn of the linkage loop of a launch: a pipe is made, linked to both members and closed. */
  function WireLink(f: Fds, link: Link): Fds {
    var (f1, read, write) := OpenPipe(f);
    var f2 := LinkFd(f1, OfNode(link.to), link.toFd, read);
    var f3 := LinkFd(f2, OfNode(link.from), link.fromFd, write);
    f3.(open := f3.open - {read} - {write})
  }

  function WireLinks(f: Fds, links: seq<Link>): Fds
    decreases |links|
  {
    if links == [] then f else WireLinks(WireLink(f, links[0]), links[1..])
  }

  function PassExternals(f: Fds, h: Holder, externals: seq<Externalize>): Fds
    decreases |externals|
  {
    if externals == [] then f
    else
      PassExternals(PassFd(f, h, OfNode(externals[0].member), externals[0].outer, externals[0].inner),
                    h, externals[1..])
  }

  // ---- In the forked child ----

  /** `dup2(from, to)`: the target refers to the same file and survives execution. */
  function Dup2(table: Table, from: nat, to: nat): Table {
    if from in table then table[to := Entry(table[from].file, false)] else table
  }

  /** Moves the sources in `todo` to their targets, in ascending order of the sources. */
  function OverwriteFrom(table: Table, fdMap: map<nat, nat>, todo: set<nat>): Table
    requires todo <= fdMap.Keys
    decreases |todo|
  {
    if todo == {} then table
    else
      var k := Min(todo);
      OverwriteFrom(Dup2(table, k, fdMap[k]), fdMap, todo - {k})
  }

  /** What the executed program sees. */
  function Exec(table: Table): map<nat, File> {
    map fd | fd in table && !table[fd].cloexec :: table[fd].file
  }

  function ProgramTable(f: Fds, h: Holder): map<nat, File> {
    Exec(OverwriteFrom(f.open, MapOf(f, h), MapOf(f, h).Keys))
  }
}
