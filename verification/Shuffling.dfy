/** The random generator of the test framework and its in-place Fisher-Yates shuffle. */
module Shuffling {
  import opened Arithmetic
  import opened Octets

  const MAX_RANGE := 0x8000_0000

  class Random {
    var state: UInt32

    constructor (seed: UInt32)
      ensures state == seed
    {
      state := seed;
    }

    /** One step of the linear congruential generator, in 32-bit unsigned arithmetic. */
    method Generate(range: UInt32) returns (r: nat)
      requires 0 < range <= MAX_RANGE
      modifies this
      ensures state == Successor(old(state)) == (1103515245 * old(state) + 12345) % 0x8000_0000
      ensures r == state % range < range
    {
      state := (1103515245 * state + 12345) % 0x1_0000_0000 % MAX_RANGE;
      r := state % range;
      ModuloOfModulo(1103515245 * old(state) + 12345);
    }
  }

  function Successor(state: UInt32): UInt32 {
    (1103515245 * state + 12345) % MAX_RANGE
  }

  /** The wrap-around at 32 bits is not visible in the result. */
  lemma {:induction false} ModuloOfModulo(n: int)
    ensures n % 0x1_0000_0000 % MAX_RANGE == n % MAX_RANGE
  {
  }

  // ---- The shuffle as a function of the numbers drawn ----

  function Swapped<E>(s: seq<E>, i: nat, j: nat): seq<E>
    requires i < |s| && j < |s|
  {
    s[i := s[j]][j := s[i]]
  }

  /** One number is drawn for each width from the whole range down to 2. */
  predicate Draws(draws: seq<nat>, width: nat) {
    |draws| == (if width < 2 then 0 else width - 1) && forall k | 0 <= k < |draws| :: draws[k] < width - k
  }

  function Shuffled<E>(s: seq<E>, draws: seq<nat>): seq<E>
    requires Draws(draws, |s|)
    decreases |s|
  {
    if |s| < 2 then s
    else
      var last := |s| - 1;
      var t := Swapped(s, draws[0], last);
      Shuffled(t[..last], draws[1..]) + [t[last]]
  }

  lemma {:induction false} SwapPermutes<E>(s: seq<E>, i: nat, j: nat)
    requires i < |s| && j < |s|
    ensures multiset(Swapped(s, i, j)) == multiset(s)
  {
  }

  lemma {:induction false} ShufflePermutes<E>(s: seq<E>, draws: seq<nat>)
    requires Draws(draws, |s|)
    ensures |Shuffled(s, draws)| == |s| && multiset(Shuffled(s, draws)) == multiset(s)
    decreases |s|
  {
    if |s| >= 2 {
      var last := |s| - 1;
      var t := Swapped(s, draws[0], last);
      ShufflePermutes(t[..last], draws[1..]);
      SwapPermutes(s, draws[0], last);
      assert t == t[..last] + [t[last]];
    }
  }

  predicate Distinct<E(==)>(s: seq<E>) {
    forall i, j | 0 <= i < j < |s| :: s[i] != s[j]
  }

  lemma {:induction false} SplitLast<E>(s: seq<E>)
    requires s != []
    ensures multiset(s[..|s| - 1]) == multiset(s) - multiset{s[|s| - 1]}
  {
    assert s == s[..|s| - 1] + [s[|s| - 1]];
  }

  /** After the element that belongs last has been swapped there, the rest is a permutation of the
      rest of the goal. */
  lemma {:induction false} SwapLastIntoPlace<E>(s: seq<E>, goal: seq<E>, i: nat)
    requires |s| == |goal| > 0 && multiset(s) == multiset(goal) && i < |s| && s[i] == goal[|s| - 1]
    ensures var t := Swapped(s, i, |s| - 1);
      t[|s| - 1] == goal[|s| - 1] && multiset(t[..|s| - 1]) == multiset(goal[..|s| - 1])
  {
    SwapPermutes(s, i, |s| - 1);
    SplitLast(Swapped(s, i, |s| - 1));
    SplitLast(goal);
  }

  /** Every order of the elements can be drawn. */
  lemma {:induction false} EveryOrderIsDrawn<E>(s: seq<E>, goal: seq<E>) returns (draws: seq<nat>)
    requires |s| == |goal| && multiset(s) == multiset(goal)
    ensures Draws(draws, |s|) && Shuffled(s, draws) == goal
    decreases |s|
  {
    if |s| < 2 {
      draws := [];
      if |s| == 1 {
        assert s == [s[0]] && goal == [goal[0]];
        assert goal[0] in multiset(goal) && goal[0] in multiset(s);
      }
    } else {
      var last := |s| - 1;
      assert goal[last] in multiset(goal) && goal[last] in multiset(s);
      var i: nat :| i < |s| && s[i] == goal[last];
      SwapLastIntoPlace(s, goal, i);
      var rest := EveryOrderIsDrawn(Swapped(s, i, last)[..last], goal[..last]);
      draws := [i] + rest;
      assert draws[1..] == rest;
    }
  }

  lemma {:induction false} FirstDraw<E>(s: seq<E>, draws: seq<nat>)
    requires |s| >= 2 && Draws(draws, |s|)
    ensures var last := |s| - 1; var t := Swapped(s, draws[0], last);
      && Draws(draws[1..], last) && |Shuffled(s, draws)| == |s|
      && Shuffled(s, draws)[last] == s[draws[0]] && Shuffled(s, draws)[..last] == Shuffled(t[..last], draws[1..])
  {
    ShufflePermutes(Swapped(s, draws[0], |s| - 1)[..|s| - 1], draws[1..]);
  }

  lemma {:induction false} SwapKeepsDistinct<E>(s: seq<E>, i: nat, j: nat)
    requires Distinct(s) && i < |s| && j < |s|
    ensures Distinct(Swapped(s, i, j))
  {
  }

  /** Different draws give different orders, so with uniform draws every order is equally likely. */
  lemma {:induction false} OrderFixesDraws<E>(s: seq<E>, a: seq<nat>, b: seq<nat>)
    requires Distinct(s) && Draws(a, |s|) && Draws(b, |s|) && Shuffled(s, a) == Shuffled(s, b)
    ensures a == b
    decreases |s|
  {
    if |s| >= 2 {
      FirstDraw(s, a);
      FirstDraw(s, b);
      var t := Swapped(s, a[0], |s| - 1);
      SwapKeepsDistinct(s, a[0], |s| - 1);
      OrderFixesDraws(t[..|s| - 1], a[1..], b[1..]);
      assert a == [a[0]] + a[1..] && b == [b[0]] + b[1..];
    }
  }

  // ---- The shuffle one swap at a time ----

  predicate SomeDraws(draws: seq<nat>, width: nat) {
    |draws| <= (if width < 2 then 0 else width - 1) && forall k | 0 <= k < |draws| :: draws[k] < width - k
  }

  /** After the first `|draws|` swaps. */
  function Steps<E>(s: seq<E>, draws: seq<nat>): (t: seq<E>)
    requires SomeDraws(draws, |s|)
    ensures |t| == |s|
    decreases |draws|
  {
    if draws == [] then s
    else
      var k := |draws| - 1;
      Swapped(Steps(s, draws[..k]), draws[k], |s| - 1 - k)
  }

  /** The later swaps do not touch the element that the first one put in its place. */
  lemma {:induction false} StepsAfterFirst<E>(s: seq<E>, draws: seq<nat>)
    requires SomeDraws(draws, |s|) && draws != []
    ensures var last := |s| - 1; var t := Swapped(s, draws[0], last);
      SomeDraws(draws[1..], last) && Steps(s, draws) == Steps(t[..last], draws[1..]) + [t[last]]
    decreases |draws|
  {
    var k, last := |draws| - 1, |s| - 1;
    var t := Swapped(s, draws[0], last);
    if k == 0 {
      assert draws[..0] == [] && t == t[..last] + [t[last]];
    } else {
      StepsAfterFirst(s, draws[..k]);
      assert draws[..k][1..] == draws[1..][..k - 1];
      LaterStep(s, draws, Steps(t[..last], draws[1..][..k - 1]), t[..last], t[last]);
    }
  }

  /** If a `front` is swapped along with `s`, one more step keeps it so. */
  lemma {:induction false} LaterStep<E>(s: seq<E>, draws: seq<nat>, u: seq<E>, front: seq<E>, x: E)
    requires |s| == |front| + 1 && SomeDraws(draws, |s|) && |draws| >= 2 && SomeDraws(draws[1..], |front|)
    requires u == Steps(front, draws[1..][..|draws| - 2]) && Steps(s, draws[..|draws| - 1]) == u + [x]
    ensures Steps(s, draws) == Steps(front, draws[1..]) + [x]
  {
    var k, later := |draws| - 1, draws[1..];
    assert |later| - 1 == k - 1 && later[k - 1] == draws[k] && |front| - 1 - (k - 1) == |s| - 1 - k;
    assert Steps(s, draws) == Swapped(u + [x], draws[k], |s| - 1 - k);
    assert Steps(front, later) == Swapped(u, draws[k], |s| - 1 - k);
    SwapInFront(u, x, draws[k], |s| - 1 - k);
  }

  lemma {:induction false} SwapInFront<E>(s: seq<E>, x: E, i: nat, j: nat)
    requires i < |s| && j < |s|
    ensures Swapped(s + [x], i, j) == Swapped(s, i, j) + [x]
  {
  }

  lemma {:induction false} StepsAreTheShuffle<E>(s: seq<E>, draws: seq<nat>)
    requires Draws(draws, |s|)
    ensures Steps(s, draws) == Shuffled(s, draws)
    decreases |s|
  {
    if |s| >= 2 {
      StepsAfterFirst(s, draws);
      StepsAreTheShuffle(Swapped(s, draws[0], |s| - 1)[..|s| - 1], draws[1..]);
    }
  }

  // ---- The numbers that the generator gives ----

  /** The numbers drawn for the widths from `width` down to 2, starting in `state`. */
  function DrawsFrom(state: UInt32, width: nat): (draws: seq<nat>)
    ensures Draws(draws, width)
    decreases width
  {
    if width < 2 then []
    else
      var rest := DrawsFrom(Successor(state), width - 1);
      assert forall k | 0 < k < 1 + |rest| :: ([Successor(state) % width] + rest)[k] == rest[k - 1];
      [Successor(state) % width] + rest
  }

  function StateAfter(state: UInt32, width: nat): UInt32
    decreases width
  {
    if width < 2 then state else StateAfter(Successor(state), width - 1)
  }

  function Power(base: nat, k: nat): nat {
    if k == 0 then 1 else base * Power(base, k - 1)
  }

  /** The sum of the first `k` powers. */
  function PowerSum(base: nat, k: nat): nat {
    if k == 0 then 0 else PowerSum(base, k - 1) + Power(base, k - 1)
  }

  /** The state `k` calls after `seed`: the recurrence solved, modulo 2 to the 31. */
  function StateAt(seed: UInt32, k: nat): UInt32 {
    (Power(1103515245, k) * seed + 12345 * PowerSum(1103515245, k)) % 0x8000_0000
  }

  lemma {:induction false} ModuloInside(factor: int, n: int, rest: int, modulus: int)
    requires modulus > 0
    ensures (factor * (n % modulus) + rest) % modulus == (factor * n + rest) % modulus
  {
    var q, t := n / modulus, factor * (n % modulus) + rest;
    assert n == q * modulus + n % modulus;
    assert factor * n + rest == factor * q * modulus + t;
    assert factor * n + rest == (factor * q + t / modulus) * modulus + t % modulus;
    QuotientUnique(factor * n + rest, modulus, factor * q + t / modulus, t % modulus);
  }

  lemma {:induction false} StateAtNext(seed: UInt32, k: nat)
    ensures StateAt(Successor(seed), k) == StateAt(seed, k + 1)
  {
    var a, c, p := 1103515245, 12345, Power(1103515245, k);
    var sum := c * PowerSum(a, k);
    ModuloInside(p, a * seed + c, sum, 0x8000_0000);
    assert p * (a * seed + c) + sum == a * p * seed + (sum + c * p);
    assert Power(a, k + 1) == a * p && c * PowerSum(a, k + 1) == sum + c * p;
  }

  lemma {:induction false} StateAtOnce(seed: UInt32)
    ensures StateAt(seed, 1) == Successor(seed)
  {
    assert Power(1103515245, 1) == 1103515245 * Power(1103515245, 0) && PowerSum(1103515245, 1) == 1;
  }

  /** The state after `k` more numbers; a seed beyond the range is brought into it by the first one. */
  function Skipped(seed: UInt32, k: nat): UInt32 {
    if k == 0 then seed else StateAt(seed, k)
  }

  lemma {:induction false} SkippedNext(seed: UInt32, k: nat)
    ensures Skipped(Successor(seed), k) == Skipped(seed, k + 1)
  {
    if k == 0 {
      StateAtOnce(seed);
    } else {
      StateAtNext(seed, k);
    }
  }

  lemma {:induction false} SkippedTwice(seed: UInt32, a: nat, b: nat)
    ensures Skipped(Skipped(seed, a), b) == Skipped(seed, a + b)
    decreases a
  {
    if a > 0 {
      SkippedNext(seed, a - 1);
      SkippedTwice(Successor(seed), a - 1, b);
      SkippedNext(seed, a - 1 + b);
    }
  }

  /** How many numbers a shuffle of `width` elements takes. */
  function Count(width: nat): nat {
    if width < 2 then 0 else width - 1
  }

  /** The numbers for a shuffle of `width` elements after `from` other numbers were taken. */
  function NumbersFrom(seed: UInt32, from: nat, width: nat): (draws: seq<nat>)
    ensures Draws(draws, width)
  {
    seq(Count(width), k requires 0 <= k < Count(width) => StateAt(seed, from + k + 1) % (width - k))
  }

  lemma {:induction false} NumbersCons(seed: UInt32, from: nat, width: nat)
    requires width >= 2
    ensures NumbersFrom(seed, from, width) == [StateAt(seed, from + 1) % width] + NumbersFrom(seed, from + 1, width - 1)
  {
  }

  /** Every number that is drawn, and the state that is left, as a formula in the seed. */
  lemma {:induction false} DrawsInClosedForm(seed: UInt32, from: nat, width: nat)
    ensures DrawsFrom(Skipped(seed, from), width) == NumbersFrom(seed, from, width)
    ensures StateAfter(Skipped(seed, from), width) == Skipped(seed, from + Count(width))
    decreases width
  {
    if width >= 2 {
      SkippedTwice(seed, from, 1);
      StateAtOnce(Skipped(seed, from));
      DrawsInClosedForm(seed, from + 1, width - 1);
      NumbersCons(seed, from, width);
    }
  }

  // ---- In place ----

  class Vector<E> {
    var elements: seq<E>

    constructor (elements: seq<E>)
      ensures this.elements == elements
    {
      this.elements := elements;
    }
  }

  /** Shuffles the elements from `begin` up to `end` and leaves the others alone. */
  method ShuffleRange<E>(random: Random, begin: nat, end: nat, v: Vector<E>) returns (ghost draws: seq<nat>)
    requires begin <= end <= |v.elements| < MAX_RANGE
    modifies random, v
    ensures draws == DrawsFrom(old(random.state), end - begin) && random.state == StateAfter(old(random.state), end - begin)
    ensures v.elements == old(v.elements)[..begin] + Shuffled(old(v.elements)[begin..end], draws) + old(v.elements)[end..]
  {
    draws := [];
    var rangeWidth := end - begin;
    ghost var s, state := v.elements, random.state;
    assert s == s[..begin] + s[begin..end] + s[end..];
    while rangeWidth >= 2
      invariant |draws| == end - begin - rangeWidth && (rangeWidth >= 1 || begin == end)
      invariant SomeDraws(draws, end - begin) && Drawn(state, end - begin, draws, random.state, rangeWidth)
      invariant v.elements == Stepped(s, begin, end, draws)
    {
      var lastInRange := begin + rangeWidth - 1;
      var drawn := Draw(random, rangeWidth, draws, state, end - begin);
      var selected := begin + drawn;
      NextStep(s, begin, end, draws, drawn);
      v.elements := Swapped(v.elements, selected, lastInRange);
      draws := draws + [drawn];
      rangeWidth := rangeWidth - 1;
    }
    AllDrawn(state, end - begin, draws, random.state, rangeWidth);
    StepsAreTheShuffle(s[begin..end], draws);
  }

  /** From `first`, the generator has given `draws` for the widths down to `width`, and is in `state`. */
  predicate Drawn(first: UInt32, from: nat, draws: seq<nat>, state: UInt32, width: nat) {
    draws + DrawsFrom(state, width) == DrawsFrom(first, from) && StateAfter(state, width) == StateAfter(first, from)
  }

  lemma {:induction false} AllDrawn(first: UInt32, from: nat, draws: seq<nat>, state: UInt32, width: nat)
    requires Drawn(first, from, draws, state, width) && width < 2
    ensures draws == DrawsFrom(first, from) && state == StateAfter(first, from)
  {
    assert draws + [] == draws;
  }

  method Draw(random: Random, width: nat, ghost draws: seq<nat>, ghost first: UInt32, ghost from: nat) returns (drawn: nat)
    requires 2 <= width < MAX_RANGE && Drawn(first, from, draws, random.state, width)
    modifies random
    ensures drawn < width && Drawn(first, from, draws + [drawn], random.state, width - 1)
  {
    NextDraw(random.state, width, draws);
    drawn := random.Generate(width);
  }

  lemma {:induction false} NextDraw(state: UInt32, width: nat, draws: seq<nat>)
    requires width >= 2
    ensures draws + DrawsFrom(state, width) == draws + [Successor(state) % width] + DrawsFrom(Successor(state), width - 1)
    ensures StateAfter(state, width) == StateAfter(Successor(state), width - 1)
  {
  }

  /** The range of `s` after the swaps of `draws`, between what is left alone. */
  function Stepped<E>(s: seq<E>, begin: nat, end: nat, draws: seq<nat>): (t: seq<E>)
    requires begin <= end <= |s| && SomeDraws(draws, end - begin)
    ensures |t| == |s|
  {
    s[..begin] + Steps(s[begin..end], draws) + s[end..]
  }

  lemma {:induction false} NextStep<E>(s: seq<E>, begin: nat, end: nat, draws: seq<nat>, drawn: nat)
    requires begin <= end <= |s| && SomeDraws(draws, end - begin) && end - begin - |draws| >= 2
    requires drawn < end - begin - |draws|
    ensures SomeDraws(draws + [drawn], end - begin)
    ensures Swapped(Stepped(s, begin, end, draws), begin + drawn, end - 1 - |draws|) == Stepped(s, begin, end, draws + [drawn])
  {
    var middle := s[begin..end];
    OneMoreStep(middle, draws, drawn);
    SwapWithin(s[..begin], Steps(middle, draws), s[end..], drawn, |middle| - 1 - |draws|);
  }

  lemma {:induction false} OneMoreStep<E>(s: seq<E>, draws: seq<nat>, drawn: nat)
    requires SomeDraws(draws, |s|) && |s| - |draws| >= 2 && drawn < |s| - |draws|
    ensures SomeDraws(draws + [drawn], |s|)
    ensures Steps(s, draws + [drawn]) == Swapped(Steps(s, draws), drawn, |s| - 1 - |draws|)
  {
    assert (draws + [drawn])[..|draws|] == draws;
  }

  lemma {:induction false} SwapWithin<E>(before: seq<E>, middle: seq<E>, after: seq<E>, i: nat, j: nat)
    requires i < |middle| && j < |middle|
    ensures Swapped(before + middle + after, |before| + i, |before| + j) == before + Swapped(middle, i, j) + after
  {
  }
}
