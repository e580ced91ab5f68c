/** The order of test cases: registration keeps death test cases before all others, and shuffling
    and unshuffling keep them there. */
module TestOrder {
  import opened Octets
  import opened Filters
  import opened Shuffling

  const DEATH_TEST_CASE_FILTER := "*DeathTest:*DeathTest/*"

  /** The names of death test cases. */
  predicate IsDeath(name: string) {
    EndsWith(name, "DeathTest") || Contains(name, "DeathTest/")
  }

  lemma {:induction false} DeathNames(name: string)
    ensures FilterDenotes(DEATH_TEST_CASE_FILTER, name) <==> IsDeath(name)
  {
    assert DEATH_TEST_CASE_FILTER == "*" + "DeathTest" + ":" + ("*" + ("DeathTest/" + "*"));
    SuffixOrInfix("DeathTest", "DeathTest/", name);
  }

  /** The numbers from `lo` up to `hi` in order. */
  function Range(lo: nat, hi: nat): (r: seq<int>)
    requires lo <= hi
    ensures |r| == hi - lo && forall k | 0 <= k < |r| :: r[k] == lo + k
  {
    seq(hi - lo, k => lo + k)
  }

  predicate Rearranges(indices: seq<int>, lo: nat, hi: nat)
    requires lo <= hi
  {
    multiset(indices) == multiset(Range(lo, hi))
  }

  /** `GetElementOr`. */
  function GetElementOr<E>(v: seq<E>, i: int, defaultValue: E): E {
    if i < 0 || i >= |v| then defaultValue else v[i]
  }

  /** What the generator in state `state` makes of a list. */
  function ShuffledFrom(state: UInt32, indices: seq<int>): (r: seq<int>)
    ensures |r| == |indices| && multiset(r) == multiset(indices)
  {
    ShufflePermutes(indices, DrawsFrom(state, |indices|));
    Shuffled(indices, DrawsFrom(state, |indices|))
  }

  /** `ShuffleRange` on a vector that is a field. */
  method ShuffleField(random: Random, begin: nat, end: nat, indices: seq<int>) returns (shuffled: seq<int>)
    requires begin <= end <= |indices| < MAX_RANGE
    modifies random
    ensures shuffled == indices[..begin] + ShuffledFrom(old(random.state), indices[begin..end]) + indices[end..]
    ensures random.state == StateAfter(old(random.state), end - begin)
  {
    var v := new Vector(indices);
    ghost var draws := ShuffleRange(random, begin, end, v);
    shuffled := v.elements;
  }

  /** A test case with the names of its tests in order of registration. */
  class TestCase {
    const name: string
    var tests: seq<string>
    var testIndices: seq<int>

    predicate Ready()
      reads this
    {
      |tests| < MAX_RANGE && |testIndices| == |tests| && Rearranges(testIndices, 0, |tests|)
    }

    predicate InOrder()
      reads this
    {
      testIndices == Range(0, |tests|)
    }

    constructor (name: string)
      ensures this.name == name && tests == [] && Ready()
    {
      this.name := name;
      tests, testIndices := [], [];
    }

    method AddTestInfo(test: string)
      requires Ready() && InOrder() && |tests| + 1 < MAX_RANGE
      modifies this
      ensures Ready() && InOrder() && tests == old(tests) + [test]
    {
      tests := tests + [test];
      testIndices := testIndices + [|testIndices|];
      IdentityCons(|testIndices| - 1);
    }

    method ShuffleTests(random: Random)
      requires Ready()
      modifies random, `testIndices
      ensures Ready() && testIndices == ShuffledFrom(old(random.state), old(testIndices))
      ensures random.state == StateAfter(old(random.state), |tests|)
    {
      ghost var before := testIndices;
      testIndices := ShuffleField(random, 0, |testIndices|, testIndices);
      assert before[..0] == [] && before[0..|before|] == before && before[|before|..] == [];
    }

    method UnshuffleTests()
      requires Ready()
      modifies `testIndices
      ensures Ready() && InOrder()
    {
      var i := 0;
      while i < |testIndices|
        invariant i <= |testIndices| == |tests|
        invariant forall k | 0 <= k < i :: testIndices[k] == k
      {
        testIndices := testIndices[i := i];
        i := i + 1;
      }
      assert testIndices == Range(0, |tests|);
    }
  }

  /** The death test cases among `cases`, or the other ones, in their order. */
  ghost function Chosen(cases: seq<TestCase>, death: bool): seq<TestCase> {
    if cases == [] then []
    else
      var front, last := cases[..|cases| - 1], cases[|cases| - 1];
      Chosen(front, death) + if IsDeath(last.name) == death then [last] else []
  }

  lemma {:induction false} AllChosen(cases: seq<TestCase>, death: bool)
    ensures forall c | c in Chosen(cases, death) :: c in cases && IsDeath(c.name) == death
  {
    if cases != [] {
      AllChosen(cases[..|cases| - 1], death);
    }
  }

  /** Each block of the indices is a rearrangement of its own positions. */
  ghost predicate InBlocks(indices: seq<int>, deaths: nat) {
    deaths <= |indices| && Rearranges(indices[..deaths], 0, deaths) && Rearranges(indices[deaths..], deaths, |indices|)
  }

  lemma {:induction false} IdentityInBlocks(deaths: nat, n: nat)
    requires deaths <= n
    ensures InBlocks(Range(0, n), deaths)
  {
    assert Range(0, n)[..deaths] == Range(0, deaths) && Range(0, n)[deaths..] == Range(deaths, n);
  }

  lemma {:induction false} RearrangedIsIn(indices: seq<int>, lo: nat, hi: nat, i: int)
    requires lo <= hi && Rearranges(indices, lo, hi)
    ensures i in indices <==> lo <= i < hi
  {
    assert i in indices <==> i in multiset(indices);
    assert i in Range(lo, hi) <==> i in multiset(Range(lo, hi));
    assert lo <= i < hi ==> Range(lo, hi)[i - lo] == i;
  }

  /** The list of test cases and the list of indices by which they are run. */
  class UnitTestImpl {
    var testCases: seq<TestCase>
    var testCaseIndices: seq<int>
    var lastDeathTestCase: int
    ghost var registered: seq<TestCase>

    ghost predicate Valid()
      reads this, testCases
    {
      && Registered()
      && |testCases| < MAX_RANGE && |testCaseIndices| == |testCases|
      && InBlocks(testCaseIndices, lastDeathTestCase + 1)
      && CasesReady()
    }

    /** The death test cases in order of registration, followed by the others in order of registration;
        no name occurs twice. */
    ghost predicate Registered()
      reads this
    {
      && testCases == Chosen(registered, true) + Chosen(registered, false)
      && lastDeathTestCase + 1 == |Chosen(registered, true)|
      && NamesDiffer(testCases)
    }

    ghost predicate CasesReady()
      reads this, testCases
    {
      forall c | c in testCases :: c.Ready()
    }

    ghost predicate Unshuffled()
      reads this
    {
      testCaseIndices == Range(0, |testCases|)
    }

    constructor ()
      ensures Valid() && Unshuffled() && registered == []
    {
      testCases, registered, testCaseIndices := [], [], [];
      lastDeathTestCase := -1;
      new;
      assert Registered() && CasesReady();
      assert testCaseIndices == Range(0, |testCases|);
      IdentityInBlocks(0, 0);
    }

    /** `GetMutableTestCase`: the test case that is run at position `i`. */
    function GetMutableTestCase(i: int): (c: TestCase?)
      requires Valid()
      reads this, testCases
      ensures c == null <==> i < 0 || i >= |testCases|
    {
      var index := GetElementOr(testCaseIndices, i, -1);
      assert index >= 0 <==> 0 <= i < |testCases| by {
        if 0 <= i < |testCases| { IndexInRange(i); }
      }
      if index < 0 then null else
        IndexInRange(i);
        testCases[index]
    }

    /** `GetTestCase` by position uses the index only to see that there is one. */
    function GetTestCaseAt(i: int): (c: TestCase?)
      requires Valid()
      reads this, testCases
      ensures c == null <==> i < 0 || i >= |testCases|
    {
      var index := GetElementOr(testCaseIndices, i, -1);
      assert index >= 0 <==> 0 <= i < |testCases| by {
        if 0 <= i < |testCases| { IndexInRange(i); }
      }
      if index < 0 then null else
        IndexInRange(i);
        testCases[i]
    }

    /** The two accessors agree exactly at the positions that the shuffle left in place. */
    lemma {:induction false} AccessorsAgree(i: nat)
      requires Valid() && i < |testCases|
      ensures GetTestCaseAt(i) == GetMutableTestCase(i) <==> testCaseIndices[i] == i
    {
      IndexInRange(i);
      var k := testCaseIndices[i];
      assert k < i ==> testCases[k].name != testCases[i].name;
      assert i < k ==> testCases[i].name != testCases[k].name;
    }

    lemma {:induction false} IndexInRange(i: nat)
      requires Valid() && i < |testCases|
      ensures 0 <= testCaseIndices[i] < |testCases|
      ensures testCaseIndices[i] <= lastDeathTestCase <==> i <= lastDeathTestCase
    {
      var indices, deaths := testCaseIndices, lastDeathTestCase + 1;
      if i < deaths {
        RearrangedIsIn(indices[..deaths], 0, deaths, indices[i]);
        assert indices[..deaths][i] == indices[i];
      } else {
        RearrangedIsIn(indices[deaths..], deaths, |indices|, indices[i]);
        assert indices[deaths..][i - deaths] == indices[i];
      }
    }

    /** However the list was shuffled, the test cases that run first are the death test cases. */
    lemma {:induction false} DeathTestsRunFirst(i: nat)
      requires Valid() && i < |testCases|
      ensures IsDeath(GetMutableTestCase(i).name) <==> i <= lastDeathTestCase
    {
      IndexInRange(i);
      AllChosen(registered, true);
      AllChosen(registered, false);
      var k := testCaseIndices[i];
      assert testCases[k] == if k <= lastDeathTestCase then Chosen(registered, true)[k]
        else Chosen(registered, false)[k - lastDeathTestCase - 1];
    }

    /** Every test case runs once. */
    lemma {:induction false} EveryCaseRunsOnce(k: nat)
      requires Valid() && k < |testCases|
      ensures multiset(testCaseIndices)[k] == 1
      ensures exists i: nat :: i < |testCases| && GetMutableTestCase(i) == testCases[k]
    {
      var indices, deaths := testCaseIndices, lastDeathTestCase + 1;
      assert indices == indices[..deaths] + indices[deaths..];
      assert Range(0, |indices|) == Range(0, deaths) + Range(deaths, |indices|);
      RangeOnce(0, |indices|, k);
      assert k in indices;
      var i :| 0 <= i < |indices| && indices[i] == k;
      assert GetMutableTestCase(i) == testCases[k];
    }

    /** `GetTestCase`: it may only be called when the test cases are not shuffled. */
    method GetTestCase(name: string) returns (testCase: TestCase)
      requires Valid() && Unshuffled() && |testCases| + 1 < MAX_RANGE
      modifies this
      ensures Valid() && Unshuffled() && testCase in testCases && testCase.name == name
      ensures (exists c :: c in old(testCases) && c.name == name) ==>
        testCases == old(testCases) && registered == old(registered)
      ensures (forall c | c in old(testCases) :: c.name != name) ==>
        fresh(testCase) && registered == old(registered) + [testCase]
    {
      var k := 0;
      while k < |testCases|
        invariant k <= |testCases| && forall l | 0 <= l < k :: testCases[l].name != name
      {
        if testCases[k].name == name {
          return testCases[k];
        }
        k := k + 1;
      }
      testCase := CreateTestCase(name);
    }

    /** Shuffles the two blocks of test cases, and the tests inside each test case. */
    method ShuffleTests(random: Random, ghost before: seq<seq<int>>)
      requires Valid() && |before| == |testCases|
      requires forall k | 0 <= k < |testCases| :: testCases[k].testIndices == before[k]
      modifies `testCaseIndices, random, testCases`testIndices
      ensures Valid()
      ensures testCaseIndices == BlocksShuffled(old(random.state), old(testCaseIndices), lastDeathTestCase + 1)
      ensures var state := StateAfterBlocks(old(random.state), lastDeathTestCase + 1, |testCases|);
        forall k | 0 <= k < |testCases| :: testCases[k].testIndices == CaseShuffled(state, before, k)
    {
      ShuffleBlocks(random);
      CasesDiffer(testCases);
      ghost var state := random.state;
      ShuffleEachCase(random, before, seq(|before|, k requires 0 <= k < |before| => CaseShuffled(state, before, k)));
    }

    /** The loop: one test case after the other is shuffled with the numbers that come next. */
    method ShuffleEachCase(random: Random, ghost before: seq<seq<int>>, ghost goal: seq<seq<int>>)
      requires CasesReady() && Distinct(testCases) && |before| == |goal| == |testCases|
      requires forall k | 0 <= k < |testCases| :: testCases[k].testIndices == before[k]
      requires forall k {:trigger CaseShuffled(random.state, before, k)} | 0 <= k < |testCases| ::
        CaseShuffled(random.state, before, k) == goal[k]
      modifies random, testCases`testIndices
      ensures CasesReady()
      ensures forall k | 0 <= k < |testCases| :: testCases[k].testIndices == goal[k]
    {
      var i := 0;
      while i < |testCases|
        invariant i <= |testCases| && CasesReady() && random.state == StateBefore(old(random.state), before, i)
        invariant forall k | 0 <= k < |testCases| :: testCases[k].testIndices == if k < i then goal[k] else before[k]
      {
        ShuffleOneCase(random, testCases[i], i, before, old(random.state));
        i := i + 1;
      }
    }

    static method ShuffleOneCase(random: Random, c: TestCase, ghost i: nat, ghost before: seq<seq<int>>, ghost first: UInt32)
      requires i < |before| && c.Ready() && c.testIndices == before[i] && random.state == StateBefore(first, before, i)
      modifies random, c`testIndices
      ensures c.Ready() && c.testIndices == CaseShuffled(first, before, i)
      ensures random.state == StateBefore(first, before, i + 1)
    {
      c.ShuffleTests(random);
    }

    method ShuffleBlocks(random: Random)
      requires -1 <= lastDeathTestCase < |testCases| == |testCaseIndices| < MAX_RANGE
      requires InBlocks(testCaseIndices, lastDeathTestCase + 1)
      modifies `testCaseIndices, random
      ensures |testCaseIndices| == |testCases| && InBlocks(testCaseIndices, lastDeathTestCase + 1)
      ensures testCaseIndices == BlocksShuffled(old(random.state), old(testCaseIndices), lastDeathTestCase + 1)
      ensures random.state == StateAfterBlocks(old(random.state), lastDeathTestCase + 1, |testCases|)
    {
      var deaths, n := lastDeathTestCase + 1, |testCases|;
      ghost var state, before := random.state, testCaseIndices;
      testCaseIndices := ShuffleField(random, 0, deaths, testCaseIndices);
      testCaseIndices := ShuffleField(random, deaths, n, testCaseIndices);
      TwoShuffles(state, before, deaths);
      BlocksStay(state, before, deaths);
    }

    /** Restores the order of the test cases and of the tests before the first shuffle. */
    method UnshuffleTests()
      requires Valid()
      modifies `testCaseIndices, testCases`testIndices
      ensures Valid() && Unshuffled()
      ensures forall c | c in testCases :: c.InOrder()
    {
      UnshuffleAll();
      IdentityInBlocks(lastDeathTestCase + 1, |testCases|);
    }

    method UnshuffleAll()
      requires |testCaseIndices| == |testCases| && CasesReady()
      modifies `testCaseIndices, testCases`testIndices
      ensures CasesReady() && Unshuffled()
      ensures forall c | c in testCases :: c.InOrder()
    {
      var i := 0;
      while i < |testCases|
        invariant i <= |testCases| == |testCaseIndices| && CasesReady()
        invariant forall k | 0 <= k < i :: testCaseIndices[k] == k
        invariant forall k | 0 <= k < i :: testCases[k].InOrder()
      {
        testCases[i].UnshuffleTests();
        testCaseIndices := testCaseIndices[i := i];
        i := i + 1;
      }
      assert testCaseIndices == Range(0, |testCases|);
    }

    /** A new death test case goes after the last one so far, and any other to the end. */
    method CreateTestCase(name: string) returns (testCase: TestCase)
      requires Valid() && Unshuffled() && |testCases| + 1 < MAX_RANGE
      requires forall c | c in testCases :: c.name != name
      modifies this
      ensures Valid() && Unshuffled() && testCase in testCases && testCase.name == name
      ensures fresh(testCase) && registered == old(registered) + [testCase]
    {
      testCase := new TestCase(name);
      Add(testCase);
      AppendIndex();
    }

    method AppendIndex()
      requires |testCaseIndices| + 1 == |testCases| && testCaseIndices == Range(0, |testCaseIndices|)
      requires -1 <= lastDeathTestCase < |testCases|
      modifies `testCaseIndices
      ensures Unshuffled() && InBlocks(testCaseIndices, lastDeathTestCase + 1)
    {
      testCaseIndices := testCaseIndices + [|testCaseIndices|];
      IdentityCons(|testCases| - 1);
      IdentityInBlocks(lastDeathTestCase + 1, |testCases|);
    }

    method Add(testCase: TestCase)
      requires Registered() && CasesReady() && forall c | c in testCases :: c.name != testCase.name
      requires testCase.Ready()
      modifies `testCases, `lastDeathTestCase, `registered
      ensures Registered() && CasesReady() && testCase in testCases
      ensures registered == old(registered) + [testCase] && |testCases| == |old(testCases)| + 1
    {
      ghost var cases, at := testCases, Place(testCases, |Chosen(registered, true)|, testCase);
      Insert(testCase);
      assert testCases == Placed(cases, at, testCase);
      PlacedInOrder(registered, cases, testCase);
      PlacedNames(cases, at, testCase);
      PlacedMembers(cases, at, testCase);
      registered := registered + [testCase];
    }

    method Insert(testCase: TestCase)
      requires -1 <= lastDeathTestCase < |testCases|
      modifies `testCases, `lastDeathTestCase
      ensures lastDeathTestCase == old(lastDeathTestCase) + if IsDeath(testCase.name) then 1 else 0
      ensures testCases == Placed(old(testCases), Place(old(testCases), old(lastDeathTestCase) + 1, testCase), testCase)
    {
      DeathNames(testCase.name);
      var death := MatchesFilter(testCase.name, DEATH_TEST_CASE_FILTER);
      if death {
        lastDeathTestCase := lastDeathTestCase + 1;
        testCases := testCases[..lastDeathTestCase] + [testCase] + testCases[lastDeathTestCase..];
      } else {
        testCases := testCases + [testCase];
      }
    }
  }

  /** The state of the generator before case `i` is shuffled; `indices` are those of the cases. */
  function StateBefore(state: UInt32, indices: seq<seq<int>>, i: nat): UInt32
    requires i <= |indices|
  {
    if i == 0 then state else StateAfter(StateBefore(state, indices, i - 1), |indices[i - 1]|)
  }

  function CaseShuffled(state: UInt32, indices: seq<seq<int>>, i: nat): seq<int>
    requires i < |indices|
  {
    ShuffledFrom(StateBefore(state, indices, i), indices[i])
  }

  /** The death block shuffled, and then the other one. */
  function BlocksShuffled(state: UInt32, indices: seq<int>, deaths: nat): seq<int>
    requires deaths <= |indices|
  {
    ShuffledFrom(state, indices[..deaths]) + ShuffledFrom(StateAfter(state, deaths), indices[deaths..])
  }

  function StateAfterBlocks(state: UInt32, deaths: nat, n: nat): UInt32
    requires deaths <= n
  {
    StateAfter(StateAfter(state, deaths), n - deaths)
  }

  /** How many numbers the shuffles of the first `k` test cases take. */
  function Taken(indices: seq<seq<int>>, k: nat): nat
    requires k <= |indices|
  {
    if k == 0 then 0 else Taken(indices, k - 1) + Count(|indices[k - 1]|)
  }

  lemma {:induction false} StateBeforeInClosedForm(seed: UInt32, from: nat, indices: seq<seq<int>>, k: nat)
    requires k <= |indices|
    ensures StateBefore(Skipped(seed, from), indices, k) == Skipped(seed, from + Taken(indices, k))
    decreases k
  {
    if k > 0 {
      StateBeforeInClosedForm(seed, from, indices, k - 1);
      DrawsInClosedForm(seed, from + Taken(indices, k - 1), |indices[k - 1]|);
    }
  }

  lemma {:induction false} ShuffledFromStream(seed: UInt32, from: nat, indices: seq<int>)
    ensures ShuffledFrom(Skipped(seed, from), indices) == Shuffled(indices, NumbersFrom(seed, from, |indices|))
  {
    DrawsInClosedForm(seed, from, |indices|);
  }

  /** One stream of numbers serves all shuffles: first the block of death test cases, then the other block, */
  lemma {:induction false} BlocksFromStream(seed: UInt32, deaths: seq<int>, others: seq<int>)
    ensures BlocksShuffled(seed, deaths + others, |deaths|)
      == Shuffled(deaths, NumbersFrom(seed, 0, |deaths|)) + Shuffled(others, NumbersFrom(seed, Count(|deaths|), |others|))
  {
    assert (deaths + others)[..|deaths|] == deaths && (deaths + others)[|deaths|..] == others;
    ShuffledFromStream(seed, 0, deaths);
    DrawsInClosedForm(seed, 0, |deaths|);
    ShuffledFromStream(seed, Count(|deaths|), others);
  }

  lemma {:induction false} AfterBlocks(seed: UInt32, deaths: nat, n: nat)
    requires deaths <= n
    ensures StateAfterBlocks(seed, deaths, n) == Skipped(seed, Count(deaths) + Count(n - deaths))
  {
    DrawsInClosedForm(seed, 0, deaths);
    DrawsInClosedForm(seed, Count(deaths), n - deaths);
  }

  lemma {:induction false} CaseFromStream(seed: UInt32, from: nat, cases: seq<seq<int>>, k: nat)
    requires k < |cases|
    ensures CaseShuffled(Skipped(seed, from), cases, k)
      == Shuffled(cases[k], NumbersFrom(seed, from + Taken(cases, k), |cases[k]|))
  {
    StateBeforeInClosedForm(seed, from, cases, k);
    ShuffledFromStream(seed, from + Taken(cases, k), cases[k]);
  }

  /** and then the tests of one case after the other. */
  lemma {:induction false} CasesFromStream(seed: UInt32, deaths: nat, n: nat, cases: seq<seq<int>>, k: nat)
    requires deaths <= n && k < |cases|
    ensures var from := Count(deaths) + Count(n - deaths);
      CaseShuffled(StateAfterBlocks(seed, deaths, n), cases, k)
        == Shuffled(cases[k], NumbersFrom(seed, from + Taken(cases, k), |cases[k]|))
  {
    AfterBlocks(seed, deaths, n);
    CaseFromStream(seed, Count(deaths) + Count(n - deaths), cases, k);
  }

  lemma {:induction false} JoinedBlocks(block: seq<int>, indices: seq<int>, deaths: nat)
    requires |block| == deaths <= |indices|
    ensures var first := indices[..0] + block + indices[deaths..];
      |first| == |indices| && first[..deaths] == block && first[deaths..|indices|] == indices[deaths..] && first[|indices|..] == []
  {
  }

  lemma {:induction false} TwoShuffles(state: UInt32, indices: seq<int>, deaths: nat)
    requires deaths <= |indices|
    ensures var first := indices[..0] + ShuffledFrom(state, indices[0..deaths]) + indices[deaths..];
      && |first| == |indices|
      && first[..deaths] + ShuffledFrom(StateAfter(state, deaths), first[deaths..|indices|]) + first[|indices|..]
           == BlocksShuffled(state, indices, deaths)
  {
    assert indices[0..deaths] == indices[..deaths];
    JoinedBlocks(ShuffledFrom(state, indices[0..deaths]), indices, deaths);
    assert BlocksShuffled(state, indices, deaths) + [] == BlocksShuffled(state, indices, deaths);
  }

  lemma {:induction false} BlocksStay(state: UInt32, indices: seq<int>, deaths: nat)
    requires InBlocks(indices, deaths)
    ensures |BlocksShuffled(state, indices, deaths)| == |indices| && InBlocks(BlocksShuffled(state, indices, deaths), deaths)
  {
    var all := BlocksShuffled(state, indices, deaths);
    assert all[..deaths] == ShuffledFrom(state, indices[..deaths]);
    assert all[deaths..] == ShuffledFrom(StateAfter(state, deaths), indices[deaths..]);
  }

  /** Where a new test case goes. */
  ghost function Place(cases: seq<TestCase>, deaths: nat, c: TestCase): (at: nat)
    requires deaths <= |cases|
    ensures at <= |cases|
  {
    if IsDeath(c.name) then deaths else |cases|
  }

  function Placed(cases: seq<TestCase>, at: nat, c: TestCase): seq<TestCase>
    requires at <= |cases|
  {
    cases[..at] + [c] + cases[at..]
  }

  predicate NamesDiffer(cases: seq<TestCase>) {
    forall k, l | 0 <= k < l < |cases| :: cases[k].name != cases[l].name
  }

  lemma {:induction false} CasesDiffer(cases: seq<TestCase>)
    requires NamesDiffer(cases)
    ensures Distinct(cases)
  {
  }

  lemma {:induction false} PlacedMembers(cases: seq<TestCase>, at: nat, c: TestCase)
    requires at <= |cases|
    ensures forall d :: d in Placed(cases, at, c) <==> d == c || d in cases
  {
    assert cases == cases[..at] + cases[at..];
  }

  lemma {:induction false} PlacedNames(cases: seq<TestCase>, at: nat, c: TestCase)
    requires at <= |cases| && NamesDiffer(cases) && forall d | d in cases :: d.name != c.name
    ensures NamesDiffer(Placed(cases, at, c))
  {
  }

  lemma {:induction false} BetweenBlocks(deaths: seq<TestCase>, others: seq<TestCase>, c: TestCase)
    ensures Placed(deaths + others, |deaths|, c) == (deaths + [c]) + others
    ensures Placed(deaths + others, |deaths + others|, c) == deaths + (others + [c])
  {
  }

  lemma {:induction false} PlacedInOrder(registered: seq<TestCase>, cases: seq<TestCase>, c: TestCase)
    requires cases == Chosen(registered, true) + Chosen(registered, false)
    ensures Placed(cases, Place(cases, |Chosen(registered, true)|, c), c)
      == Chosen(registered + [c], true) + Chosen(registered + [c], false)
    ensures |Chosen(registered + [c], true)| == |Chosen(registered, true)| + if IsDeath(c.name) then 1 else 0
  {
    BetweenBlocks(Chosen(registered, true), Chosen(registered, false), c);
    OneMoreChosen(registered, c);
  }

  lemma {:induction false} IdentityCons(n: nat)
    ensures Range(0, n + 1) == Range(0, n) + [n]
  {
  }

  lemma {:induction false} OneMoreChosen(cases: seq<TestCase>, c: TestCase)
    ensures Chosen(cases + [c], true) == Chosen(cases, true) + if IsDeath(c.name) then [c] else []
    ensures Chosen(cases + [c], false) == Chosen(cases, false) + if IsDeath(c.name) then [] else [c]
  {
    assert (cases + [c])[..|cases|] == cases;
  }

  lemma {:induction false} RangeOnce(lo: nat, hi: nat, k: nat)
    requires lo <= k < hi
    ensures multiset(Range(lo, hi))[k] == 1
    decreases hi
  {
    assert Range(lo, hi) == Range(lo, hi - 1) + [hi - 1];
    if k < hi - 1 {
      RangeOnce(lo, hi - 1, k);
    } else {
      assert k !in Range(lo, hi - 1) && multiset(Range(lo, hi - 1))[k] == 0;
    }
  }

  // ---- An example ----

  lemma {:induction false} SwappedExample()
    ensures BlocksShuffled(1, Range(0, 2), 0) == [1, 0]
  {
    assert Successor(1) == 1103527590;
    assert DrawsFrom(1, 2) == [0] by {
      assert DrawsFrom(Successor(1), 1) == [];
    }
    assert Range(0, 2)[..0] == [] && Range(0, 2)[0..] == [0, 1];
    assert Swapped([0, 1], 0, 1) == [1, 0];
    assert Shuffled([0, 1], [0]) == [1, 0];
  }

  /** A new test case that is no death test case goes to the end. */
  method RegisterOther(impl: UnitTestImpl, name: string) returns (testCase: TestCase)
    requires impl.Valid() && impl.Unshuffled() && |impl.testCases| + 1 < MAX_RANGE
    requires !IsDeath(name) && forall c | c in impl.testCases :: c.name != name
    modifies impl
    ensures impl.Valid() && impl.Unshuffled() && fresh(testCase) && testCase.name == name
    ensures impl.testCases == old(impl.testCases) + [testCase] && impl.lastDeathTestCase == old(impl.lastDeathTestCase)
  {
    ghost var before := impl.registered;
    testCase := impl.GetTestCase(name);
    OtherGoesLast(before, testCase);
  }

  lemma {:induction false} OtherGoesLast(registered: seq<TestCase>, c: TestCase)
    requires !IsDeath(c.name)
    ensures Chosen(registered + [c], true) == Chosen(registered, true)
    ensures Chosen(registered + [c], true) + Chosen(registered + [c], false) == Chosen(registered, true) + Chosen(registered, false) + [c]
  {
    OneMoreChosen(registered, c);
    assert Chosen(registered, true) + [] == Chosen(registered, true);
  }

  /** A framework with two test cases, neither of which is a death test case. */
  method RegisterTwo() returns (impl: UnitTestImpl)
    ensures fresh(impl) && impl.Valid() && impl.Unshuffled() && fresh(impl.testCases)
    ensures |impl.testCases| == 2 && impl.lastDeathTestCase == -1
  {
    impl := new UnitTestImpl();
    var a := RegisterOther(impl, "A");
    assert a.name[0] != 'B';
    var b := RegisterOther(impl, "B");
  }

  /** The test cases are shuffled from seed 1: at the first position the two accessors give different ones. */
  method AccessorsDifferExample() returns (impl: UnitTestImpl)
    ensures fresh(impl) && impl.Valid() && |impl.testCases| == 2
    ensures impl.GetTestCaseAt(0) != impl.GetMutableTestCase(0)
  {
    impl := RegisterTwo();
    var random := new Random(1);
    ghost var before := [impl.testCases[0].testIndices, impl.testCases[1].testIndices];
    SwappedExample();
    impl.ShuffleTests(random, before);
    impl.AccessorsAgree(0);
  }
}
