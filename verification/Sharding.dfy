/** Selecting the tests of one shard: every runnable test belongs to exactly one shard, and the shards
    are as even as they can be. */
module Sharding {
  import opened Arithmetic
  import opened Filters

  class TestInfo {
    const name: string
    var isDisabled: bool
    var matchesFilter: bool
    var shouldRun: bool
  }

  class TestCase {
    const name: string
    const tests: seq<TestInfo>
    var shouldRun: bool
  }

  /** The environment of a run: the flags, and the shard if sharding is in force. */
  datatype Setting = Setting(filter: string, alsoRunDisabled: bool, shard: Shard)
  datatype Shard = Everything | One(total: int, index: int)

  // ---- Specification ----

  /** What the names of a test decide. */
  datatype Verdict = Verdict(disabled: bool, matches: bool, runnable: bool)

  ghost function Judge(setting: Setting, caseName: string, testName: string): Verdict {
    var disabled := IsDisabledName(caseName) || IsDisabledName(testName);
    var matches := FlagSelects(setting.filter, caseName + "." + testName);
    Verdict(disabled, matches, (setting.alsoRunDisabled || !disabled) && matches)
  }

  /** The verdicts on all tests, case by case. */
  type Verdicts = seq<seq<Verdict>>

  ghost predicate Fair(setting: Setting, cases: seq<TestCase>, verdicts: Verdicts) {
    |verdicts| == |cases| && forall i {:trigger verdicts[i]} | 0 <= i < |cases| :: FairCase(setting, cases[i], verdicts[i])
  }

  ghost predicate FairCase(setting: Setting, testCase: TestCase, row: seq<Verdict>) {
    |row| == |testCase.tests| && forall j | 0 <= j < |testCase.tests| ::
      row[j] == Judge(setting, testCase.name, testCase.tests[j].name)
  }

  /** C's remainder truncates; test ids and numbers of shards are not negative. */
  predicate ShouldRunTestOnShard(totalShards: int, shardIndex: int, testId: nat)
    requires totalShards > 0
  {
    testId % totalShards == shardIndex
  }

  predicate Usable(shard: Shard) {
    shard.One? ==> shard.total > 0
  }

  predicate Selects(shard: Shard, id: nat)
    requires Usable(shard)
  {
    shard.Everything? || ShouldRunTestOnShard(shard.total, shard.index, id)
  }

  /** How many of the ids below `n` the shard selects. */
  function Selected(shard: Shard, n: nat): nat
    requires Usable(shard)
  {
    if n == 0 then 0 else Selected(shard, n - 1) + if Selects(shard, n - 1) then 1 else 0
  }

  /** The ids count the runnable tests in order: this is the id of test `j` of case `i`, if that is
      runnable. */
  function RunnableBefore(verdicts: Verdicts, i: nat, j: nat): nat
    requires i <= |verdicts| && j <= if i < |verdicts| then |verdicts[i]| else 0
    decreases i, j
  {
    if j > 0 then RunnableBefore(verdicts, i, j - 1) + if verdicts[i][j - 1].runnable then 1 else 0
    else if i > 0 then RunnableBefore(verdicts, i - 1, |verdicts[i - 1]|)
    else 0
  }

  function RunnableTests(verdicts: Verdicts): nat {
    RunnableBefore(verdicts, |verdicts|, 0)
  }

  predicate IsSelected(shard: Shard, verdicts: Verdicts, i: nat, j: nat)
    requires Usable(shard) && i < |verdicts| && j < |verdicts[i]|
  {
    verdicts[i][j].runnable && Selects(shard, RunnableBefore(verdicts, i, j))
  }

  /** What `FilterTests` records in a test. */
  ghost predicate Recorded(shard: Shard, verdicts: Verdicts, i: nat, j: nat, test: TestInfo)
    requires Usable(shard) && i < |verdicts| && j < |verdicts[i]|
    reads test
  {
    && test.isDisabled == verdicts[i][j].disabled && test.matchesFilter == verdicts[i][j].matches
    && test.shouldRun == IsSelected(shard, verdicts, i, j)
  }

  /** What is recorded in a case and its tests. */
  ghost predicate RecordedCase(shard: Shard, verdicts: Verdicts, i: nat, testCase: TestCase)
    requires Usable(shard) && i < |verdicts| && |testCase.tests| == |verdicts[i]|
    reads testCase, testCase.tests
  {
    && (forall j {:trigger verdicts[i][j]} | 0 <= j < |testCase.tests| :: Recorded(shard, verdicts, i, j, testCase.tests[j]))
    && testCase.shouldRun == AnySelected(shard, verdicts, i, |testCase.tests|)
  }

  /** One of the first `n` tests of case `i` is selected. */
  predicate AnySelected(shard: Shard, verdicts: Verdicts, i: nat, n: nat)
    requires Usable(shard) && i < |verdicts| && n <= |verdicts[i]|
  {
    exists j {:trigger IsSelected(shard, verdicts, i, j)} | 0 <= j < n :: IsSelected(shard, verdicts, i, j)
  }

  lemma {:induction false} OneMoreSelected(shard: Shard, verdicts: Verdicts, i: nat, j: nat)
    requires Usable(shard) && i < |verdicts| && j < |verdicts[i]|
    ensures AnySelected(shard, verdicts, i, j + 1) == (AnySelected(shard, verdicts, i, j) || IsSelected(shard, verdicts, i, j))
  {
  }

  /** Every case and every test is in one place. */
  ghost predicate Separate(cases: seq<TestCase>) {
    && (forall i, k | 0 <= i < k < |cases| :: cases[i] != cases[k])
    && (forall i | 0 <= i < |cases| :: Distinct(cases[i].tests))
    && (forall i, k {:trigger Apart(cases[i].tests, cases[k].tests)} | 0 <= i < k < |cases| ::
          Apart(cases[i].tests, cases[k].tests))
  }

  predicate Distinct(tests: seq<TestInfo>) {
    forall j, l | 0 <= j < l < |tests| :: tests[j] != tests[l]
  }

  ghost predicate Apart(these: seq<TestInfo>, those: seq<TestInfo>) {
    forall j | 0 <= j < |these| :: these[j] !in those
  }

  ghost function AllTests(cases: seq<TestCase>): set<object> {
    (set i, j | 0 <= i < |cases| && 0 <= j < |cases[i].tests| :: cases[i].tests[j])
  }

  // ---- How many tests are to run ----

  /** How many of the first `n` tests are recorded as to be run. */
  ghost function Running(tests: seq<TestInfo>, n: nat): nat
    requires n <= |tests|
    reads tests
  {
    if n == 0 then 0 else Running(tests, n - 1) + if tests[n - 1].shouldRun then 1 else 0
  }

  /** The same for all tests of the first `n` cases. */
  ghost function RunningTests(cases: seq<TestCase>, n: nat): nat
    requires n <= |cases|
    reads AllTests(cases)
  {
    if n == 0 then 0
    else
      var tests := cases[n - 1].tests;
      assert forall test | test in tests :: test in AllTests(cases);
      RunningTests(cases, n - 1) + Running(tests, |tests|)
  }

  lemma {:induction false} RunningInCase(shard: Shard, verdicts: Verdicts, i: nat, testCase: TestCase, n: nat)
    requires Usable(shard) && i < |verdicts| && |testCase.tests| == |verdicts[i]| && n <= |verdicts[i]|
    requires RecordedCase(shard, verdicts, i, testCase)
    ensures Selected(shard, RunnableBefore(verdicts, i, n))
      == Selected(shard, RunnableBefore(verdicts, i, 0)) + Running(testCase.tests, n)
    decreases n
  {
    if n > 0 {
      RunningInCase(shard, verdicts, i, testCase, n - 1);
      assert Recorded(shard, verdicts, i, n - 1, testCase.tests[n - 1]);
    }
  }

  /** The tests that are recorded as to be run are as many as the shard selects. */
  lemma {:induction false} RunningAreSelected(setting: Setting, verdicts: Verdicts, cases: seq<TestCase>, n: nat)
    requires Usable(setting.shard) && Fair(setting, cases, verdicts) && n <= |cases|
    requires forall i {:trigger cases[i]} | 0 <= i < |cases| :: RecordedCase(setting.shard, verdicts, i, cases[i])
    ensures RunningTests(cases, n) == Selected(setting.shard, RunnableBefore(verdicts, n, 0))
    decreases n
  {
    if n > 0 {
      assert FairCase(setting, cases[n - 1], verdicts[n - 1]);
      RunningAreSelected(setting, verdicts, cases, n - 1);
      RunningInCase(setting.shard, verdicts, n - 1, cases[n - 1], |verdicts[n - 1]|);
    }
  }

  // ---- The loops ----

  /** `FilterTests`: records in every test and case whether it runs, and returns how many tests do. */
  method FilterTests(setting: Setting, cases: seq<TestCase>, ghost verdicts: Verdicts) returns (numSelected: nat)
    requires Usable(setting.shard) && Separate(cases) && Fair(setting, cases, verdicts)
    modifies cases, AllTests(cases)
    ensures forall i {:trigger cases[i]} | 0 <= i < |cases| :: RecordedCase(setting.shard, verdicts, i, cases[i])
    ensures numSelected == Selected(setting.shard, RunnableTests(verdicts))
    ensures numSelected == RunningTests(cases, |cases|)
  {
    numSelected := FilterCases(setting, cases, verdicts);
    RunningAreSelected(setting, verdicts, cases, |cases|);
  }

  /** The outer loop. */
  method FilterCases(setting: Setting, cases: seq<TestCase>, ghost verdicts: Verdicts) returns (numSelected: nat)
    requires Usable(setting.shard) && Separate(cases) && Fair(setting, cases, verdicts)
    modifies cases, AllTests(cases)
    ensures forall i {:trigger cases[i]} | 0 <= i < |cases| :: RecordedCase(setting.shard, verdicts, i, cases[i])
    ensures numSelected == Selected(setting.shard, RunnableTests(verdicts))
  {
    numSelected := 0;
    var numRunnable := 0;
    var i := 0;
    while i < |cases|
      invariant i <= |cases|
      invariant Counted(setting.shard, verdicts, i, 0, numRunnable, numSelected)
      invariant forall k {:trigger cases[k]} | 0 <= k < i :: RecordedCase(setting.shard, verdicts, k, cases[k])
    {
      assert forall j | 0 <= j < |cases[i].tests| :: cases[i].tests[j] in AllTests(cases);
      numRunnable, numSelected := FilterCase(setting, cases[i], verdicts, i, numRunnable, numSelected);
      forall k | 0 <= k < i ensures RecordedCase(setting.shard, verdicts, k, cases[k]) {
        assert cases[k] != cases[i] && Apart(cases[k].tests, cases[i].tests);
      }
      i := i + 1;
    }
  }

  /** The two counters before test `j` of case `i`. */
  ghost predicate Counted(shard: Shard, verdicts: Verdicts, i: nat, j: nat, numRunnable: nat, numSelected: nat)
    requires Usable(shard) && i <= |verdicts| && j <= if i < |verdicts| then |verdicts[i]| else 0
  {
    numRunnable == RunnableBefore(verdicts, i, j) && numSelected == Selected(shard, numRunnable)
  }

  /** One turn of the outer loop. */
  method FilterCase(setting: Setting, testCase: TestCase, ghost verdicts: Verdicts, ghost i: nat,
                    runnable: nat, selected: nat) returns (numRunnable: nat, numSelected: nat)
    requires Usable(setting.shard) && i < |verdicts| && FairCase(setting, testCase, verdicts[i])
    requires Distinct(testCase.tests) && Counted(setting.shard, verdicts, i, 0, runnable, selected)
    modifies testCase, testCase.tests
    ensures RecordedCase(setting.shard, verdicts, i, testCase)
    ensures Counted(setting.shard, verdicts, i + 1, 0, numRunnable, numSelected)
  {
    numRunnable, numSelected := runnable, selected;
    testCase.shouldRun := false;
    var j := 0;
    while j < |testCase.tests|
      invariant j <= |testCase.tests|
      invariant Counted(setting.shard, verdicts, i, j, numRunnable, numSelected)
      invariant forall k {:trigger verdicts[i][k]} | 0 <= k < j ::
        Recorded(setting.shard, verdicts, i, k, testCase.tests[k])
      invariant testCase.shouldRun == AnySelected(setting.shard, verdicts, i, j)
    {
      var verdict := JudgeTest(setting, testCase.name, testCase.tests[j].name);
      var isSelected := Record(testCase.tests[j], verdict, setting.shard, verdicts, i, j, numRunnable);
      numSelected := if isSelected then numSelected + 1 else numSelected;
      numRunnable := if verdict.runnable then numRunnable + 1 else numRunnable;
      testCase.shouldRun := testCase.shouldRun || isSelected;
      OneMoreSelected(setting.shard, verdicts, i, j);
      j := j + 1;
    }
  }

  /** A test that is not disabled is runnable if the filter selects it, a disabled one only on request. */
  method JudgeTest(setting: Setting, caseName: string, testName: string) returns (verdict: Verdict)
    ensures verdict == Judge(setting, caseName, testName)
    ensures verdict.disabled <==> IsDisabledName(caseName) || IsDisabledName(testName)
    ensures if verdict.disabled && !setting.alsoRunDisabled then !verdict.runnable
      else verdict.runnable <==> FlagSelects(setting.filter, caseName + "." + testName)
  {
    DisabledNames(caseName);
    DisabledNames(testName);
    var isDisabled := MatchesFilter(caseName, DISABLE_TEST_FILTER);
    if !isDisabled {
      isDisabled := MatchesFilter(testName, DISABLE_TEST_FILTER);
    }
    var matchesFilter := FilterMatchesTest(setting.filter, caseName, testName);
    verdict := Verdict(isDisabled, matchesFilter, (setting.alsoRunDisabled || !isDisabled) && matchesFilter);
  }

  method Record(test: TestInfo, verdict: Verdict, shard: Shard, ghost verdicts: Verdicts, ghost i: nat, ghost j: nat,
                id: nat) returns (isSelected: bool)
    requires Usable(shard) && i < |verdicts| && j < |verdicts[i]|
    requires verdict == verdicts[i][j] && id == RunnableBefore(verdicts, i, j)
    modifies test
    ensures Recorded(shard, verdicts, i, j, test) && (isSelected <==> IsSelected(shard, verdicts, i, j))
  {
    test.isDisabled := verdict.disabled;
    test.matchesFilter := verdict.matches;
    isSelected := verdict.runnable && (shard.Everything? || ShouldRunTestOnShard(shard.total, shard.index, id));
    test.shouldRun := isSelected;
  }

  // ---- Shards partition the runnable tests ----

  /** A runnable test is selected on exactly one shard, and any other test on none. */
  lemma {:induction false} ShardsPartition(verdicts: Verdicts, total: int, i: nat, j: nat)
    requires total > 0 && i < |verdicts| && j < |verdicts[i]|
    ensures verdicts[i][j].runnable <==> exists index | 0 <= index < total :: IsSelected(One(total, index), verdicts, i, j)
    ensures forall k, l | 0 <= k < total && 0 <= l < total
      && IsSelected(One(total, k), verdicts, i, j) && IsSelected(One(total, l), verdicts, i, j) :: k == l
  {
    if verdicts[i][j].runnable {
      assert IsSelected(One(total, RunnableBefore(verdicts, i, j) % total), verdicts, i, j);
    }
  }

  /** How many tests the shards below `k` select. */
  function SelectedBelow(total: int, n: nat, k: nat): nat
    requires total > 0
  {
    if k == 0 then 0 else SelectedBelow(total, n, k - 1) + Selected(One(total, k - 1), n)
  }

  /** Among `n` runnable tests a shard gets the quotient, and one more if its index is below the
      remainder. */
  lemma {:induction false} ShardSize(total: int, index: int, n: nat)
    requires 0 <= index < total
    ensures Selected(One(total, index), n) == n / total + if index < n % total then 1 else 0
    decreases n
  {
    if n > 0 {
      ShardSize(total, index, n - 1);
      NextQuotient(n - 1, total);
    }
  }

  lemma {:induction false} NextQuotient(n: nat, total: int)
    requires total > 0
    ensures if n % total == total - 1 then (n + 1) / total == n / total + 1 && (n + 1) % total == 0
      else (n + 1) / total == n / total && (n + 1) % total == n % total + 1
  {
    var q, r := n / total, n % total;
    assert n == q * total + r;
    if r == total - 1 {
      assert n + 1 == (q + 1) * total;
      QuotientUnique(n + 1, total, q + 1, 0);
    } else {
      QuotientUnique(n + 1, total, q, r + 1);
    }
  }

  lemma {:induction false} SharesAdd(total: int, n: nat, k: nat)
    requires 0 < total && k <= total
    ensures SelectedBelow(total, n, k) == k * (n / total) + if k < n % total then k else n % total
    decreases k
  {
    if k > 0 {
      SharesAdd(total, n, k - 1);
      ShardSize(total, k - 1, n);
      assert (k - 1) * (n / total) + n / total == k * (n / total);
    }
  }

  lemma {:induction false} SharesAddUp(total: int, n: nat)
    requires 0 < total
    ensures SelectedBelow(total, n, total) == n
  {
    SharesAdd(total, n, total);
  }

  /** The counts that the shards return add up to the number of runnable tests, and any two of them
      differ by at most one. */
  lemma {:induction false} ShardsAreEven(verdicts: Verdicts, total: int, j: int, k: int)
    requires 0 <= j < total && 0 <= k < total
    ensures var n := RunnableTests(verdicts);
      SelectedBelow(total, n, total) == n && Selected(One(total, j), n) <= Selected(One(total, k), n) + 1
  {
    var n := RunnableTests(verdicts);
    SharesAddUp(total, n);
    ShardSize(total, j, n);
    ShardSize(total, k, n);
  }
}
