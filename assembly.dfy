/** The pure part of `onEnd` (lib/reporter.js:129-276): the per-scenario
    merge of steps over the runner keys of one signature, the status and
    comment folds, the first-seen deduplication by test key, and the
    report object for one signature. */
module Assembly {
  import opened Data
  import opened JsText
  import opened Sequences
  import SuiteTree

  // ----- Grouping runner keys by signature (lines 135-145) -----

  /** The signature of every runner, in order. */
  function Signatures(runners: seq<Runner>): (sigs: seq<string>)
    ensures |sigs| == |runners|
    ensures forall i :: 0 <= i < |runners| ==> sigs[i] == runners[i].sanitizedCapabilities
  {
    if runners == [] then []
    else Signatures(runners[..|runners| - 1]) + [runners[|runners| - 1].sanitizedCapabilities]
  }

  /** The keys of the runners whose signature is `sig`, in order. */
  function KeysOf(runners: seq<Runner>, sig: string): seq<Cid>
  {
    if runners == [] then []
    else
      var last := runners[|runners| - 1];
      KeysOf(runners[..|runners| - 1], sig) + if last.sanitizedCapabilities == sig then [last.key] else []
  }

  // ----- Steps of one scenario over one signature's keys (lines 151-157) -----

  /** `keys.reduce((steps, env) => current.steps[env] ? steps.concat(current.steps[env]) : steps, acc)`. */
  function MergeFold(acc: seq<Step>, steps: map<Cid, seq<Step>>, keys: seq<Cid>): seq<Step>
    decreases keys
  {
    if keys == [] then acc
    else MergeFold(if keys[0] in steps then acc + steps[keys[0]] else acc, steps, keys[1..])
  }

  /** The steps recorded under each key, one key after the other. */
  function Concat(steps: map<Cid, seq<Step>>, keys: seq<Cid>): seq<Step>
  {
    if keys == [] then [] else StepsOf(steps, keys[0]) + Concat(steps, keys[1..])
  }

  lemma {:induction false} MergeFoldIsConcat(acc: seq<Step>, steps: map<Cid, seq<Step>>, keys: seq<Cid>)
    ensures MergeFold(acc, steps, keys) == acc + Concat(steps, keys)
    decreases keys
  {
    if keys != [] {
      var acc' := if keys[0] in steps then acc + steps[keys[0]] else acc;
      MergeFoldIsConcat(acc', steps, keys[1..]);
      assert acc' == acc + StepsOf(steps, keys[0]);
    }
  }

  predicate HasFail(s: seq<Step>)
  {
    exists i :: 0 <= i < |s| && s[i].status == FAIL
  }

  lemma {:induction false} HasFailAppend(a: seq<Step>, b: seq<Step>)
    ensures HasFail(a + b) <==> HasFail(a) || HasFail(b)
  {
    if HasFail(a + b) {
      var i :| 0 <= i < |a + b| && (a + b)[i].status == FAIL;
      if i >= |a| { assert b[i - |a|].status == FAIL; }
    }
    if HasFail(a) {
      var i :| 0 <= i < |a| && a[i].status == FAIL;
      assert (a + b)[i].status == FAIL;
    }
    if HasFail(b) {
      var i :| 0 <= i < |b| && b[i].status == FAIL;
      assert (a + b)[|a| + i].status == FAIL;
    }
  }

  /** The merged steps fail exactly when the steps of one of the keys do. */
  lemma {:induction false} ConcatHasFail(steps: map<Cid, seq<Step>>, keys: seq<Cid>)
    ensures HasFail(Concat(steps, keys)) <==>
      exists k :: 0 <= k < |keys| && HasFail(StepsOf(steps, keys[k]))
  {
    if keys != [] {
      ConcatHasFail(steps, keys[1..]);
      HasFailAppend(StepsOf(steps, keys[0]), Concat(steps, keys[1..]));
      if exists k :: 0 <= k < |keys| && HasFail(StepsOf(steps, keys[k])) {
        var k :| 0 <= k < |keys| && HasFail(StepsOf(steps, keys[k]));
        if k > 0 { assert keys[1..][k - 1] == keys[k]; }
      }
      if HasFail(Concat(steps, keys[1..])) {
        var k :| 0 <= k < |keys[1..]| && HasFail(StepsOf(steps, keys[1..][k]));
        assert keys[k + 1] == keys[1..][k];
      }
    }
  }

  // ----- Status of one scenario (lines 159-169) -----

  /** The status `reduce`: FAIL, once reached, stays. */
  function StatusFold(acc: Status, steps: seq<Step>): Status
    decreases steps
  {
    if steps == [] then acc
    else
      var acc' := if acc == FAIL then acc else if steps[0].status == FAIL then FAIL else acc;
      StatusFold(acc', steps[1..])
  }

  lemma {:induction false} StatusFoldFails(acc: Status, steps: seq<Step>)
    ensures StatusFold(acc, steps) == FAIL <==> acc == FAIL || HasFail(steps)
    decreases steps
  {
    if steps != [] {
      var acc' := if acc == FAIL then acc else if steps[0].status == FAIL then FAIL else acc;
      StatusFoldFails(acc', steps[1..]);
      HasFailAppend([steps[0]], steps[1..]);
      assert steps == [steps[0]] + steps[1..];
    }
  }

  // ----- Comment of one scenario (lines 176-183) -----

  /** The comment `reduce`: each FAIL step adds its comment and CR LF. */
  function CommentFold(acc: string, steps: seq<Step>): string
    decreases steps
  {
    if steps == [] then acc
    else
      var acc' := if steps[0].status == FAIL then acc + steps[0].comment + "\r\n" else acc;
      CommentFold(acc', steps[1..])
  }

  /** The comments of the FAIL steps in step order, each followed by CR LF. */
  function FailText(steps: seq<Step>): string
  {
    if steps == [] then ""
    else (if steps[0].status == FAIL then steps[0].comment + "\r\n" else "") + FailText(steps[1..])
  }

  lemma {:induction false} CommentFoldIsFailText(acc: string, steps: seq<Step>)
    ensures CommentFold(acc, steps) == acc + FailText(steps)
    decreases steps
  {
    if steps != [] {
      var acc' := if steps[0].status == FAIL then acc + steps[0].comment + "\r\n" else acc;
      CommentFoldIsFailText(acc', steps[1..]);
    }
  }

  /** The comment is empty exactly when no step failed. */
  lemma {:induction false} FailTextEmpty(steps: seq<Step>)
    ensures FailText(steps) == "" <==> !HasFail(steps)
  {
    if steps != [] {
      FailTextEmpty(steps[1..]);
      HasFailAppend([steps[0]], steps[1..]);
      assert steps == [steps[0]] + steps[1..];
      if steps[0].status == FAIL {
        assert |FailText(steps)| >= 2;
      }
    }
  }

  // ----- One scenario's result for one signature (lines 150-197) -----

  /** The test entry of the scenario `node` for the runner keys `keys`. */
  function ScenarioResult(node: Node, keys: seq<Cid>, start: string, finish: string): (r: TestResult)
    requires node.Scenario?
    ensures r.testKey == node.xrayId && r.start == start && r.finish == finish
    ensures r.steps == Concat(node.steps, keys)
    ensures r.status == FAIL <==> HasFail(r.steps)
    ensures r.status == FAIL <==> exists k :: 0 <= k < |keys| && HasFail(StepsOf(node.steps, keys[k]))
    ensures r.comment == FailText(r.steps)
    ensures r.comment == "" <==> r.status == PASS
    ensures r.examples == [r.status]
  {
    var steps := MergeFold([], node.steps, keys);
    var status := StatusFold(PASS, steps);
    var comment := CommentFold("", steps);
    MergeFoldIsConcat([], node.steps, keys);
    ConcatHasFail(node.steps, keys);
    StatusFoldFails(PASS, steps);
    CommentFoldIsFailText("", steps);
    FailTextEmpty(steps);
    TestResult(node.xrayId, start, finish, status, steps, [status], comment)
  }

  /** `scenarios.reduce((result, current) => result.concat(entry of current), [])`. */
  function ScenarioTests(t: Tree, scenarios: seq<Uid>, keys: seq<Cid>, start: string, finish: string)
    : (tests: seq<TestResult>)
    requires forall i :: 0 <= i < |scenarios| ==> scenarios[i] in t.nodes && t.nodes[scenarios[i]].Scenario?
    ensures |tests| == |scenarios|
    ensures forall i :: 0 <= i < |tests| ==> tests[i] == ScenarioResult(t.nodes[scenarios[i]], keys, start, finish)
  {
    if scenarios == [] then []
    else
      var n := |scenarios| - 1;
      ScenarioTests(t, scenarios[..n], keys, start, finish)
        + [ScenarioResult(t.nodes[scenarios[n]], keys, start, finish)]
  }

  /** The scenarios listed under `features`, feature by feature. */
  function Listed(t: Tree, features: seq<Uid>): (l: seq<Uid>)
    requires SuiteTree.Valid(t)
    requires forall i :: 0 <= i < |features| ==> features[i] in t.nodes && t.nodes[features[i]].Feature?
    ensures forall i :: 0 <= i < |l| ==> l[i] in t.nodes && t.nodes[l[i]].Scenario?
  {
    if features == [] then []
    else
      var n := |features| - 1;
      var s := t.nodes[features[n]].scenarios;
      assert forall i :: 0 <= i < |s| ==> s[i] in s;
      Listed(t, features[..n]) + s
  }

  /** `suites.reduce((allTests, suite) => allTests.concat(entries of suite), [])`:
      one entry per listed scenario, in listing order. */
  function CollectTests(t: Tree, features: seq<Uid>, keys: seq<Cid>, start: string, finish: string)
    : (tests: seq<TestResult>)
    requires SuiteTree.Valid(t)
    requires forall i :: 0 <= i < |features| ==> features[i] in t.nodes && t.nodes[features[i]].Feature?
    ensures var l := Listed(t, features);
      && |tests| == |l|
      && forall i :: 0 <= i < |tests| ==> tests[i] == ScenarioResult(t.nodes[l[i]], keys, start, finish)
  {
    if features == [] then []
    else
      var n := |features| - 1;
      var s := t.nodes[features[n]].scenarios;
      assert forall i :: 0 <= i < |s| ==> s[i] in s;
      CollectTests(t, features[..n], keys, start, finish) + ScenarioTests(t, s, keys, start, finish)
  }

  /** Before deduplication every entry holds its own status as its only
      example, and a comment exactly when it failed. */
  lemma {:induction false} CollectedEntries(t: Tree, features: seq<Uid>, keys: seq<Cid>, start: string, finish: string)
    requires SuiteTree.Valid(t)
    requires forall i :: 0 <= i < |features| ==> features[i] in t.nodes && t.nodes[features[i]].Feature?
    ensures var tests := CollectTests(t, features, keys, start, finish);
      forall k :: 0 <= k < |tests| ==>
        tests[k].examples == [tests[k].status] && (tests[k].comment == "" <==> tests[k].status == PASS)
  {
    var tests := CollectTests(t, features, keys, start, finish);
    var l := Listed(t, features);
    forall k | 0 <= k < |tests|
      ensures tests[k].examples == [tests[k].status] && (tests[k].comment == "" <==> tests[k].status == PASS)
    {
      var r := ScenarioResult(t.nodes[l[k]], keys, start, finish);
      assert tests[k] == r;
    }
  }

  // ----- Deduplication by test key (lines 203-223) -----

  function TestKeys(tests: seq<TestResult>): (ks: seq<string>)
    ensures |ks| == |tests|
    ensures forall i :: 0 <= i < |tests| ==> ks[i] == tests[i].testKey
  {
    if tests == [] then [] else TestKeys(tests[..|tests| - 1]) + [tests[|tests| - 1].testKey]
  }

  /** The entries with test key `k`, in order. */
  function Occurrences(tests: seq<TestResult>, k: string): (occ: seq<TestResult>)
    ensures forall i :: 0 <= i < |occ| ==> occ[i].testKey == k
    ensures |occ| > 0 <==> k in TestKeys(tests)
  {
    if tests == [] then []
    else
      var n := |tests| - 1;
      assert TestKeys(tests) == TestKeys(tests[..n]) + [tests[n].testKey];
      Occurrences(tests[..n], k) + if tests[n].testKey == k then [tests[n]] else []
  }

  function Statuses(tests: seq<TestResult>): (ss: seq<Status>)
    ensures |ss| == |tests|
    ensures forall i :: 0 <= i < |tests| ==> ss[i] == tests[i].status
  {
    if tests == [] then [] else Statuses(tests[..|tests| - 1]) + [tests[|tests| - 1].status]
  }

  /** What the later entries add to the canonical comment: CR LF and the
      comment of each one whose comment is not empty. */
  function LaterComments(tests: seq<TestResult>): string
  {
    if tests == [] then ""
    else
      var c := tests[|tests| - 1].comment;
      LaterComments(tests[..|tests| - 1]) + if |c| > 0 then "\r\n" + c else ""
  }

  /** Lines 209-216: a later entry with the same key merged into the canonical one. */
  function Absorb(canon: TestResult, test: TestResult): (r: TestResult)
    ensures r.testKey == canon.testKey
  {
    var canon := canon.(examples := canon.examples + [test.status]);
    if |test.comment| > 0 then canon.(comment := canon.comment + "\r\n" + test.comment) else canon
  }

  /** The canonical entry once all of `occ` is merged into `occ[0]`. */
  function Canonical(occ: seq<TestResult>): (c: TestResult)
    requires |occ| > 0
    ensures c.testKey == occ[0].testKey && c.start == occ[0].start && c.finish == occ[0].finish
    ensures c.status == occ[0].status && c.steps == occ[0].steps
    ensures c.examples == occ[0].examples + Statuses(occ[1..])
    ensures c.comment == occ[0].comment + LaterComments(occ[1..])
  {
    if |occ| == 1 then occ[0]
    else
      var n := |occ| - 1;
      assert occ[1..] == occ[..n][1..] + [occ[n]];
      assert (occ[..n][1..] + [occ[n]])[..n - 1] == occ[..n][1..];
      Absorb(Canonical(occ[..n]), occ[n])
  }

  lemma {:induction false} TestKeysSnoc(tests: seq<TestResult>, x: TestResult)
    ensures TestKeys(tests + [x]) == TestKeys(tests) + [x.testKey]
    ensures forall k :: Occurrences(tests + [x], k) == Occurrences(tests, k) + if x.testKey == k then [x] else []
  {
    assert (tests + [x])[..|tests|] == tests;
  }

  /** Replacing an entry by one with the same key keeps the keys. */
  lemma {:induction false} TestKeysUpdate(tests: seq<TestResult>, j: nat, x: TestResult)
    requires j < |tests| && x.testKey == tests[j].testKey
    ensures TestKeys(tests[j := x]) == TestKeys(tests)
  {
  }

  /** One entry merged into the deduplicated list (lines 204-222): a key
      seen before is absorbed into the entry that key already has, a new
      one is appended as it is. */
  function Merge(d: seq<TestResult>, x: TestResult): (d': seq<TestResult>)
    ensures TestKeys(d') == if x.testKey in TestKeys(d) then TestKeys(d) else TestKeys(d) + [x.testKey]
  {
    if x.testKey in TestKeys(d) then
      var j := FirstIndex(TestKeys(d), x.testKey);
      TestKeysUpdate(d, j, Absorb(d[j], x));
      d[j := Absorb(d[j], x)]
    else
      TestKeysSnoc(d, x);
      d + [x]
  }

  /** The deduplication as a fold of `Merge` over the entries. */
  function Deduped(tests: seq<TestResult>): (out: seq<TestResult>)
    ensures TestKeys(out) == Distinct(TestKeys(tests))
  {
    if tests == [] then []
    else
      var n := |tests| - 1;
      assert tests == tests[..n] + [tests[n]];
      TestKeysSnoc(tests[..n], tests[n]);
      DistinctSnoc(TestKeys(tests[..n]), tests[n].testKey);
      Merge(Deduped(tests[..n]), tests[n])
  }

  /** Merging one more entry into a canonical entry is absorbing it. */
  lemma {:induction false} CanonicalSnoc(occ: seq<TestResult>, x: TestResult)
    requires |occ| > 0
    ensures Canonical(occ + [x]) == Absorb(Canonical(occ), x)
  {
    assert (occ + [x])[..|occ|] == occ;
  }

  /** Entry `j` after a merge: the entry `x` was absorbed into, an
      untouched one, or `x` itself appended after the others. */
  lemma {:induction false} MergeAt(d: seq<TestResult>, x: TestResult, j: nat)
    requires NoDuplicates(TestKeys(d)) && j < |Merge(d, x)|
    ensures j <= |d|
    ensures j < |d| ==> Merge(d, x)[j] == if d[j].testKey == x.testKey then Absorb(d[j], x) else d[j]
    ensures j == |d| ==> Merge(d, x)[j] == x && x.testKey !in TestKeys(d)
  {
    if x.testKey in TestKeys(d) {
      var j0 := FirstIndex(TestKeys(d), x.testKey);
      if j != j0 {
        assert TestKeys(d)[j] != TestKeys(d)[j0];
      }
    }
  }

  /** Entry `j` of the deduplicated list is the canonical merge of every
      entry with its key. */
  lemma {:induction false} DedupedCanonicalAt(tests: seq<TestResult>, j: nat)
    requires j < |Deduped(tests)|
    ensures |Occurrences(tests, Deduped(tests)[j].testKey)| > 0
    ensures Deduped(tests)[j] == Canonical(Occurrences(tests, Deduped(tests)[j].testKey))
  {
    var n := |tests| - 1;
    var p, x := tests[..n], tests[n];
    var d := Deduped(p);
    assert Deduped(tests) == Merge(d, x);
    MergeAt(d, x, j);
    var k := Deduped(tests)[j].testKey;
    assert Occurrences(tests, k) == Occurrences(p, k) + if x.testKey == k then [x] else [];
    if j < |d| {
      assert k == d[j].testKey;
      DedupedCanonicalAt(p, j);
      var occ := Occurrences(p, k);
      if k == x.testKey {
        assert Occurrences(tests, k) == occ + [x];
        assert Deduped(tests)[j] == Absorb(Canonical(occ), x);
        CanonicalSnoc(occ, x);
      } else {
        assert Occurrences(tests, k) == occ;
        assert Deduped(tests)[j] == Canonical(occ);
      }
    } else {
      DistinctMembers(TestKeys(p), x.testKey);
      assert Occurrences(p, k) == [];
    }
  }

  /** `index` maps each key of `ks` to its position there, and nothing else. */
  ghost predicate Indexes(index: map<string, nat>, ks: seq<string>)
  {
    && (forall k :: k in index <==> k in ks)
    && (forall k :: k in index ==> index[k] < |ks| && ks[index[k]] == k)
  }

  lemma {:induction false} IndexesSnoc(index: map<string, nat>, ks: seq<string>, k: string)
    requires Indexes(index, ks) && k !in index
    ensures Indexes(index[k := |ks|], ks + [k])
  {
  }

  /** The `forEach` callback (lines 204-222), with `index` playing
      `dedupedTestIds`: the position of the entry each key seen so far has. */
  method MergeTest(out: seq<TestResult>, index: map<string, nat>, test: TestResult)
    returns (out': seq<TestResult>, index': map<string, nat>)
    requires NoDuplicates(TestKeys(out)) && Indexes(index, TestKeys(out))
    ensures out' == Merge(out, test) && Indexes(index', TestKeys(out'))
  {
    if test.testKey in index {
      var j := index[test.testKey];
      FirstIndexUnique(TestKeys(out), j);
      var existing := out[j];
      existing := existing.(examples := existing.examples + [test.status]);
      if |test.comment| > 0 {
        existing := existing.(comment := existing.comment + "\r\n" + test.comment);
      }
      assert existing == Absorb(out[j], test);
      out', index' := out[j := existing], index;
    } else {
      IndexesSnoc(index, TestKeys(out), test.testKey);
      out', index' := out + [test], index[test.testKey := |out|];
    }
  }

  /** The deduplication `forEach` over all entries. */
  method DedupTests(tests: seq<TestResult>) returns (out: seq<TestResult>)
    ensures out == Deduped(tests)
  {
    var index: map<string, nat> := map[];
    out := [];
    var i := 0;
    while i < |tests|
      invariant 0 <= i <= |tests|
      invariant out == Deduped(tests[..i])
      invariant Indexes(index, TestKeys(out))
    {
      TakeSnoc(tests, i);
      assert tests[..i + 1][..i] == tests[..i];
      out, index := MergeTest(out, index, tests[i]);
      i := i + 1;
    }
    assert tests[..i] == tests;
  }

  /** Every occurrence is one of the entries. */
  lemma {:induction false} OccurrencesIn(tests: seq<TestResult>, k: string)
    ensures forall i :: 0 <= i < |Occurrences(tests, k)| ==> Occurrences(tests, k)[i] in tests
  {
    if tests != [] {
      var n := |tests| - 1;
      OccurrencesIn(tests[..n], k);
      assert forall x :: x in tests[..n] ==> x in tests;
    }
  }

  /** The first occurrence of a key is the first entry with that key. */
  lemma {:induction false} OccurrencesFirst(tests: seq<TestResult>, k: string)
    requires k in TestKeys(tests)
    ensures Occurrences(tests, k)[0] == tests[FirstIndex(TestKeys(tests), k)]
  {
    var n := |tests| - 1;
    var p, x := tests[..n], tests[n];
    assert tests == p + [x];
    TestKeysSnoc(p, x);
    if k in TestKeys(p) {
      OccurrencesFirst(p, k);
      FirstIndexSnoc(TestKeys(p), x.testKey, k);
    } else {
      assert Occurrences(p, k) == [];
      assert FirstIndex(TestKeys(tests), k) == n;
    }
  }

  /** The status of each occurrence, through its first element. */
  lemma {:induction false} StatusesCons(occ: seq<TestResult>)
    requires |occ| > 0
    ensures Statuses(occ) == [occ[0].status] + Statuses(occ[1..])
  {
    assert forall i :: 1 <= i < |occ| ==> occ[1..][i - 1] == occ[i];
  }

  /** The entry a key ends up with: the first entry with that key, its
      `status` and `steps` untouched, `examples` holding the status of
      every occurrence in order, and each later non-empty comment appended
      after CR LF. */
  lemma {:induction false} DedupedEntry(tests: seq<TestResult>, j: nat)
    requires forall i :: 0 <= i < |tests| ==> tests[i].examples == [tests[i].status]
    requires j < |Deduped(tests)|
    ensures var e := Deduped(tests)[j];
      var occ := Occurrences(tests, e.testKey);
      && |occ| > 0 && e.testKey in TestKeys(tests)
      && occ[0] == tests[FirstIndex(TestKeys(tests), e.testKey)]
      && e.start == occ[0].start && e.finish == occ[0].finish
      && e.status == occ[0].status && e.steps == occ[0].steps
      && e.examples == Statuses(occ) && |e.examples| == |occ|
      && e.comment == occ[0].comment + LaterComments(occ[1..])
  {
    var e := Deduped(tests)[j];
    DedupedCanonicalAt(tests, j);
    var occ := Occurrences(tests, e.testKey);
    OccurrencesFirst(tests, e.testKey);
    OccurrencesIn(tests, e.testKey);
    assert occ[0] in tests;
    StatusesCons(occ);
  }

  /** The later comments add nothing exactly when they are all empty. */
  lemma {:induction false} LaterCommentsEmpty(tests: seq<TestResult>)
    ensures LaterComments(tests) == "" <==> forall i :: 0 <= i < |tests| ==> tests[i].comment == ""
  {
    if tests != [] {
      var n := |tests| - 1;
      LaterCommentsEmpty(tests[..n]);
      if |tests[n].comment| > 0 {
        assert |LaterComments(tests)| > 0;
      }
    }
  }

  /** For entries built by ScenarioResult, a merged entry has a comment
      exactly when one of the runs it merges failed. */
  lemma {:induction false} DedupedCommentIffFail(tests: seq<TestResult>, j: nat)
    requires forall i :: 0 <= i < |tests| ==>
      tests[i].examples == [tests[i].status] && (tests[i].comment == "" <==> tests[i].status == PASS)
    requires j < |Deduped(tests)|
    ensures Deduped(tests)[j].comment == "" <==> FAIL !in Deduped(tests)[j].examples
  {
    var e := Deduped(tests)[j];
    DedupedEntry(tests, j);
    var occ := Occurrences(tests, e.testKey);
    OccurrencesIn(tests, e.testKey);
    assert forall i :: 0 <= i < |occ| ==> (occ[i].comment == "" <==> occ[i].status == PASS);
    MergedCommentIffFail(occ);
  }

  /** The merged comment of entries that each have a comment exactly when
      they failed is empty exactly when none of them failed. */
  lemma {:induction false} MergedCommentIffFail(occ: seq<TestResult>)
    requires |occ| > 0
    requires forall i :: 0 <= i < |occ| ==> (occ[i].comment == "" <==> occ[i].status == PASS)
    ensures occ[0].comment + LaterComments(occ[1..]) == "" <==> FAIL !in Statuses(occ)
  {
    LaterCommentsEmpty(occ[1..]);
    assert forall i :: 1 <= i < |occ| ==> occ[1..][i - 1] == occ[i];
    assert FAIL !in Statuses(occ) <==> forall i :: 0 <= i < |occ| ==> occ[i].status == PASS;
  }

  // ----- The grouping loop (lines 135-145) -----

  lemma {:induction false} KeysOfSnoc(runners: seq<Runner>, r: Runner)
    ensures Signatures(runners + [r]) == Signatures(runners) + [r.sanitizedCapabilities]
    ensures forall s :: KeysOf(runners + [r], s) == KeysOf(runners, s) + if r.sanitizedCapabilities == s then [r.key] else []
  {
    assert (runners + [r])[..|runners|] == runners;
  }

  /** A signature no runner has collects no keys. */
  lemma {:induction false} KeysOfAbsent(runners: seq<Runner>, sig: string)
    requires sig !in Signatures(runners)
    ensures KeysOf(runners, sig) == []
  {
    if runners != [] {
      var p := runners[..|runners| - 1];
      assert Signatures(runners) == Signatures(p) + [runners[|runners| - 1].sanitizedCapabilities];
      KeysOfAbsent(p, sig);
    }
  }

  /** One turn of the grouping `forEach` keeps `order` and `buckets` in
      step with the runners seen so far. */
  lemma {:induction false} GroupStep(prefix: seq<Runner>, r: Runner, order: seq<string>, buckets: map<string, seq<Cid>>)
    requires order == Distinct(Signatures(prefix))
    requires forall s :: s in buckets <==> s in order
    requires forall s :: s in buckets ==> buckets[s] == KeysOf(prefix, s)
    ensures var b := r.sanitizedCapabilities;
      var order' := if b in buckets then order else order + [b];
      var buckets' := buckets[b := (if b in buckets then buckets[b] else []) + [r.key]];
      && order' == Distinct(Signatures(prefix + [r]))
      && (forall s :: s in buckets' <==> s in order')
      && (forall s :: s in buckets' ==> buckets'[s] == KeysOf(prefix + [r], s))
  {
    var b := r.sanitizedCapabilities;
    KeysOfSnoc(prefix, r);
    DistinctSnoc(Signatures(prefix), b);
    if b !in buckets {
      DistinctMembers(Signatures(prefix), b);
      KeysOfAbsent(prefix, b);
    }
  }

  /** `browserToEnvMap` after the grouping `forEach` over `runners`, with
      its keys in insertion order: a signature seen for the first time
      gets a new list, and every runner's key is pushed onto the list of
      its signature (see GroupingSpec). */
  function Grouping(runners: seq<Runner>): (seq<string>, map<string, seq<Cid>>)
  {
    if runners == [] then ([], map[])
    else
      var g := Grouping(runners[..|runners| - 1]);
      var r := runners[|runners| - 1];
      var b := r.sanitizedCapabilities;
      (if b in g.1 then g.0 else g.0 + [b], g.1[b := (if b in g.1 then g.1[b] else []) + [r.key]])
  }

  /** The signatures in first-seen order, each with the keys of its
      runners in runner order. */
  lemma {:induction false} GroupingSpec(runners: seq<Runner>)
    ensures Grouping(runners).0 == Distinct(Signatures(runners))
    ensures forall s :: s in Grouping(runners).1 <==> s in Grouping(runners).0
    ensures forall s :: s in Grouping(runners).1 ==> Grouping(runners).1[s] == KeysOf(runners, s)
  {
    if runners != [] {
      var p, r := runners[..|runners| - 1], runners[|runners| - 1];
      assert runners == p + [r];
      GroupingSpec(p);
      GroupStep(p, r, Grouping(p).0, Grouping(p).1);
    }
  }

  /** The grouping `forEach` (lines 135-145). */
  method GroupRunners(runners: seq<Runner>) returns (order: seq<string>, buckets: map<string, seq<Cid>>)
    ensures (order, buckets) == Grouping(runners)
    ensures order == Distinct(Signatures(runners))
    ensures forall s :: s in buckets <==> s in order
    ensures forall s :: s in buckets ==> buckets[s] == KeysOf(runners, s)
  {
    order, buckets := [], map[];
    var i := 0;
    while i < |runners|
      invariant 0 <= i <= |runners|
      invariant (order, buckets) == Grouping(runners[..i])
    {
      var key, browser := runners[i].key, runners[i].sanitizedCapabilities;
      assert runners[..i + 1][..i] == runners[..i];
      var envs := if browser in buckets then buckets[browser] else [];
      if browser !in buckets {
        order := order + [browser];
      }
      buckets := buckets[browser := envs + [key]];
      i := i + 1;
    }
    assert runners[..i] == runners;
    GroupingSpec(runners);
  }

  // ----- The report of one signature (lines 225-275) -----

  /** `info.testEnvironments`: the signature, then the additional
      environment data, spread when it is an array and pushed when it is a
      truthy single value. */
  function Environments(browser: string, extra: EnvData): (envs: seq<string>)
    ensures |envs| >= 1 && envs[0] == browser
    ensures extra.EnvList? ==> envs[1..] == extra.values
    ensures extra.EnvScalar? && extra.value != "" ==> envs[1..] == [extra.value]
    ensures extra.NoEnvData? || extra == EnvScalar("") ==> envs == [browser]
  {
    var envs := [browser];
    match extra
    case NoEnvData => envs
    case EnvScalar(v) => if v != "" then envs + [v] else envs
    case EnvList(vs) => envs + vs
  }

  /** `info.summary`: it names the first truthy one of the test key, the
      test set key, the test plan key and the test execution key (or the
      test `undefined` when none is), then the environments. */
  function Summary(opts: Options, envs: seq<string>): (s: string)
    ensures var tail := " in environment " + Join(envs, ", ");
      && (opts.testKey != "" ==> s == "Execution of test " + opts.testKey + tail)
      && (opts.testKey == "" && opts.testSetKey != "" ==>
            s == "Execution of test set " + opts.testSetKey + tail)
      && (opts.testKey == "" && opts.testSetKey == "" && opts.testPlanKey != "" ==>
            s == "Execution of test plan " + opts.testPlanKey + tail)
      && (opts.testKey == "" && opts.testSetKey == "" && opts.testPlanKey == "" && opts.testExecutionKey != "" ==>
            s == "Execution of test execution " + opts.testExecutionKey + tail)
      && (opts.testKey == "" && opts.testSetKey == "" && opts.testPlanKey == "" && opts.testExecutionKey == "" ==>
            s == "Execution of test undefined" + tail)
  {
    var tail := " in environment " + Join(envs, ", ");
    if opts.testKey != "" then "Execution of test " + opts.testKey + tail
    else if opts.testSetKey != "" then "Execution of test set " + opts.testSetKey + tail
    else if opts.testPlanKey != "" then "Execution of test plan " + opts.testPlanKey + tail
    else if opts.testExecutionKey != "" then "Execution of test execution " + opts.testExecutionKey + tail
    else "Execution of test undefined" + tail
  }

  /** A truthy option, or nothing. */
  function IfSet(v: string): (o: Option<string>)
    ensures o.Some? <==> v != ""
    ensures o.Some? ==> o.value == v
  {
    if v != "" then Some(v) else None
  }

  /** Lines 225-273: the report object of one signature. */
  function MakeReport(browser: string, tests: seq<TestResult>, start: string, finish: string, opts: Options)
    : (r: Report)
    ensures r.tests == tests && r.info.startDate == start && r.info.finishDate == finish
    ensures r.info.testEnvironments == Environments(browser, opts.additionalEnvironmentData)
    ensures r.info.summary == Summary(opts, r.info.testEnvironments)
    // the plan key is recorded only when the plan is what the summary names
    ensures r.info.testPlanKey.Some? <==> opts.testKey == "" && opts.testSetKey == "" && opts.testPlanKey != ""
    ensures r.info.testPlanKey.Some? ==> r.info.testPlanKey.value == opts.testPlanKey
    // the optional fields are present exactly when their option is truthy
    ensures r.testExecutionKey == IfSet(opts.testExecutionKey)
    ensures r.info.revision == IfSet(opts.revision) && r.info.version == IfSet(opts.version)
    ensures r.info.user == IfSet(opts.user) && r.info.project == IfSet(opts.project)
  {
    var envs := Environments(browser, opts.additionalEnvironmentData);
    var planKey := if opts.testKey == "" && opts.testSetKey == "" && opts.testPlanKey != "" then Some(opts.testPlanKey) else None;
    var info := Info(start, finish, envs, Summary(opts, envs), planKey,
                     IfSet(opts.revision), IfSet(opts.version), IfSet(opts.user), IfSet(opts.project));
    Report(info, tests, IfSet(opts.testExecutionKey))
  }

  /** The report of one signature whose runner keys are `keys`. */
  function BrowserReport(t: Tree, browser: string, keys: seq<Cid>, start: string, finish: string, opts: Options)
    : Report
    requires SuiteTree.Valid(t)
  {
    MakeReport(browser, Deduped(CollectTests(t, t.suites, keys, start, finish)), start, finish, opts)
  }

  /** `results` of `onEnd`: one report per signature, in first-seen order
      (see ReportShape). */
  function Reports(t: Tree, runners: seq<Runner>, start: string, finish: string, opts: Options)
    : (rs: seq<Report>)
    requires SuiteTree.Valid(t)
    ensures |rs| == |Distinct(Signatures(runners))|
  {
    var sigs := Distinct(Signatures(runners));
    seq(|sigs|, i requires 0 <= i < |sigs| =>
      BrowserReport(t, sigs[i], KeysOf(runners, sigs[i]), start, finish, opts))
  }

  /** The report of one signature (lines 147-273): collect the entries of
      its runners, deduplicate them, and wrap them with the run's data. */
  method BuildReport(t: Tree, browser: string, keys: seq<Cid>, start: string, finish: string, opts: Options)
    returns (result: Report)
    requires SuiteTree.Valid(t)
    ensures result == BrowserReport(t, browser, keys, start, finish, opts)
  {
    var tests := CollectTests(t, t.suites, keys, start, finish);
    var dedupedTests := DedupTests(tests);
    result := MakeReport(browser, dedupedTests, start, finish, opts);
  }

  /** The body of `onEnd` up to `write`: group the runner keys, then build
      the report of each signature in turn. */
  method BuildReports(t: Tree, runners: seq<Runner>, start: string, finish: string, opts: Options)
    returns (results: seq<Report>)
    requires SuiteTree.Valid(t)
    ensures results == Reports(t, runners, start, finish, opts)
  {
    var order, buckets := GroupRunners(runners);
    ghost var rs := Reports(t, runners, start, finish, opts);
    results := [];
    var i := 0;
    while i < |order|
      invariant 0 <= i <= |order| == |rs|
      invariant results == rs[..i]
    {
      var browser := order[i];
      assert browser in buckets && buckets[browser] == KeysOf(runners, browser);
      var result := BuildReport(t, browser, buckets[browser], start, finish, opts);
      ReportsAt(t, runners, start, finish, opts, i);
      TakeSnoc(rs, i);
      results := results + [result];
      i := i + 1;
    }
    assert rs[..i] == rs;
  }

  /** Report `i` is the report of the `i`th signature. */
  lemma {:induction false} ReportsAt(t: Tree, runners: seq<Runner>, start: string, finish: string, opts: Options, i: nat)
    requires SuiteTree.Valid(t) && i < |Distinct(Signatures(runners))|
    ensures var sig := Distinct(Signatures(runners))[i];
      Reports(t, runners, start, finish, opts)[i] == BrowserReport(t, sig, KeysOf(runners, sig), start, finish, opts)
  {
  }

  /** Report `i` names the `i`th signature first among its environments
      and holds one entry per test key of the scenarios its runners ran. */
  lemma {:induction false} ReportShape(t: Tree, runners: seq<Runner>, start: string, finish: string, opts: Options, i: nat)
    requires SuiteTree.Valid(t) && i < |Reports(t, runners, start, finish, opts)|
    ensures var sig := Distinct(Signatures(runners))[i];
      var r := Reports(t, runners, start, finish, opts)[i];
      && |r.info.testEnvironments| >= 1 && r.info.testEnvironments[0] == sig
      && r.tests == Deduped(CollectTests(t, t.suites, KeysOf(runners, sig), start, finish))
      && TestKeys(r.tests) == Distinct(TestKeys(CollectTests(t, t.suites, KeysOf(runners, sig), start, finish)))
      && NoDuplicates(TestKeys(r.tests))
  {
    ReportsAt(t, runners, start, finish, opts, i);
  }

  /** Entry `j` of report `i`: its examples are the statuses of all the
      listed scenarios with its key, its status and steps those of the first
      of them, and it has a comment exactly when one of them failed. */
  lemma {:induction false} ReportEntry(t: Tree, runners: seq<Runner>, start: string, finish: string, opts: Options, i: nat, j: nat)
    requires SuiteTree.Valid(t)
    requires i < |Reports(t, runners, start, finish, opts)|
    requires j < |Reports(t, runners, start, finish, opts)[i].tests|
    ensures var sig := Distinct(Signatures(runners))[i];
      var tests := CollectTests(t, t.suites, KeysOf(runners, sig), start, finish);
      var e := Reports(t, runners, start, finish, opts)[i].tests[j];
      var occ := Occurrences(tests, e.testKey);
      && |occ| > 0
      && e.examples == Statuses(occ) && |e.examples| == |occ|
      && e.status == occ[0].status && e.steps == occ[0].steps
      && (e.comment == "" <==> FAIL !in e.examples)
  {
    var sig := Distinct(Signatures(runners))[i];
    var tests := CollectTests(t, t.suites, KeysOf(runners, sig), start, finish);
    ReportShape(t, runners, start, finish, opts, i);
    CollectedEntries(t, t.suites, KeysOf(runners, sig), start, finish);
    DedupedEntry(tests, j);
    DedupedCommentIffFail(tests, j);
  }
}
