# JsonReporter, modelled in Dafny

`JsonReporter` (lib/reporter.js) is a WebdriverIO reporter for Xray. It listens to the runner's
events and builds a tree of features and scenarios, keyed by the runner's suite uids. Each
scenario keeps the PASS/FAIL steps it recorded in each parallel execution context, one list per
runner key (`cid`). At the end of the run it writes one Xray import document per browser
signature (`sanitizedCapabilities`). Each document holds one entry per test key. A scenario's
entry merges the steps every runner of that signature recorded. Scenarios generated from one
examples table share a test key, and they are merged into a single entry that keeps every
outcome in `examples`.

The project has these modules:

- `Data` holds the values: events, nodes, the tree, test entries, options and reports.
- `JsText` holds the JavaScript string built-ins for the arguments the reporter passes them:
  `search`, `lastIndexOf`, `indexOf`, `replace` with a string pattern, `substr`, `join`. They
  index characters, not UTF-16 code units (see "## Left out").
- `Sequences` holds first-seen deduplication (`Distinct`), the order behind both
  `browserToEnvMap` and `dedupedTests`.
- `IdResolver` finds the Xray test key of a `suite:start` event (lines 42-52).
- `SuiteTree` holds the three handlers as functions from the old tree to the new tree, or to a
  fault.
- `Assembly` is `onEnd` up to `write`. It has:
  - functions for the `reduce` expressions;
  - a fold specifying the `forEach` loops;
  - methods with loops for the two `forEach` loops (grouping and deduplication);
  - the report object.
- `Reporter` is the class `JsonReporter`. It keeps the fields `suitesUIDMap` and `suites`, which
  its handler methods update in place. Each method is proved to leave exactly the state that
  the matching `SuiteTree` function gives. `OnEnd` is proved to return `Assembly.Reports`.

Modelling decisions:

- Objects shared between `suitesUIDMap`, `suites` and a feature's `scenarios` are modelled by
  uid. Each uid names exactly one node object, which is created once and never replaced, so the
  uid stands for the object.
- A feature whose test key is already listed is still put in the map, but without a scenario
  list. It is modelled as the node `Unlisted`.
- A `TypeError` the handlers would throw is a `Failed(fault)` result. Each one is raised before
  anything changes, so after a fault the state is the old state. These are:
  - an unknown parent, or a parent without `steps`, for a step event (lines 84-85, 101, 114);
  - a parent without `scenarios` for a scenario (line 74);
  - a failing test without `err` (line 105). The lookup of the parent at line 101 cannot
    fail, so this fault comes before the `suite.steps` access at line 114.
- String options, `err.message` and `err.stack` are strings, and "" stands for an absent
  (falsy) value.
- `projectId` (from package.json) and `path.sep` are parameters of the reporter.
- `stats.runners` is an ordered sequence of (key, signature) pairs.
- The formatted start and end dates are opaque strings.

Lines 61-78 register in `suitesUIDMap` both a second feature with an already-listed test key
and a scenario with an unknown parent. The second feature becomes `Unlisted`, so a scenario
below it faults at line 74. The scenario with an unknown parent is in no feature's list, but
it can still record steps.

## Model

| member | source | states |
|---|---|---|
| JsText.Search | lib/reporter.js:46 | `search('-')` is the index of the first '-', or -1 exactly when there is none |
| JsText.LastIndexOf | lib/reporter.js:51 | `lastIndexOf(sep)` is the index of the last separator, or -1 exactly when there is none |
| JsText.IndexFrom | lib/reporter.js:51 | the first index at or after `from` where the pattern occurs, or -1 exactly when it occurs nowhere after `from` |
| JsText.RemoveFirst | lib/reporter.js:51 | `replace('.feature', '')` removes the first occurrence only, and leaves a string without one unchanged |
| IdResolver.ProjectPrefix | lib/reporter.js:46 | `substr(1, search('-') - 1)` is the text between index 1 and the first '-', and it is empty when there is no '-' or the name starts with one |
| IdResolver.Qualifies | lib/reporter.js:47 | the boolean passed as a length to `substr` makes a tag qualify exactly when it is not on line 1, its name has at least 2 characters and its prefix is `projectId` |
| IdResolver.TagsFoldKeepsFound | lib/reporter.js:45-49 | once the `reduce` has found a truthy key, the remaining tags do not change it |
| IdResolver.TagsFoldPicksFirst | lib/reporter.js:45-49 | the `reduce` yields the first qualifying tag's name minus its first character, or null exactly when no tag qualifies |
| IdResolver.BaseName | lib/reporter.js:51 | the slice after the last separator is a suffix of the path that holds no separator and follows a separator, or is the whole path |
| IdResolver.ResolveIdSpec | lib/reporter.js:42-52 | with tags and a parent, the key is the first qualifying tag's name minus its first character, or null; otherwise it is the file's key |
| SuiteTree.Empty | lib/reporter.js:27-28 | a fresh reporter has an empty map and an empty feature list, which is a valid tree |
| SuiteTree.FeatureIds | lib/reporter.js:63 | `suites.map(s => s.xrayId)`, position by position |
| SuiteTree.AddFeature | lib/reporter.js:61-67 | a new feature is listed with no scenarios unless a listed feature already has its key, and then it is only put in the map; the listed keys stay pairwise distinct |
| SuiteTree.ListedKeepsValid | lib/reporter.js:61-67 | listing a new feature under a key no listed feature has keeps every invariant of the tree, the distinct listed keys among them |
| SuiteTree.AddScenario | lib/reporter.js:69-78 | a new scenario gets an empty step map and is appended to its parent feature's list; an unknown parent leaves the lists alone; a parent without a list is a fault that changes nothing |
| SuiteTree.SuiteStart | lib/reporter.js:54-80 | no key, or a uid seen before, changes nothing; otherwise a top-level suite is added as a feature and any other suite as a scenario; the tree stays valid |
| SuiteTree.RecordStep | lib/reporter.js:114-126 | one step is appended to `steps[cid]` of the parent scenario, creating the list on first use, and nothing else changes; an unknown parent or a parent without steps is a fault |
| SuiteTree.AppendedKeepsValid | lib/reporter.js:114-126 | appending a step keeps every invariant of the tree |
| SuiteTree.TestPass | lib/reporter.js:83-98 | a pass appends exactly one step, PASS with the title as its comment |
| SuiteTree.TestFailOrPending | lib/reporter.js:100-127 | a missing `err` is the first fault; otherwise exactly one FAIL step is appended, whose comment is the title, the message and the stack, each followed by CR LF, the last two only when truthy |
| SuiteTree.Handle | lib/reporter.js:30-36 | a `suite:start` event is `SuiteStart`, a pass is `TestPass`, and a fail and a pending are both `TestFailOrPending`; the tree stays valid |
| SuiteTree.Run | lib/reporter.js:30-36 | a stream of events, handled in order up to the first fault, leaves a valid tree |
| SuiteTree.RunKeepsFeatureKeysDistinct | lib/reporter.js:61-67 | from a fresh reporter, whatever the events, the keys of the listed features stay pairwise distinct |
| Reporter.JsonReporter.constructor | lib/reporter.js:17-28 | the state of a fresh reporter is the empty tree |
| Reporter.JsonReporter.OnSuiteStart | lib/reporter.js:41-81 | updates the map and the list in place into `SuiteTree.SuiteStart` of the old state, and reports its fault |
| Reporter.JsonReporter.PushStep | lib/reporter.js:114-126 | updates the parent's step map in place into `SuiteTree.RecordStep` of the old state, and reports its fault |
| Reporter.JsonReporter.OnTestPass | lib/reporter.js:83-98 | leaves `SuiteTree.TestPass` of the old state |
| Reporter.JsonReporter.OnTestFailOrPending | lib/reporter.js:100-127 | builds the comment by `+=` and leaves `SuiteTree.TestFailOrPending` of the old state, with the same fault |
| Reporter.JsonReporter.Handle | lib/reporter.js:30-36 | dispatches an event and leaves `SuiteTree.Handle` of the old state |
| Reporter.JsonReporter.OnEnd | lib/reporter.js:129-276 | the results are `Assembly.Reports` of the current tree, the runners, the dates and the options |
| Sequences.FirstIndex | lib/reporter.js:206 | the first position of an element, before which it does not occur |
| Sequences.Distinct | lib/reporter.js:139-147 | keeps each element once |
| Sequences.DistinctMembers | lib/reporter.js:139-147 | keeps every element and adds none |
| Sequences.DistinctOrder | lib/reporter.js:139-147 | keeps the order in which the elements are first seen |
| Sequences.DistinctSnoc | lib/reporter.js:139-144 | a new element is appended at the end, and a known one changes nothing |
| Assembly.MergeFoldIsConcat | lib/reporter.js:151-157 | the steps `reduce` concatenates `steps[key]` over the bucket's keys in order, skipping keys without steps |
| Assembly.ConcatHasFail | lib/reporter.js:151-157 | the merged steps hold a FAIL exactly when the steps of one of the keys do |
| Assembly.StatusFoldFails | lib/reporter.js:159-169 | the status `reduce` gives FAIL exactly when some step is FAIL, and PASS otherwise |
| Assembly.CommentFoldIsFailText | lib/reporter.js:176-183 | the comment `reduce` is the comment of each FAIL step, in step order, each followed by CR LF |
| Assembly.FailTextEmpty | lib/reporter.js:176-183 | that comment is empty exactly when no step failed |
| Assembly.ScenarioResult | lib/reporter.js:150-197 | a scenario's entry has its key and the dates, the merged steps, status FAIL exactly when a key's steps hold a FAIL, the FAIL comments, an empty comment exactly when it passed, and `examples == [status]` |
| Assembly.ScenarioTests | lib/reporter.js:150-198 | one entry per scenario of a feature, in list order |
| Assembly.CollectTests | lib/reporter.js:149-201 | one entry per listed scenario, feature by feature, in listing order |
| Assembly.CollectedEntries | lib/reporter.js:185-197 | before deduplication each entry's examples are its own status, and it has a comment exactly when it failed |
| Assembly.Absorb | lib/reporter.js:209-216 | merging a later entry keeps the canonical entry's key |
| Assembly.Canonical | lib/reporter.js:209-216 | all occurrences merged into the first one keep its key, dates, status and steps; the examples are the first entry's followed by every later status; each later non-empty comment is appended after CR LF |
| Assembly.CanonicalSnoc | lib/reporter.js:209-216 | merging one more occurrence is absorbing it into the canonical entry |
| Assembly.Merge | lib/reporter.js:205-222 | one more entry keeps the keys when its key is known, and appends its key otherwise |
| Assembly.MergeAt | lib/reporter.js:205-222 | after one entry is merged, each position holds the entry it was absorbed into, an untouched entry, or the new entry appended last |
| Assembly.Deduped | lib/reporter.js:203-223 | the output keys are the input keys, each once, in first-seen order |
| Assembly.DedupedCanonicalAt | lib/reporter.js:203-223 | each output entry is the canonical merge of all the input entries with its key |
| Assembly.MergeTest | lib/reporter.js:205-222 | the `forEach` callback: the entry is merged as `Merge` says, and `dedupedTestIds` keeps pointing every key seen to its entry |
| Assembly.DedupTests | lib/reporter.js:203-223 | the `forEach` over all entries returns `Deduped` of them |
| Assembly.OccurrencesFirst | lib/reporter.js:221-222 | the first occurrence of a key is the first input entry with that key |
| Assembly.DedupedEntry | lib/reporter.js:203-223 | a deduplicated entry is the first with its key; its status, steps and dates are unchanged by merging; it has one example per occurrence, in order; its comment has each later non-empty comment appended after CR LF |
| Assembly.LaterCommentsEmpty | lib/reporter.js:213-216 | the appended comments add nothing exactly when all the later comments are empty |
| Assembly.MergedCommentIffFail | lib/reporter.js:213-216 | the merged comment of entries that each have a comment exactly when they failed is empty exactly when none of them failed |
| Assembly.DedupedCommentIffFail | lib/reporter.js:176-223 | a deduplicated entry has a comment exactly when one of its examples is FAIL |
| Assembly.KeysOfAbsent | lib/reporter.js:135-145 | a signature no runner has collects no keys |
| Assembly.GroupStep | lib/reporter.js:136-145 | one turn of the grouping `forEach` keeps the signatures in first-seen order and each bucket equal to the keys of its runners |
| Assembly.GroupingSpec | lib/reporter.js:135-145 | `browserToEnvMap` has the signatures in first-seen order, and each maps to the keys of its runners in runner order |
| Assembly.GroupRunners | lib/reporter.js:135-145 | the grouping `forEach` builds exactly that order and those buckets |
| Assembly.Environments | lib/reporter.js:229-240 | `testEnvironments` is the signature, followed by the additional data spread when it is a list or pushed when it is a truthy value |
| Assembly.Summary | lib/reporter.js:242-253 | the summary names the first truthy one of testKey, testSetKey, testPlanKey and testExecutionKey, or the test "undefined", then the environments joined by ", " |
| Assembly.IfSet | lib/reporter.js:255-273 | an optional field is present exactly when its option is truthy, and holds it |
| Assembly.MakeReport | lib/reporter.js:225-273 | the report has the deduplicated tests, the dates, those environments and summary, `testPlanKey` only in the plan branch, and each other optional field exactly when its option is truthy |
| Assembly.Reports | lib/reporter.js:147-276 | one report per signature |
| Assembly.BuildReport | lib/reporter.js:148-275 | the body of the `map` callback builds the report of one signature |
| Assembly.BuildReports | lib/reporter.js:135-276 | groups the runners and builds the report of each signature in turn, giving `Reports` |
| Assembly.ReportShape | lib/reporter.js:147-232 | report `i` names the `i`th signature first among its environments and holds one entry per test key of its scenarios, in first-seen order, with no key twice |
| Assembly.ReportEntry | lib/reporter.js:147-276 | each entry of a report has one example per listed scenario with its key, the status and steps of the first of them, and a comment exactly when one of its examples failed |

## Left out

- `write`, `upload`, `reportToSlack` and `format` (lines 278-335), which are file system and
  HTTP I/O, an empty stub and a foreign formatter. `OnEnd` returns the results these would
  receive.
- `moment` parsing and formatting of `stats.start` and `stats.end` (lines 130-131, 187-188,
  227-228). The formatted dates are inputs.
- The EventEmitter registration (lines 30-38). `Handle` dispatches the events explicitly.
- `envToBrowserMap` (line 138), which is built but never read.
- The order `Object.keys` gives to integer-like keys (lines 135 and 147). Runners are an
  ordered sequence, and signatures come in insertion order.
- Keys that a plain JavaScript object inherits, such as "constructor", "toString" or
  "__proto__", for uids, signatures, test keys and runner keys (`cid`) (lines 55, 85, 115, 139,
  153, 206). A map key here is absent until it is set, so, for instance, the model does not
  concatenate the inherited `current.steps['toString']` at line 153.
- JsText.Search, JsText.Substr and IdResolver.ProjectPrefix: strings are sequences of Unicode
  characters, while `search`, `substr`, `substring`, `lastIndexOf` and `indexOf` count UTF-16
  code units. Lines 46-47 and 51 therefore differ from the model when a name holds a character
  outside the Basic Multilingual Plane. For example, tag "😀PROJ-1" does not qualify in
  JavaScript, because `pId` there begins with half of the emoji. In the model its prefix is
  "PROJ", so it qualifies.
- JsText.IndexFrom: for an empty pattern it answers -1 past the end, where `indexOf` answers
  the length of the string. The reporter only searches for ".feature".
- A `suite:start` event without `file` (line 51), and tags or options whose values are not
  strings. Options are strings, with "" meaning unset, and `additionalEnvironmentData` is
  absent, a string, or a list of strings.
- Assembly.Environments: the pushes onto `testEnvironments` (lines 236-238) are modelled as
  the list they build.
- The objects `onEnd` builds locally (test entries, reports) are values. Only the entry of
  one key is ever mutated, through `dedupedTestIds`. No other reference to it is read after
  that, so nothing is lost.
- After a fault, the state is the old one, but the model does not say what a runner does with
  the exception. `Run` stops at the first fault.
