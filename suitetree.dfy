/** The event handlers of `JsonReporter` (lib/reporter.js, `onSuiteStart`,
    `onTestPass`, `onTestFailOrPending`) as functions from the old state to
    the new one. A handler that raises a TypeError yields `Failed`; every
    such error is raised before the handler changes anything. */
module SuiteTree {
  import opened Data
  import opened Sequences
  import IdResolver

  /** What every reachable state satisfies. */
  predicate Valid(t: Tree)
  {
    // the feature list holds exactly the features of the map ...
    && (forall i :: 0 <= i < |t.suites| ==> t.suites[i] in t.nodes && t.nodes[t.suites[i]].Feature?)
    && (forall u :: u in t.nodes && t.nodes[u].Feature? ==> u in t.suites)
    // ... with pairwise distinct test keys
    && (forall i, j :: 0 <= i < j < |t.suites| ==> t.nodes[t.suites[i]].xrayId != t.nodes[t.suites[j]].xrayId)
    // a feature lists only scenarios
    && (forall u, s :: u in t.nodes && t.nodes[u].Feature? && s in t.nodes[u].scenarios ==>
          s in t.nodes && t.nodes[s].Scenario?)
    // only truthy keys are ever registered
    && (forall u :: u in t.nodes ==> t.nodes[u].xrayId != "")
  }

  /** The state of a fresh reporter. */
  function Empty(): (t: Tree)
    ensures Valid(t) && t.nodes == map[] && t.suites == []
  {
    Tree(map[], [])
  }

  /** `this.suites.map(s => s.xrayId)`. */
  function FeatureIds(t: Tree): (ids: seq<string>)
    requires forall i :: 0 <= i < |t.suites| ==> t.suites[i] in t.nodes
    ensures |ids| == |t.suites|
    ensures forall i :: 0 <= i < |ids| ==> ids[i] == t.nodes[t.suites[i]].xrayId
  {
    seq(|t.suites|, i requires 0 <= i < |t.suites| => t.nodes[t.suites[i]].xrayId)
  }

  /** The state after a handler: the new one, or the old one after a fault. */
  function After(t: Tree, r: Result<Tree>): Tree
  {
    if r.Ok? then r.value else t
  }

  /** Lines 61-67 and 78: register a new feature, listing it unless a
      listed feature already has its key. */
  function AddFeature(t: Tree, uid: Uid, id: string): (t': Tree)
    requires Valid(t) && uid !in t.nodes && id != ""
    ensures Valid(t')
    ensures id in FeatureIds(t) ==> t' == Tree(t.nodes[uid := Unlisted(id)], t.suites)
    ensures id !in FeatureIds(t) ==> t' == Tree(t.nodes[uid := Feature(id, [])], t.suites + [uid])
  {
    if id in FeatureIds(t) then Tree(t.nodes[uid := Unlisted(id)], t.suites)
    else
      var t' := Tree(t.nodes[uid := Feature(id, [])], t.suites + [uid]);
      ListedKeepsValid(t, t', uid, id);
      t'
  }

  /** Listing a new feature under a key no listed feature has keeps every
      invariant of the tree. */
  lemma {:induction false} ListedKeepsValid(t: Tree, t': Tree, uid: Uid, id: string)
    requires Valid(t) && uid !in t.nodes && id != "" && id !in FeatureIds(t)
    requires t' == Tree(t.nodes[uid := Feature(id, [])], t.suites + [uid])
    ensures Valid(t')
  {
    var n := |t.suites|;
    assert forall i :: 0 <= i < n ==> t'.suites[i] == t.suites[i] && t.suites[i] != uid;
    assert forall i :: 0 <= i < n ==> t.nodes[t.suites[i]].xrayId != id by {
      forall i | 0 <= i < n ensures t.nodes[t.suites[i]].xrayId != id {
        assert FeatureIds(t)[i] == t.nodes[t.suites[i]].xrayId;
      }
    }
    AppendedKeyDistinct(t.nodes, t'.nodes, t.suites, uid, id);
  }

  /** The keys of `suites + [uid]` stay pairwise distinct when `uid` gets a
      key none of `suites` has and no node of `suites` changes. */
  lemma {:induction false} AppendedKeyDistinct(nodes: map<Uid, Node>, nodes': map<Uid, Node>, suites: seq<Uid>, uid: Uid, id: string)
    requires forall i :: 0 <= i < |suites| ==> suites[i] in nodes && suites[i] != uid
    requires forall i, j :: 0 <= i < j < |suites| ==> nodes[suites[i]].xrayId != nodes[suites[j]].xrayId
    requires forall i :: 0 <= i < |suites| ==> nodes[suites[i]].xrayId != id
    requires nodes' == nodes[uid := Feature(id, [])]
    ensures forall i, j :: 0 <= i < j < |suites + [uid]| ==>
      nodes'[(suites + [uid])[i]].xrayId != nodes'[(suites + [uid])[j]].xrayId
  {
    var s' := suites + [uid];
    forall i, j | 0 <= i < j < |s'|
      ensures nodes'[s'[i]].xrayId != nodes'[s'[j]].xrayId
    {
      assert s'[i] == suites[i] && nodes'[s'[i]] == nodes[suites[i]];
      if j < |suites| {
        assert s'[j] == suites[j] && nodes'[s'[j]] == nodes[suites[j]];
      }
    }
  }

  /** Lines 69-78: register a new scenario with no steps and append it to
      its parent's list; an unknown parent leaves it out of the tree, and a
      parent without a scenario list is a fault. */
  function AddScenario(t: Tree, uid: Uid, id: string, p: Uid): (r: Result<Tree>)
    requires Valid(t) && uid !in t.nodes && id != ""
    ensures r.Ok? ==> Valid(r.value)
    ensures r.Failed? <==> p in t.nodes && !t.nodes[p].Feature?
    ensures r.Failed? ==> r.fault == NoScenarioList
    ensures p !in t.nodes ==> r == Ok(Tree(t.nodes[uid := Scenario(id, map[])], t.suites))
    ensures p in t.nodes && t.nodes[p].Feature? ==>
      r == Ok(Tree(t.nodes[p := Feature(t.nodes[p].xrayId, t.nodes[p].scenarios + [uid])]
                          [uid := Scenario(id, map[])], t.suites))
  {
    var data := Scenario(id, map[]);
    if p !in t.nodes then Ok(Tree(t.nodes[uid := data], t.suites))
    else if t.nodes[p].Feature? then
      var parent := Feature(t.nodes[p].xrayId, t.nodes[p].scenarios + [uid]);
      Ok(Tree(t.nodes[p := parent][uid := data], t.suites))
    else Failed(NoScenarioList)
  }

  /** `onSuiteStart`. */
  function SuiteStart(t: Tree, ev: SuiteEvent, projectId: string, sep: char): (r: Result<Tree>)
    requires Valid(t)
    ensures r.Ok? ==> Valid(r.value)
    // no key, or a uid seen before: nothing changes
    ensures !Truthy(IdResolver.ResolveId(ev, projectId, sep)) || ev.uid in t.nodes ==> r == Ok(t)
    // otherwise the uid is registered as a feature or as a scenario
    ensures Truthy(IdResolver.ResolveId(ev, projectId, sep)) && ev.uid !in t.nodes ==>
      var id := IdResolver.ResolveId(ev, projectId, sep).value;
      && (ev.parent.None? ==> r == Ok(AddFeature(t, ev.uid, id)))
      && (ev.parent.Some? ==> r == AddScenario(t, ev.uid, id, ev.parent.value))
  {
    var xrayId := IdResolver.ResolveId(ev, projectId, sep);
    if !Truthy(xrayId) || ev.uid in t.nodes then Ok(t)
    else if ev.parent.None? then Ok(AddFeature(t, ev.uid, xrayId.value))
    else AddScenario(t, ev.uid, xrayId.value, ev.parent.value)
  }

  /** `t'` is `t` with `step` appended to `steps[cid]` of the scenario
      `parent` and nothing else changed. */
  predicate Appended(t: Tree, t': Tree, parent: Uid, cid: Cid, step: Step)
  {
    && parent in t.nodes && parent in t'.nodes
    && t.nodes[parent].Scenario? && t'.nodes[parent].Scenario?
    && t'.suites == t.suites
    && t'.nodes.Keys == t.nodes.Keys
    && (forall u :: u in t.nodes && u != parent ==> t'.nodes[u] == t.nodes[u])
    && t'.nodes[parent].xrayId == t.nodes[parent].xrayId
    && t'.nodes[parent].steps.Keys == t.nodes[parent].steps.Keys + {cid}
    && StepsOf(t'.nodes[parent].steps, cid) == StepsOf(t.nodes[parent].steps, cid) + [step]
    && (forall c :: c in t.nodes[parent].steps && c != cid ==>
          t'.nodes[parent].steps[c] == t.nodes[parent].steps[c])
  }

  /** Lines 84-97 and 101, 114-126 once the comment is built: append `step`
      to `steps[cid]` of the scenario `parent`, creating the list on first
      use. Looking up `steps` of an unknown parent, or of a node that is not
      a scenario, is a fault. */
  function RecordStep(t: Tree, parent: Uid, cid: Cid, step: Step): (r: Result<Tree>)
    requires Valid(t)
    ensures r.Ok? ==> Valid(r.value) && Appended(t, r.value, parent, cid, step)
    ensures r.Failed? <==> parent !in t.nodes || !t.nodes[parent].Scenario?
    ensures r.Failed? ==> r.fault == if parent in t.nodes then NoStepMap else UnknownParent
  {
    if parent !in t.nodes then Failed(UnknownParent)
    else
      match t.nodes[parent]
      case Scenario(id, steps) =>
        var envSteps := if cid in steps then steps[cid] else [];
        var t' := Tree(t.nodes[parent := Scenario(id, steps[cid := envSteps + [step]])], t.suites);
        AppendedKeepsValid(t, t', parent, cid, step);
        Ok(t')
      case _ => Failed(NoStepMap)
  }

  /** Appending a step changes neither the feature list nor any feature. */
  lemma {:induction false} AppendedKeepsValid(t: Tree, t': Tree, parent: Uid, cid: Cid, step: Step)
    requires Valid(t) && Appended(t, t', parent, cid, step)
    ensures Valid(t')
  {
    assert forall u :: u in t.nodes && t.nodes[u].Feature? ==> u != parent && t'.nodes[u] == t.nodes[u];
    assert forall u :: u in t'.nodes && t'.nodes[u].Feature? ==> u != parent && t'.nodes[u] == t.nodes[u];
    assert forall u :: u in t'.nodes ==> t'.nodes[u].xrayId == t.nodes[u].xrayId;
  }

  /** `onTestPass`: append one PASS step whose comment is the title. */
  function TestPass(t: Tree, ev: TestEvent): (r: Result<Tree>)
    requires Valid(t)
    ensures r.Ok? ==> Valid(r.value) && Appended(t, r.value, ev.parent, ev.cid, Step(PASS, ev.title))
    ensures r.Failed? <==> ev.parent !in t.nodes || !t.nodes[ev.parent].Scenario?
  {
    RecordStep(t, ev.parent, ev.cid, Step(PASS, ev.title))
  }

  /** Lines 103-112: the title, then the message and the stack when they
      are truthy, each followed by CR LF. */
  function FailComment(title: string, err: ErrorInfo): string
  {
    var comment := title + "\r\n";
    var comment := if err.message != "" then comment + err.message + "\r\n" else comment;
    if err.stack != "" then comment + err.stack + "\r\n" else comment
  }

  /** `onTestFailOrPending`: append one FAIL step. A missing `err` is a
      fault, raised before the one for an unknown parent. */
  function TestFailOrPending(t: Tree, ev: TestEvent): (r: Result<Tree>)
    requires Valid(t)
    ensures r.Ok? ==> Valid(r.value)
    ensures ev.err.None? ==> r == Failed(MissingErr)
    ensures ev.err.Some? ==> (r.Failed? <==> ev.parent !in t.nodes || !t.nodes[ev.parent].Scenario?)
    ensures r.Ok? ==>
      var e := ev.err.value;
      var comment := ev.title + "\r\n" + (if e.message != "" then e.message + "\r\n" else "")
                     + (if e.stack != "" then e.stack + "\r\n" else "");
      Appended(t, r.value, ev.parent, ev.cid, Step(FAIL, comment))
  {
    if ev.err.None? then Failed(MissingErr)
    else
      var e := ev.err.value;
      var m, k := e.message + "\r\n", e.stack + "\r\n";
      assert FailComment(ev.title, e) == ev.title + "\r\n" + (if e.message != "" then m else "")
                                        + (if e.stack != "" then k else "");
      RecordStep(t, ev.parent, ev.cid, Step(FAIL, FailComment(ev.title, e)))
  }

  /** The events the reporter listens to (lines 30-36); `end` is handled
      separately since it produces the reports. */
  datatype Event =
    | SuiteStarted(suite: SuiteEvent)
    | TestPassed(test: TestEvent)
    | TestFailed(test: TestEvent)
    | TestPending(test: TestEvent)

  /** Each event goes to its listener; pending is handled like fail. */
  function Handle(t: Tree, ev: Event, projectId: string, sep: char): (r: Result<Tree>)
    requires Valid(t)
    ensures r.Ok? ==> Valid(r.value)
    ensures ev.SuiteStarted? ==> r == SuiteStart(t, ev.suite, projectId, sep)
    ensures ev.TestPassed? ==> r == TestPass(t, ev.test)
    ensures ev.TestFailed? || ev.TestPending? ==> r == TestFailOrPending(t, ev.test)
  {
    match ev
    case SuiteStarted(s) => SuiteStart(t, s, projectId, sep)
    case TestPassed(e) => TestPass(t, e)
    case TestFailed(e) => TestFailOrPending(t, e)
    case TestPending(e) => TestFailOrPending(t, e)
  }

  /** A stream of events, handled in order; the first fault ends it. */
  function Run(t: Tree, evs: seq<Event>, projectId: string, sep: char): (r: Result<Tree>)
    requires Valid(t)
    ensures r.Ok? ==> Valid(r.value)
    decreases |evs|
  {
    if evs == [] then Ok(t)
    else
      var r := Handle(t, evs[0], projectId, sep);
      if r.Failed? then r else Run(r.value, evs[1..], projectId, sep)
  }

  /** Whatever the stream, the test keys of the listed features stay
      pairwise distinct and every listed feature is a feature node. */
  lemma {:induction false} RunKeepsFeatureKeysDistinct(evs: seq<Event>, projectId: string, sep: char)
    ensures var r := Run(Empty(), evs, projectId, sep);
      r.Ok? ==> NoDuplicates(FeatureIds(r.value)) && |FeatureIds(r.value)| == |r.value.suites|
  {
  }
}
