/** `JsonReporter` of lib/reporter.js: the state its handlers update in
    place, and the handlers themselves. Each handler is proved to leave the
    state the matching function of SuiteTree computes, and `onEnd` to
    return the reports Assembly.Reports describes. */
module Reporter {
  import opened Data
  import opened Sequences
  import IdResolver
  import SuiteTree
  import Assembly

  class JsonReporter {
    /** `projectId` of package.json and `path.sep`. */
    const projectId: string
    const sep: char
    const options: Options

    /** Every registered node by uid, and the listed features in order. */
    var suitesUIDMap: map<Uid, Node>
    var suites: seq<Uid>

    function Snapshot(): Tree
      reads this
    {
      Tree(suitesUIDMap, suites)
    }

    predicate Valid()
      reads this
    {
      SuiteTree.Valid(Snapshot())
    }

    constructor (projectId: string, sep: char, options: Options)
      ensures Valid() && Snapshot() == SuiteTree.Empty()
      ensures this.projectId == projectId && this.sep == sep && this.options == options
    {
      this.projectId := projectId;
      this.sep := sep;
      this.options := options;
      suitesUIDMap := map[];
      suites := [];
    }

    /** `onSuiteStart` (lines 41-81). */
    method OnSuiteStart(event: SuiteEvent) returns (fault: Option<Fault>)
      requires Valid()
      modifies this
      ensures Valid()
      ensures var r := SuiteTree.SuiteStart(old(Snapshot()), event, projectId, sep);
        && (fault.Some? <==> r.Failed?)
        && (r.Failed? ==> fault.value == r.fault)
        && Snapshot() == SuiteTree.After(old(Snapshot()), r)
    {
      ghost var t := Snapshot();
      var xrayId := IdResolver.ResolveId(event, projectId, sep);
      if Truthy(xrayId) && event.uid !in suitesUIDMap {
        var id := xrayId.value;
        if event.parent.None? {
          var ids := SuiteTree.FeatureIds(Snapshot());
          ghost var t' := SuiteTree.AddFeature(t, event.uid, id);
          if id !in ids {
            suitesUIDMap := suitesUIDMap[event.uid := Feature(id, [])];
            suites := suites + [event.uid];
          } else {
            suitesUIDMap := suitesUIDMap[event.uid := Unlisted(id)];
          }
          assert Snapshot() == t';
        } else {
          var p := event.parent.value;
          ghost var r := SuiteTree.AddScenario(t, event.uid, id, p);
          if p in suitesUIDMap {
            var parent := suitesUIDMap[p];
            if !parent.Feature? {
              return Some(NoScenarioList);
            }
            suitesUIDMap := suitesUIDMap[p := Feature(parent.xrayId, parent.scenarios + [event.uid])];
          }
          suitesUIDMap := suitesUIDMap[event.uid := Scenario(id, map[])];
          assert Snapshot() == r.value;
        }
      }
      return None;
    }

    /** Lines 114-126 (and 85-97): push `step` onto `steps[cid]` of the
        scenario `parent`, creating the list on first use. */
    method PushStep(parent: Uid, cid: Cid, step: Step) returns (fault: Option<Fault>)
      requires Valid()
      modifies this
      ensures Valid()
      ensures var r := SuiteTree.RecordStep(old(Snapshot()), parent, cid, step);
        && (fault.Some? <==> r.Failed?)
        && (r.Failed? ==> fault.value == r.fault)
        && Snapshot() == SuiteTree.After(old(Snapshot()), r)
    {
      if parent !in suitesUIDMap {
        return Some(UnknownParent);
      }
      var suite := suitesUIDMap[parent];
      if !suite.Scenario? {
        return Some(NoStepMap);
      }
      var envSteps := if cid in suite.steps then suite.steps[cid] else [];
      suitesUIDMap := suitesUIDMap[parent := Scenario(suite.xrayId, suite.steps[cid := envSteps + [step]])];
      return None;
    }

    /** `onTestPass` (lines 83-98). */
    method OnTestPass(event: TestEvent) returns (fault: Option<Fault>)
      requires Valid()
      modifies this
      ensures Valid()
      ensures var r := SuiteTree.TestPass(old(Snapshot()), event);
        && (fault.Some? <==> r.Failed?)
        && Snapshot() == SuiteTree.After(old(Snapshot()), r)
    {
      fault := PushStep(event.parent, event.cid, Step(PASS, event.title));
    }

    /** `onTestFailOrPending` (lines 100-127). */
    method OnTestFailOrPending(event: TestEvent) returns (fault: Option<Fault>)
      requires Valid()
      modifies this
      ensures Valid()
      ensures var r := SuiteTree.TestFailOrPending(old(Snapshot()), event);
        && (fault.Some? <==> r.Failed?)
        && (r.Failed? ==> fault.value == r.fault)
        && Snapshot() == SuiteTree.After(old(Snapshot()), r)
    {
      if event.err.None? {
        return Some(MissingErr);
      }
      var err := event.err.value;
      var comment := event.title;
      comment := comment + "\r\n";
      if err.message != "" {
        comment := comment + err.message;
        comment := comment + "\r\n";
      }
      if err.stack != "" {
        comment := comment + err.stack;
        comment := comment + "\r\n";
      }
      assert comment == SuiteTree.FailComment(event.title, err);
      fault := PushStep(event.parent, event.cid, Step(FAIL, comment));
    }

    /** The listeners registered in the constructor (lines 30-36). */
    method Handle(ev: SuiteTree.Event) returns (fault: Option<Fault>)
      requires Valid()
      modifies this
      ensures Valid()
      ensures var r := SuiteTree.Handle(old(Snapshot()), ev, projectId, sep);
        && (fault.Some? <==> r.Failed?)
        && Snapshot() == SuiteTree.After(old(Snapshot()), r)
    {
      match ev
      case SuiteStarted(s) => fault := OnSuiteStart(s);
      case TestPassed(e) => fault := OnTestPass(e);
      case TestFailed(e) => fault := OnTestFailOrPending(e);
      case TestPending(e) => fault := OnTestFailOrPending(e);
    }

    /** `results` of `onEnd` (lines 129-276), for the formatted start and
        end dates and the runners in key order. */
    method OnEnd(start: string, finish: string, runners: seq<Runner>) returns (results: seq<Report>)
      requires Valid()
      ensures results == Assembly.Reports(Snapshot(), runners, start, finish, options)
    {
      results := Assembly.BuildReports(Snapshot(), runners, start, finish, options);
    }
  }
}
