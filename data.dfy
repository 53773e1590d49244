/** The values the reporter works on: runner events, the suite tree it
    builds from them, and the Xray-import reports it produces at the end
    of a run. */
module Data {

  datatype Option<+T> = None | Some(value: T)

  /** A JavaScript value that is a string or null/undefined is truthy when it
      is present and not the empty string. */
  predicate Truthy(v: Option<string>)
  {
    v.Some? && v.value != ""
  }

  /** A suite id assigned by the runner (`event.uid`, `event.parent`). */
  type Uid = string

  /** A runner key: one parallel execution context (`event.cid`, a key of
      `stats.runners`). */
  type Cid = string

  datatype Status = PASS | FAIL

  /** One recorded step of a scenario in one execution context. */
  datatype Step = Step(status: Status, comment: string)

  /** A Gherkin tag and the source line it stands on. */
  datatype Tag = Tag(name: string, line: int)

  /** The fields of a `suite:start` event the reporter reads. A missing tag
      list is the empty sequence. */
  datatype SuiteEvent = SuiteEvent(uid: Uid, parent: Option<Uid>, tags: seq<Tag>, file: string)

  /** `event.err` of a failing or pending test; an absent or empty message
      or stack is the empty string (both are falsy). */
  datatype ErrorInfo = ErrorInfo(message: string, stack: string)

  /** The fields of a `test:pass`, `test:fail` or `test:pending` event. */
  datatype TestEvent = TestEvent(parent: Uid, cid: Cid, title: string, err: Option<ErrorInfo>)

  /** A node registered in the uid map. A feature has a scenario list, a
      scenario has a step list per runner key, and a feature whose test key
      was already listed is registered with neither. Scenarios refer to
      their nodes by uid: each uid has exactly one node object, so the uid
      stands for the object shared by the map and the feature's list. */
  datatype Node =
    | Feature(xrayId: string, scenarios: seq<Uid>)
    | Scenario(xrayId: string, steps: map<Cid, seq<Step>>)
    | Unlisted(xrayId: string)

  /** The reporter's state: the uid map and the ordered feature list. */
  datatype Tree = Tree(nodes: map<Uid, Node>, suites: seq<Uid>)

  /** The TypeErrors a handler raises on a malformed event stream. */
  datatype Fault =
    | UnknownParent    // the step's parent uid is not in the map
    | NoStepMap        // the step's parent node is not a scenario
    | NoScenarioList   // the scenario's parent node is not a listed feature
    | MissingErr       // a failing or pending test without `err`

  datatype Result<+T> = Ok(value: T) | Failed(fault: Fault)

  /** The steps recorded for `cid`, or none. */
  function StepsOf(steps: map<Cid, seq<Step>>, cid: Cid): seq<Step>
  {
    if cid in steps then steps[cid] else []
  }

  /** One entry of `stats.runners`: a runner key and its signature. */
  datatype Runner = Runner(key: Cid, sanitizedCapabilities: string)

  /** One entry of a report's `tests`. */
  datatype TestResult = TestResult(
    testKey: string,
    start: string,
    finish: string,
    status: Status,
    steps: seq<Step>,
    examples: seq<Status>,
    comment: string)

  /** `options.additionalEnvironmentData`: absent, a single value, or an array. */
  datatype EnvData = NoEnvData | EnvScalar(value: string) | EnvList(values: seq<string>)

  /** The reporter options that shape a report; "" is an unset option. */
  datatype Options = Options(
    additionalEnvironmentData: EnvData,
    testKey: string,
    testSetKey: string,
    testPlanKey: string,
    testExecutionKey: string,
    revision: string,
    version: string,
    user: string,
    project: string)

  datatype Info = Info(
    startDate: string,
    finishDate: string,
    testEnvironments: seq<string>,
    summary: string,
    testPlanKey: Option<string>,
    revision: Option<string>,
    version: Option<string>,
    user: Option<string>,
    project: Option<string>)

  /** One Xray import document. */
  datatype Report = Report(info: Info, tests: seq<TestResult>, testExecutionKey: Option<string>)
}
