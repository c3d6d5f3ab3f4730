// The life of one tool of the tool factory as a state machine on values: creation, review,
// versions, activation and rollback (app/tool_factory/service.py). ToolFactory implements
// these steps on mutable records.
module ToolLifecycle {
  import opened Wrappers

  const MAX_VERSIONS_PER_TOOL := 50

  // The fields of a definition the steps and the execution path look at.
  datatype Body = Body(
    template: string,
    declared: set<string>,
    permission: string,
    sshOnly: bool,
    maxOutputBytes: int,
    description: string)

  datatype Status = Draft | Validated | Approved | Rejected | Active | Disabled

  datatype Version = Version(name: string, body: Body, previous: string, active: bool)

  datatype Action = Activated | Deactivated | RolledBack

  datatype Activation = Activation(version: string, action: Action, previous: string)

  datatype Tool = Tool(
    body: Body,
    version: string,
    status: Status,
    enabled: bool,
    versions: seq<Version>,
    log: seq<Activation>)

  // The two checks the steps consult: validate_tool_definition and the semantic-version
  // pattern.
  datatype Rules = Rules(valid: Body -> bool, semantic: string -> bool)

  // How the repository lists activations: the in-memory adapter in insertion order, the
  // PostgreSQL adapter newest first and cut to `limit` records.
  datatype Order = InsertionOrder | NewestFirst(limit: nat)

  function Reverse<T>(s: seq<T>): (r: seq<T>)
    ensures |r| == |s| && forall i | 0 <= i < |s| :: r[i] == s[|s| - 1 - i]
  {
    seq(|s|, i requires 0 <= i < |s| => s[|s| - 1 - i])
  }

  function Listed(log: seq<Activation>, order: Order): seq<Activation> {
    match order
    case InsertionOrder => log
    case NewestFirst(limit) => var r := Reverse(log); if |r| <= limit then r else r[..limit]
  }

  // ---- Versions ----

  predicate HasVersion(versions: seq<Version>, name: string) {
    exists i | 0 <= i < |versions| :: versions[i].name == name
  }

  predicate HasActive(versions: seq<Version>) {
    exists i | 0 <= i < |versions| :: versions[i].active
  }

  // get_active_version: the name of the first version whose flag is set.
  function ActiveName(versions: seq<Version>): string
    requires HasActive(versions)
  {
    if versions[0].active then versions[0].name else ActiveName(versions[1..])
  }

  // `previous.version if previous else ""`
  function ActiveOrEmpty(versions: seq<Version>): string {
    if HasActive(versions) then ActiveName(versions) else ""
  }

  // set_active_version: every flag is reassigned.
  function SetActive(versions: seq<Version>, name: string): (r: seq<Version>)
    ensures |r| == |versions|
    ensures forall i | 0 <= i < |r| :: r[i] == versions[i].(active := versions[i].name == name)
  {
    seq(|versions|, i requires 0 <= i < |versions| => versions[i].(active := versions[i].name == name))
  }

  // ---- Rollback ----

  // `record.action in {"activated", "rolled_back"}`
  predicate IsSwitch(a: Activation) {
    a.action != Deactivated
  }

  // The versions switched to, oldest first.
  function Switches(log: seq<Activation>): seq<string> {
    if log == [] then []
    else Switches(log[..|log| - 1]) + if IsSwitch(log[|log| - 1]) then [log[|log| - 1].version] else []
  }

  // The first listed version other than the current one.
  function FirstOther(listed: seq<Activation>, current: string): Option<string> {
    if listed == [] then None
    else if IsSwitch(listed[0]) && listed[0].version != current then Some(listed[0].version)
    else FirstOther(listed[1..], current)
  }

  // ---- Steps ----

  datatype Error =
    | NotFound
    | Duplicate
    | Invalid
    | NotSemantic
    | VersionExists
    | VersionLimit
    | WrongStatus
    | NotApproved
    | VersionNotFound
    | NoActiveVersion
    | NoHistory
    | NoPriorVersion

  datatype Command =
    | Create(body: Body, version: string)
    | Approve
    | Reject
    | CreateVersion(newBody: Body, newVersion: string)
    | Activate(target: string)
    | Deactivate
    | Rollback
    | SetEnabled(enabled: bool)

  // A step's outcome: the tool afterwards (a failing step may still have stored something).
  datatype Outcome = Outcome(tool: Option<Tool>, error: Option<Error>)

  function Fail(tool: Option<Tool>, e: Error): Outcome {
    Outcome(tool, Some(e))
  }

  function Done(tool: Tool): Outcome {
    Outcome(Some(tool), None)
  }

  function Snapshot(tool: Tool): Outcome {
    if |tool.versions| >= MAX_VERSIONS_PER_TOOL then Fail(Some(tool), VersionLimit)
    else Done(tool.(versions := tool.versions
      + [Version(tool.version, tool.body, ActiveOrEmpty(tool.versions), false)]))
  }

  function DoCreate(rules: Rules, tool: Option<Tool>, body: Body, version: string): Outcome {
    if !rules.valid(body) then Fail(tool, Invalid)
    else if tool.Some? then Fail(tool, Duplicate)
    else Snapshot(Tool(body, version, Validated, false, [], []))
  }

  function DoApprove(rules: Rules, tool: Tool): Outcome {
    if !rules.valid(tool.body) then Fail(Some(tool), Invalid)
    else if tool.status != Validated && tool.status != Rejected then Fail(Some(tool), WrongStatus)
    else Done(tool.(status := Approved))
  }

  // The definition is stored before the version limit is checked.
  function DoCreateVersion(rules: Rules, tool: Tool, body: Body, version: string): Outcome {
    if !rules.semantic(version) then Fail(Some(tool), NotSemantic)
    else if !rules.valid(body) then Fail(Some(tool), Invalid)
    else if HasVersion(tool.versions, version) then Fail(Some(tool), VersionExists)
    else Snapshot(tool.(body := body, version := version))
  }

  function DoActivate(tool: Tool, version: string): Outcome {
    if !HasVersion(tool.versions, version) then Fail(Some(tool), VersionNotFound)
    else if tool.status != Approved && tool.status != Active && tool.status != Disabled then
      Fail(Some(tool), NotApproved)
    else
      Done(tool.(versions := SetActive(tool.versions, version), version := version,
                 status := Active, enabled := true,
                 log := tool.log + [Activation(version, Activated, ActiveOrEmpty(tool.versions))]))
  }

  function DoDeactivate(tool: Tool): Outcome {
    if !HasActive(tool.versions) then Fail(Some(tool), NoActiveVersion)
    else
      var name := ActiveName(tool.versions);
      Done(tool.(enabled := false, status := Disabled, log := tool.log + [Activation(name, Deactivated, name)]))
  }

  // The version a rollback would go back to; an empty version name counts as none.
  function RollbackTarget(tool: Tool, order: Order): Option<string> {
    var target := FirstOther(Listed(tool.log, order), ActiveOrEmpty(tool.versions));
    if target == Some("") then None else target
  }

  function DoRollback(tool: Tool, order: Order): Outcome {
    var listed := Listed(tool.log, order);
    if forall i | 0 <= i < |listed| :: !IsSwitch(listed[i]) then Fail(Some(tool), NoHistory)
    else if RollbackTarget(tool, order).None? then Fail(Some(tool), NoPriorVersion)
    else
      var current, target := ActiveOrEmpty(tool.versions), RollbackTarget(tool, order).value;
      var activated := DoActivate(tool, target);
      if activated.error.Some? then activated
      else Done(activated.tool.value.(log := activated.tool.value.log + [Activation(target, RolledBack, current)]))
  }

  function DoSetEnabled(tool: Tool, enabled: bool): Outcome {
    if enabled && !HasActive(tool.versions) then Fail(Some(tool), NoActiveVersion)
    else
      var status := if enabled then Active else if tool.status == Active then Disabled else tool.status;
      Done(tool.(enabled := enabled, status := status))
  }

  function Step(rules: Rules, order: Order, tool: Option<Tool>, c: Command): Outcome {
    if c.Create? then DoCreate(rules, tool, c.body, c.version)
    else match tool
      case None => Fail(None, NotFound)
      case Some(t) =>
        match c
        case Approve => DoApprove(rules, t)
        case Reject => Done(t.(status := Rejected))
        case CreateVersion(body, version) => DoCreateVersion(rules, t, body, version)
        case Activate(version) => DoActivate(t, version)
        case Deactivate => DoDeactivate(t)
        case Rollback => DoRollback(t, order)
        case SetEnabled(enabled) => DoSetEnabled(t, enabled)
        case Create(_, _) => Fail(tool, Duplicate)
  }
}
