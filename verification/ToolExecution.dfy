// The execution chain of app/tool_factory/execution.py: every gate in order, the command,
// the redacted output and the audit record.
module ToolExecution {
  import opened Wrappers
  import opened Text
  import opened Template
  import opened Validation
  import opened CommandBuilder
  import opened ToolLifecycle
  import opened ToolHistory
  import opened ToolRuns
  import opened ToolFactory
  import opened Utf8
  import opened Redaction

  const MAX_AUDITS := 200

  // What the chain asks the outside: the role, the input schema, the whitelist, the mode,
  // the runner, and the secret patterns applied to what it printed.
  datatype World = World(
    u: Unicode,
    roleCan: string -> bool,
    inputValid: (Body, map<string, Argument>) -> bool,
    whitelisted: string -> bool,
    sshConfigured: bool,
    runner: string -> RunResult,
    hideSecrets: seq<CodePoint> -> seq<CodePoint>)

  datatype RunResult = RunResult(
    success: bool, exitCode: Option<int>, stdout: seq<CodePoint>, stderr: seq<CodePoint>)

  datatype ExecutionError =
    | ToolNotFound
    | ToolNotActive
    | PermissionDenied
    | InvalidInput
    | CommandRejected
    | ModeUnavailable

  datatype Audit = Audit(version: string, success: bool, exitCode: Option<int>)

  datatype Report = Report(version: string, success: bool, stdout: seq<CodePoint>, stderr: seq<CodePoint>)

  // The command the chain hands to the runner, or the first gate that refuses.
  function Gate(w: World, tool: Option<Tool>, arguments: map<string, Argument>): Result<string, ExecutionError> {
    match tool
    case None => Err(ToolNotFound)
    case Some(t) =>
      var bad := FirstBad(w.u, Holes(Tokenize(t.body.template)), arguments);
      if !PassesGates(t) then Err(ToolNotActive)
      else if !w.roleCan(t.body.permission) then Err(PermissionDenied)
      else if !w.inputValid(t.body, arguments) then Err(InvalidInput)
      else if bad.Some? || HasForbidden(Substituted(w.u, t.body.template, arguments)) then Err(InvalidInput)
      else
        var command := Substituted(w.u, t.body.template, arguments);
        if !w.whitelisted(command) then Err(CommandRejected)
        else if t.body.sshOnly && !w.sshConfigured then Err(ModeUnavailable)
        else Ok(command)
  }

  function LastAudits(audits: seq<Audit>): (r: seq<Audit>)
    ensures |r| <= MAX_AUDITS && |r| <= |audits| && r == audits[|audits| - |r|..]
  {
    if |audits| > MAX_AUDITS then audits[|audits| - MAX_AUDITS..] else audits
  }

  class ExecutionService {
    const service: Service
    const w: World
    var audits: map<Key, seq<Audit>>

    constructor (service: Service, w: World)
      ensures this.service == service && this.w == w && audits == map[]
    {
      this.service, this.w, audits := service, w, map[];
    }

    function AuditsOf(k: Key): seq<Audit>
      reads this
    {
      if k in audits then audits[k] else []
    }

    // A refused call runs nothing and leaves no audit record; an executed one leaves one,
    // and each tool keeps its latest 200.
    method ExecuteTool(k: Key, arguments: map<string, Argument>)
      returns (r: Result<Report, ExecutionError>, executed: Option<string>)
      requires service.Valid()
      modifies this
      ensures var gate := Gate(w, service.At(k), arguments);
        match gate
        case Err(e) => r == Err(e) && executed == None && audits == old(audits)
        case Ok(command) =>
          var raw := w.runner(command);
          var t := service.At(k).value;
          var success := raw.success && raw.exitCode == Some(0);
          && executed == Some(command)
          && r == Ok(Report(ActiveName(t.versions), success,
                            Clipped(w.hideSecrets(raw.stdout), Some(t.body.maxOutputBytes)),
                            Clipped(w.hideSecrets(raw.stderr), Some(Min(t.body.maxOutputBytes, 2048)))))
          && audits == old(audits)[k := LastAudits(old(AuditsOf(k)) + [Audit(ActiveName(t.versions), success, raw.exitCode)])]
    {
      executed := None;
      if k !in service.records {
        return Err(ToolNotFound), None;
      }
      var definition := service.records[k];
      var activeVersion := definition.GetActiveVersion();
      if definition.status != Active || !definition.enabled {
        return Err(ToolNotActive), None;
      }
      if activeVersion.None? {
        return Err(ToolNotActive), None;
      }
      var versionLabel := activeVersion.value.name;
      if !w.roleCan(definition.body.permission) {
        return Err(PermissionDenied), None;
      }
      if !w.inputValid(definition.body, arguments) {
        return Err(InvalidInput), None;
      }
      var built := BuildCommand(w.u, definition.body.template, arguments);
      if built.Err? {
        return Err(InvalidInput), None;
      }
      var command := built.value;
      if !w.whitelisted(command) {
        return Err(CommandRejected), None;
      }
      if definition.body.sshOnly && !w.sshConfigured {
        return Err(ModeUnavailable), None;
      }
      executed := Some(command);
      var raw := w.runner(command);
      var success := raw.success && raw.exitCode == Some(0);
      var limit := definition.body.maxOutputBytes;
      var stdout, _ := Truncate(w.hideSecrets(raw.stdout), Some(limit));
      var stderr, _ := Truncate(w.hideSecrets(raw.stderr), Some(Min(limit, 2048)));
      audits := audits[k := LastAudits(AuditsOf(k) + [Audit(versionLabel, success, raw.exitCode)])];
      return Ok(Report(versionLabel, success, stdout, stderr)), executed;
    }
  }

  // The rules of the lifecycle include the template rules and the output bound.
  ghost predicate ChecksTemplates(rules: Rules, u: Unicode, policy: Policy) {
    forall b: Body :: rules.valid(b) ==>
      ValidTemplate(u, policy, b.template, b.declared) && 256 <= b.maxOutputBytes <= 65536
  }

  lemma GatedCommand(rules: Rules, policy: Policy, w: World, t: Tool, arguments: map<string, Argument>)
    requires ChecksTemplates(rules, w.u, policy) && rules.valid(t.body)
    requires Standard(w.u) && PlainBinaries(policy)
    requires Gate(w, Some(t), arguments).Ok?
    ensures var command := Gate(w, Some(t), arguments).value;
      var ts, values := Tokenize(t.body.template), Values(w.u, arguments);
      && PassesGates(t) && w.whitelisted(command)
      && command == Fill(ts, values)
      && Split(command) == FillEach(Words(ts), values)
      && 1 <= |Split(command)| == |Split(t.body.template)| <= MAX_TEMPLATE_WORDS
      && Split(command)[0] == Split(t.body.template)[0] && Split(command)[0] in policy.binaries
  {
    SubstitutionIsSimultaneous(w.u, policy, t.body.template, t.body.declared, arguments);
    BuiltCommand(w.u, policy, t.body.template, t.body.declared, arguments);
  }

  // From creation to the shell: in every reachable store, a command that passes the chain
  // belongs to an active tool that was approved earlier; it is the stored template with
  // all its slots filled at once, word for word, under an allowed binary.
  lemma ExecutedCommand(rules: Rules, order: Order, events: seq<Event>, policy: Policy, w: World,
                        k: Key, arguments: map<string, Argument>)
    requires ChecksTemplates(rules, w.u, policy) && Standard(w.u) && PlainBinaries(policy)
    requires Gate(w, ToolAt(Run(rules, order, events), k), arguments).Ok?
    ensures var t := Run(rules, order, events)[k];
      var command := Gate(w, Some(t), arguments).value;
      var words, values := Words(Tokenize(t.body.template)), Values(w.u, arguments);
      && t.status == Active && WasApproved(rules, order, events, k)
      && command == Fill(Tokenize(t.body.template), values)
      && Split(command) == FillEach(words, values)
      && |Split(command)| == |Split(t.body.template)| > 0
      && Split(command)[0] == Split(t.body.template)[0] && Split(command)[0] in policy.binaries
  {
    var tools := Run(rules, order, events);
    RunIsGood(rules, order, events);
    assert Good(rules, tools[k]);
    GatedCommand(rules, policy, w, tools[k], arguments);
    ActiveWasApproved(rules, order, events, k);
  }

  // Whatever a tool in a reachable store prints, the report keeps its byte budget.
  lemma {:induction false} ReportKeepsBudget(rules: Rules, order: Order, events: seq<Event>, u: Unicode, policy: Policy,
                          k: Key, out: seq<CodePoint>)
    requires ChecksTemplates(rules, u, policy) && k in Run(rules, order, events)
    ensures var budget := Run(rules, order, events)[k].body.maxOutputBytes;
      && |Encode(Replaced(Clipped(out, Some(budget))))| <= budget + |TRUNCATED|
      && |Encode(Replaced(Clipped(out, Some(Min(budget, 2048)))))| <= 2048 + |TRUNCATED|
  {
    RunIsGood(rules, order, events);
    var t := Run(rules, order, events)[k];
    assert Good(rules, t);
    ClippedLength(out, t.body.maxOutputBytes);
    ClippedLength(out, Min(t.body.maxOutputBytes, 2048));
  }

  // ---- Which definition runs ----

  // The chain runs the stored body, and only creating a tool or a version stores one: no
  // activation and no rollback brings an earlier body back.
  lemma BodyIsTheLastStored(rules: Rules, order: Order, tool: Tool, c: Command)
    ensures var o := Step(rules, order, Some(tool), c);
      && o.tool.Some?
      && (o.tool.value.body != tool.body ==> c.CreateVersion? && o.tool.value.body == c.newBody)
      && (c.CreateVersion? && (o.error.None? || o.error == Some(VersionLimit)) ==> o.tool.value.body == c.newBody)
  {
  }

  // A new version of an active tool is said to wait for its activation. Its body is run at
  // once: the gates stay open, the active version stays what it was, the body is the new one.
  lemma NewVersionRunsAtOnce(rules: Rules, order: Order, tool: Tool, body: Body, version: string)
    requires Good(rules, tool) && tool.status == Active
    requires Step(rules, order, Some(tool), CreateVersion(body, version)).error.None?
    ensures var t := Step(rules, order, Some(tool), CreateVersion(body, version)).tool.value;
      && PassesGates(t) && t.body == body
      && ActiveName(t.versions) == ActiveName(tool.versions) != version
  {
    var v := Version(version, body, ActiveOrEmpty(tool.versions), false);
    SnapshotKeepsActive(tool.versions, v);
    ActiveIsListed(tool.versions);
  }

  lemma {:induction false} ActiveIsListed(versions: seq<Version>)
    requires HasActive(versions)
    ensures HasVersion(versions, ActiveName(versions))
  {
    if versions[0].active {
      assert versions[0].name == ActiveName(versions);
    } else {
      HasActiveTail(versions);
      var rest := versions[1..];
      ActiveIsListed(rest);
      var i :| 0 <= i < |rest| && rest[i].name == ActiveName(rest);
      assert versions[i + 1].name == ActiveName(versions);
    }
  }
}
