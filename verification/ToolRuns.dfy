// Runs over the whole organization-scoped store: any sequence of commands, for any tools
// of any organizations, from an empty repository.
module ToolRuns {
  import opened Wrappers
  import opened ToolLifecycle
  import opened ToolHistory

  datatype Key = Key(organization: string, name: string)

  datatype Event = Event(key: Key, command: Command)

  function ToolAt(tools: map<Key, Tool>, k: Key): Option<Tool> {
    if k in tools then Some(tools[k]) else None
  }

  function StepAt(rules: Rules, order: Order, tools: map<Key, Tool>, e: Event): Outcome {
    Step(rules, order, ToolAt(tools, e.key), e.command)
  }

  function Stored(tools: map<Key, Tool>, k: Key, tool: Option<Tool>): map<Key, Tool> {
    if tool.Some? then tools[k := tool.value] else tools
  }

  // The repository after a sequence of commands.
  function Run(rules: Rules, order: Order, events: seq<Event>): map<Key, Tool> {
    if events == [] then map[]
    else
      var tools := Run(rules, order, events[..|events| - 1]);
      Stored(tools, Last(events).key, StepAt(rules, order, tools, Last(events)).tool)
  }

  // In every reachable repository every tool is in good order.
  lemma {:induction false} RunIsGood(rules: Rules, order: Order, events: seq<Event>)
    ensures forall k | k in Run(rules, order, events) :: Good(rules, Run(rules, order, events)[k])
  {
    if events != [] {
      var before := events[..|events| - 1];
      RunIsGood(rules, order, before);
      var e := Last(events);
      StepKeepsGood(rules, order, ToolAt(Run(rules, order, before), e.key), e.command);
    }
  }

  // The commands on one tool, in order.
  function Only(events: seq<Event>, k: Key): seq<Event> {
    if events == [] then []
    else Only(events[..|events| - 1], k) + if Last(events).key == k then [Last(events)] else []
  }

  // What happens to a tool depends on the commands for that tool alone: nothing done to
  // other names or by other organizations shows in it.
  lemma {:induction false} ToolsAreIsolated(rules: Rules, order: Order, events: seq<Event>, k: Key)
    ensures ToolAt(Run(rules, order, events), k) == ToolAt(Run(rules, order, Only(events, k)), k)
  {
    if events != [] {
      var before, own := events[..|events| - 1], Only(events, k);
      ToolsAreIsolated(rules, order, before, k);
      if Last(events).key == k {
        assert own[..|own| - 1] == Only(before, k) && Last(own) == Last(events);
      } else {
        assert own == Only(before, k);
      }
    }
  }

  // The i-th command is an approval of this tool and succeeds.
  predicate ApprovesAt(rules: Rules, order: Order, events: seq<Event>, i: nat, k: Key) {
    && i < |events|
    && events[i] == Event(k, Approve)
    && StepAt(rules, order, Run(rules, order, events[..i]), events[i]).error.None?
  }

  predicate WasApproved(rules: Rules, order: Order, events: seq<Event>, k: Key) {
    exists i | 0 <= i < |events| :: ApprovesAt(rules, order, events, i, k)
  }

  lemma WasApprovedExtends(rules: Rules, order: Order, events: seq<Event>, k: Key)
    requires events != [] && WasApproved(rules, order, events[..|events| - 1], k)
    ensures WasApproved(rules, order, events, k)
  {
    var before := events[..|events| - 1];
    var i :| 0 <= i < |before| && ApprovesAt(rules, order, before, i, k);
    assert events[..i] == before[..i];
    assert ApprovesAt(rules, order, events, i, k);
  }

  predicate NeedsApproval(tool: Tool) {
    tool.status == Approved || HasActive(tool.versions)
  }

  // A tool that has an active version was approved earlier in the run.
  lemma {:induction false} ActiveWasApproved(rules: Rules, order: Order, events: seq<Event>, k: Key)
    requires var t := ToolAt(Run(rules, order, events), k); t.Some? && NeedsApproval(t.value)
    ensures WasApproved(rules, order, events, k)
  {
    var before := events[..|events| - 1];
    var tools, e := Run(rules, order, before), Last(events);
    var earlier := ToolAt(tools, k);
    RunIsGood(rules, order, before);
    if earlier.Some? && NeedsApproval(earlier.value) {
      ActiveWasApproved(rules, order, before, k);
      WasApprovedExtends(rules, order, events, k);
    } else {
      assert e.key == k;
      OnlyApprovalStarts(rules, order, earlier, e.command);
      assert events[|before|] == Event(k, Approve) && events[..|before|] == before;
      assert ApprovesAt(rules, order, events, |before|, k);
    }
  }

  lemma OnlyApprovalStarts(rules: Rules, order: Order, tool: Option<Tool>, c: Command)
    requires tool.Some? ==> Good(rules, tool.value) && !NeedsApproval(tool.value)
    requires var o := Step(rules, order, tool, c); o.tool.Some? && NeedsApproval(o.tool.value)
    ensures c == Approve && Step(rules, order, tool, c).error.None?
  {
    if tool.None? {
    } else {
      var t := tool.value;
      match c {
        case CreateVersion(body, version) =>
          SnapshotKeepsActive(t.versions, Version(version, body, ActiveOrEmpty(t.versions), false));
        case _ =>
      }
    }
  }

  // ---- Which body is stored ----

  // No command on the tool met the version limit.
  predicate NeverFull(rules: Rules, order: Order, events: seq<Event>, k: Key) {
    forall i | 0 <= i < |events| && events[i].key == k ::
      StepAt(rules, order, Run(rules, order, events[..i]), events[i]).error != Some(VersionLimit)
  }

  predicate NewestIsStored(t: Tool) {
    t.versions != [] && t.versions[|t.versions| - 1].body == t.body
  }

  lemma NeverFullBefore(rules: Rules, order: Order, events: seq<Event>, k: Key)
    requires events != [] && NeverFull(rules, order, events, k)
    ensures NeverFull(rules, order, events[..|events| - 1], k)
  {
    var before := events[..|events| - 1];
    forall i | 0 <= i < |before| && before[i].key == k
      ensures StepAt(rules, order, Run(rules, order, before[..i]), before[i]).error != Some(VersionLimit)
    {
      assert before[..i] == events[..i] && before[i] == events[i];
    }
  }

  lemma StepStoresNewest(rules: Rules, order: Order, tool: Option<Tool>, c: Command)
    requires tool.Some? ==> NewestIsStored(tool.value)
    requires Step(rules, order, tool, c).error != Some(VersionLimit)
    ensures var o := Step(rules, order, tool, c); o.tool.Some? ==> NewestIsStored(o.tool.value)
  {
  }

  predicate IsActiveBody(versions: seq<Version>, body: Body) {
    exists i | 0 <= i < |versions| :: versions[i].active && versions[i].body == body
  }

  // The body that runs is that of the newest version, whichever version is active, as long
  // as the version limit was never met: it is the active version's own snapshot exactly
  // when that snapshot equals the newest one.
  lemma {:induction false} NewestBodyRuns(rules: Rules, order: Order, events: seq<Event>, k: Key)
    requires k in Run(rules, order, events) && NeverFull(rules, order, events, k)
    ensures var t := Run(rules, order, events)[k];
      NewestIsStored(t) && (IsActiveBody(t.versions, t.body) <==> IsActiveBody(t.versions, Last(t.versions).body))
  {
    if events != [] {
      var before, e := events[..|events| - 1], Last(events);
      var tools := Run(rules, order, before);
      NeverFullBefore(rules, order, events, k);
      if k in tools { NewestBodyRuns(rules, order, before, k); }
      if e.key == k {
        assert events[..|before|] == before && events[|before|] == e;
        StepStoresNewest(rules, order, ToolAt(tools, k), e.command);
      }
    }
  }

  // The i-th command stores a new body, whether or not the version limit then refuses the
  // version record.
  predicate StoresAt(rules: Rules, order: Order, events: seq<Event>, i: nat, k: Key) {
    && i < |events| && events[i].key == k && events[i].command.CreateVersion?
    && StepAt(rules, order, Run(rules, order, events[..i]), events[i]).error in {None, Some(VersionLimit)}
  }

  // The last body stored from the i-th command on.
  function StoredSince(rules: Rules, order: Order, events: seq<Event>, i: nat, k: Key): Option<Body>
    requires i <= |events|
  {
    if i == |events| then None
    else if StoresAt(rules, order, events, |events| - 1, k) then Some(Last(events).command.newBody)
    else StoredSince(rules, order, events[..|events| - 1], i, k)
  }

  lemma StepKeepsBody(rules: Rules, order: Order, tool: Tool, c: Command)
    ensures var o := Step(rules, order, Some(tool), c);
      o.tool.Some? && o.tool.value.body
        == if c.CreateVersion? && o.error in {None, Some(VersionLimit)} then c.newBody else tool.body
  {
  }

  lemma {:induction false} BodySince(rules: Rules, order: Order, events: seq<Event>, i: nat, k: Key)
    requires i <= |events| && k in Run(rules, order, events[..i])
    ensures k in Run(rules, order, events)
    ensures var stored := StoredSince(rules, order, events, i, k);
      Run(rules, order, events)[k].body
        == if stored.Some? then stored.value else Run(rules, order, events[..i])[k].body
  {
    if i == |events| {
      assert events[..i] == events;
    } else {
      var before, e := events[..|events| - 1], Last(events);
      assert before[..i] == events[..i];
      BodySince(rules, order, before, i, k);
      StepKeepsBody(rules, order, Run(rules, order, before)[k], e.command);
    }
  }

  // What an approval validated is what runs later exactly when no version was stored since,
  // or the last one stored has the very body that was approved.
  lemma ApprovedBodyRunsIff(rules: Rules, order: Order, events: seq<Event>, i: nat, k: Key)
    requires ApprovesAt(rules, order, events, i, k)
    ensures k in Run(rules, order, events[..i]) && k in Run(rules, order, events)
    ensures var approved, stored := Run(rules, order, events[..i])[k].body, StoredSince(rules, order, events, i, k);
      && rules.valid(approved)
      && (Run(rules, order, events)[k].body == approved <==> stored.None? || stored.value == approved)
  {
    BodySince(rules, order, events, i, k);
  }

  // ---- Rejected tools ----

  // The one command that makes a rejected tool executable at once is an enabling, while an
  // active version is still on record.
  lemma RejectedBecomesActive(rules: Rules, order: Order, tool: Tool, c: Command)
    requires Good(rules, tool) && tool.status == Rejected
    ensures var o := Step(rules, order, Some(tool), c);
      PassesGates(o.tool.value) <==> c == SetEnabled(true) && HasActive(tool.versions)
  {
  }

  // A tool after a sequence of commands.
  function ToolAfter(rules: Rules, order: Order, tool: Tool, commands: seq<Command>): Tool {
    if commands == [] then tool
    else Step(rules, order, Some(ToolAfter(rules, order, tool, commands[..|commands| - 1])), Last(commands)).tool.value
  }

  // Two commands do it too, without any enabling: a deactivation takes the tool from
  // REJECTED to DISABLED, from where it may be activated again.
  lemma DeactivatingLiftsRejection(rules: Rules, order: Order, tool: Tool)
    requires Good(rules, tool) && HasActive(tool.versions)
    ensures PassesGates(ToolAfter(rules, order, tool, [Deactivate, Activate(ActiveName(tool.versions))]))
  {
    var name := ActiveName(tool.versions);
    var disabled := Step(rules, order, Some(tool), Deactivate).tool.value;
    assert HasVersion(disabled.versions, name);
    StepKeepsGood(rules, order, Some(tool), Deactivate);
    ActivateGood(rules, disabled, name);
    var commands := [Deactivate, Activate(name)];
    assert commands[..1] == [Deactivate] && [Deactivate][..0] == [];
    assert ToolAfter(rules, order, tool, [Deactivate]) == disabled;
  }

  lemma DormantStep(rules: Rules, order: Order, tool: Tool, c: Command)
    requires Good(rules, tool) && tool.status == Rejected && !HasActive(tool.versions) && c != Approve
    ensures var t := Step(rules, order, Some(tool), c).tool.value;
      Good(rules, t) && t.status == Rejected && !HasActive(t.versions)
  {
    StepKeepsGood(rules, order, Some(tool), c);
    if c.CreateVersion? {
      SnapshotKeepsActive(tool.versions, Version(c.newVersion, c.newBody, "", false));
    }
  }

  // Without an active version a rejected tool stays rejected until it is approved.
  lemma {:induction false} DormantStays(rules: Rules, order: Order, tool: Tool, commands: seq<Command>)
    requires Good(rules, tool) && tool.status == Rejected && !HasActive(tool.versions)
    requires Approve !in commands
    ensures var t := ToolAfter(rules, order, tool, commands);
      Good(rules, t) && t.status == Rejected && !HasActive(t.versions)
  {
    if commands != [] {
      var before := commands[..|commands| - 1];
      DormantStays(rules, order, tool, before);
      assert Last(commands) in commands;
      DormantStep(rules, order, ToolAfter(rules, order, tool, before), Last(commands));
    }
  }

  ghost predicate ReachableUnapproved(rules: Rules, order: Order, tool: Tool) {
    exists commands :: Approve !in commands && PassesGates(ToolAfter(rules, order, tool, commands))
  }

  // A rejected tool can become executable again without a new approval, by whatever
  // commands, exactly when it has an active version on record.
  lemma RejectionHoldsIff(rules: Rules, order: Order, tool: Tool)
    requires Good(rules, tool) && tool.status == Rejected
    ensures ReachableUnapproved(rules, order, tool) <==> HasActive(tool.versions)
  {
    if HasActive(tool.versions) {
      DeactivatingLiftsRejection(rules, order, tool);
      assert Approve !in [Deactivate, Activate(ActiveName(tool.versions))];
    } else {
      forall commands | Approve !in commands ensures !PassesGates(ToolAfter(rules, order, tool, commands)) {
        DormantStays(rules, order, tool, commands);
      }
    }
  }

  lemma RunOneMore(rules: Rules, order: Order, events: seq<Event>, e: Event)
    ensures var tools := Run(rules, order, events);
      Run(rules, order, events + [e]) == Stored(tools, e.key, StepAt(rules, order, tools, e).tool)
  {
    assert (events + [e])[..|events|] == events;
  }

  // Such tools come about: created, approved, activated and then rejected.
  lemma RejectedWhileActive(rules: Rules, order: Order, k: Key, body: Body, version: string)
    requires rules.valid(body)
    ensures var tools := Run(rules, order,
        [Event(k, Create(body, version)), Event(k, Approve), Event(k, Activate(version)), Event(k, Reject)]);
      k in tools && tools[k].status == Rejected && HasActive(tools[k].versions)
  {
    var create, approve := Event(k, Create(body, version)), Event(k, Approve);
    var activate, reject := Event(k, Activate(version)), Event(k, Reject);
    assert [] + [create] == [create] && [create] + [approve] == [create, approve];
    RunOneMore(rules, order, [], create);
    RunOneMore(rules, order, [create], approve);
    var created := Tool(body, version, Validated, false, [Version(version, body, "", false)], []);
    assert Run(rules, order, [create])[k] == created;
    RunOneMore(rules, order, [create, approve], activate);
    assert [create, approve] + [activate] == [create, approve, activate];
    var approved := created.(status := Approved);
    assert Run(rules, order, [create, approve])[k] == approved;
    assert approved.versions[0].name == version;
    var active := DoActivate(approved, version).tool.value;
    assert Run(rules, order, [create, approve, activate])[k] == active && active.versions[0].active;
    RunOneMore(rules, order, [create, approve, activate], reject);
    assert [create, approve, activate] + [reject] == [create, approve, activate, reject];
  }
}
