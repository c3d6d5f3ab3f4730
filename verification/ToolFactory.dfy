// The in-memory repository and the service of the tool factory, on mutable records:
// app/tool_factory/repository.py and app/tool_factory/service.py. The three dictionaries
// keyed by organization and name (definitions, versions, activations) are one record a
// tool here. Each service method does one step of ToolLifecycle to one tool.
module ToolFactory {
  import opened Wrappers
  import opened ToolLifecycle
  import opened ToolRuns

  class ToolRecord {
    const key: Key
    var body: Body
    var version: string
    var status: Status
    var enabled: bool
    var versions: seq<Version>
    var log: seq<Activation>

    constructor (key: Key, body: Body, version: string)
      ensures this.key == key && View() == Tool(body, version, Validated, false, [], [])
    {
      this.key, this.body, this.version := key, body, version;
      status, enabled, versions, log := Validated, false, [], [];
    }

    function View(): Tool
      reads this
    {
      Tool(body, version, status, enabled, versions, log)
    }

    method SaveVersion(v: Version)
      requires !HasVersion(versions, v.name)
      modifies this`versions
      ensures versions == old(versions) + [v]
    {
      versions := versions + [v];
    }

    // Flag exactly the version asked for; the stored definition follows.
    method SetActiveVersion(name: string)
      modifies this`versions, this`version
      ensures versions == SetActive(old(versions), name) && version == name
    {
      for i := 0 to |versions|
        invariant |versions| == |old(versions)| && version == old(version)
        invariant forall j | 0 <= j < |versions| ::
          versions[j] == if j < i then old(versions)[j].(active := old(versions)[j].name == name) else old(versions)[j]
      {
        versions := versions[i := versions[i].(active := versions[i].name == name)];
      }
      version := name;
    }

    method GetActiveVersion() returns (v: Option<Version>)
      ensures v.None? <==> !HasActive(versions)
      ensures v.Some? ==> v.value.name == ActiveName(versions)
    {
      assert versions[0..] == versions;
      for i := 0 to |versions|
        invariant forall j | 0 <= j < i :: !versions[j].active
        invariant HasActive(versions) ==>
          HasActive(versions[i..]) && ActiveName(versions) == ActiveName(versions[i..])
      {
        if versions[i].active {
          assert versions[i..][0] == versions[i];
          return Some(versions[i]);
        }
        SkipInactive(versions, i);
      }
      return None;
    }

    method GetVersion(name: string) returns (v: Option<Version>)
      ensures v.None? <==> !HasVersion(versions, name)
      ensures v.Some? ==> v.value.name == name && v.value in versions
    {
      for i := 0 to |versions|
        invariant forall j | 0 <= j < i :: versions[j].name != name
      {
        if versions[i].name == name {
          return Some(versions[i]);
        }
      }
      return None;
    }

    method RecordActivation(a: Activation)
      modifies this`log
      ensures log == old(log) + [a]
    {
      log := log + [a];
    }
  }

  lemma SkipInactive(records: seq<Version>, i: nat)
    requires i < |records| && !records[i].active
    ensures HasActive(records[i..]) ==>
      HasActive(records[i + 1..]) && ActiveName(records[i..]) == ActiveName(records[i + 1..])
  {
    assert records[i..][0] == records[i] && records[i..][1..] == records[i + 1..];
    if HasActive(records[i..]) {
      var a :| 0 <= a < |records[i..]| && records[i..][a].active;
      assert records[i + 1..][a - 1].active;
    }
  }

  // Step on a stored tool, command by command.
  lemma StepUnfolds(rules: Rules, order: Order, t: Tool, c: Command)
    requires !c.Create?
    ensures Step(rules, order, Some(t), c) ==
      match c
      case Approve => DoApprove(rules, t)
      case Reject => Done(t.(status := Rejected))
      case CreateVersion(body, version) => DoCreateVersion(rules, t, body, version)
      case Activate(version) => DoActivate(t, version)
      case Deactivate => DoDeactivate(t)
      case Rollback => DoRollback(t, order)
      case SetEnabled(enabled) => DoSetEnabled(t, enabled)
  {
  }

  class Service {
    const rules: Rules
    const order: Order
    var records: map<Key, ToolRecord>

    constructor (rules: Rules, order: Order)
      ensures Valid() && records == map[] && this.rules == rules && this.order == order
    {
      this.rules, this.order, records := rules, order, map[];
    }

    // A record stands under its own key, so no two keys share one.
    ghost predicate Valid()
      reads this, records.Values
    {
      forall k | k in records :: records[k].key == k
    }

    ghost function Tools(): map<Key, Tool>
      reads this, records.Values
    {
      map k | k in records :: records[k].View()
    }

    ghost function At(k: Key): Option<Tool>
      reads this, records.Values
    {
      if k in records then Some(records[k].View()) else None
    }

    // A call that does one step of the tool at k and leaves the other records alone is one
    // step of the store.
    twostate lemma OneStepOfTheStore(e: Event)
      requires old(Valid()) && Valid()
      requires At(e.key) == Step(rules, order, old(At(e.key)), e.command).tool
      requires records.Keys == old(records).Keys + (if At(e.key).Some? then {e.key} else {})
      requires forall l | l in old(records) && l != e.key :: records[l].View() == old(records[l].View())
      ensures Tools() == Stored(old(Tools()), e.key, StepAt(rules, order, old(Tools()), e).tool)
    {
    }

    // The records a command on k may write.
    function RecordAt(k: Key): set<ToolRecord>
      reads this
    {
      if k in records then {records[k]} else {}
    }

    method CreateTool(k: Key, body: Body, version: string) returns (error: Option<Error>)
      requires Valid()
      modifies this
      ensures Valid()
      ensures var o := Step(rules, order, old(At(k)), Create(body, version)); error == o.error && At(k) == o.tool
      ensures forall l | l in old(records) :: l in records && records[l] == old(records)[l]
      ensures records.Keys == old(records).Keys + (if At(k).Some? then {k} else {})
    {
      if !rules.valid(body) {
        return Some(Invalid);
      }
      if k in records {
        return Some(Duplicate);
      }
      var definition := new ToolRecord(k, body, version);
      records := records[k := definition];
      error := SnapshotVersion(definition);
    }

    // _snapshot_version
    method SnapshotVersion(definition: ToolRecord) returns (error: Option<Error>)
      requires !HasVersion(definition.versions, definition.version)
      modifies definition`versions
      ensures var o := Snapshot(old(definition.View())); error == o.error && definition.View() == o.tool.value
    {
      if |definition.versions| >= MAX_VERSIONS_PER_TOOL {
        return Some(VersionLimit);
      }
      var active := definition.GetActiveVersion();
      var previous := if active.None? then "" else active.value.name;
      definition.SaveVersion(Version(definition.version, definition.body, previous, false));
      return None;
    }

    method ApproveTool(k: Key) returns (error: Option<Error>)
      requires Valid()
      modifies RecordAt(k)
      ensures Valid()
      ensures var o := Step(rules, order, old(At(k)), Approve); error == o.error && At(k) == o.tool
    {
      if k !in records {
        return Some(NotFound);
      }
      var definition := records[k];
      StepUnfolds(rules, order, definition.View(), Approve);
      if !rules.valid(definition.body) {
        return Some(Invalid);
      }
      if definition.status != Validated && definition.status != Rejected {
        return Some(WrongStatus);
      }
      definition.status := Approved;
      return None;
    }

    method RejectTool(k: Key) returns (error: Option<Error>)
      requires Valid()
      modifies RecordAt(k)
      ensures Valid()
      ensures var o := Step(rules, order, old(At(k)), Reject); error == o.error && At(k) == o.tool
    {
      if k !in records {
        return Some(NotFound);
      }
      records[k].status := Rejected;
      return None;
    }

    // The new definition is stored before its version is.
    method CreateToolVersion(k: Key, body: Body, version: string) returns (error: Option<Error>)
      requires Valid()
      modifies RecordAt(k)
      ensures Valid()
      ensures var o := Step(rules, order, old(At(k)), CreateVersion(body, version));
        error == o.error && At(k) == o.tool
    {
      if k !in records {
        return Some(NotFound);
      }
      var current := records[k];
      StepUnfolds(rules, order, current.View(), CreateVersion(body, version));
      if !rules.semantic(version) {
        return Some(NotSemantic);
      }
      if !rules.valid(body) {
        return Some(Invalid);
      }
      var existing := current.GetVersion(version);
      if existing.Some? {
        return Some(VersionExists);
      }
      current.body, current.version := body, version;
      error := SnapshotVersion(current);
    }

    method ActivateToolVersion(k: Key, version: string) returns (error: Option<Error>)
      requires Valid()
      modifies RecordAt(k)
      ensures Valid()
      ensures var o := Step(rules, order, old(At(k)), Activate(version)); error == o.error && At(k) == o.tool
    {
      if k !in records {
        return Some(NotFound);
      }
      var definition := records[k];
      StepUnfolds(rules, order, definition.View(), Activate(version));
      var target := definition.GetVersion(version);
      if target.None? {
        return Some(VersionNotFound);
      }
      if definition.status != Approved && definition.status != Active && definition.status != Disabled {
        return Some(NotApproved);
      }
      var previous := definition.GetActiveVersion();
      var previousVersion := if previous.None? then "" else previous.value.name;
      definition.SetActiveVersion(version);
      definition.status := Active;
      definition.enabled := true;
      definition.RecordActivation(Activation(version, Activated, previousVersion));
      return None;
    }

    method DeactivateTool(k: Key) returns (error: Option<Error>)
      requires Valid()
      modifies RecordAt(k)
      ensures Valid()
      ensures var o := Step(rules, order, old(At(k)), Deactivate); error == o.error && At(k) == o.tool
    {
      if k !in records {
        return Some(NotFound);
      }
      var definition := records[k];
      StepUnfolds(rules, order, definition.View(), Deactivate);
      var active := definition.GetActiveVersion();
      if active.None? {
        return Some(NoActiveVersion);
      }
      var name := active.value.name;
      definition.enabled := false;
      definition.status := Disabled;
      definition.RecordActivation(Activation(name, Deactivated, name));
      return None;
    }

    method RollbackTool(k: Key) returns (error: Option<Error>)
      requires Valid()
      modifies RecordAt(k)
      ensures Valid()
      ensures var o := Step(rules, order, old(At(k)), Rollback); error == o.error && At(k) == o.tool
    {
      if k !in records {
        return Some(NotFound);
      }
      var definition := records[k];
      StepUnfolds(rules, order, definition.View(), Rollback);
      var listed := Listed(definition.log, order);
      if forall i | 0 <= i < |listed| :: !IsSwitch(listed[i]) {
        return Some(NoHistory);
      }
      var active := definition.GetActiveVersion();
      var current := if active.None? then "" else active.value.name;
      var target := PickTarget(listed, current);
      if target == "" {
        return Some(NoPriorVersion);
      }
      StepUnfolds(rules, order, definition.View(), Activate(target));
      error := ActivateToolVersion(k, target);
      if error == None {
        definition.RecordActivation(Activation(target, RolledBack, current));
      }
    }

    // The loop over the history; "" stands for no target.
    static method PickTarget(listed: seq<Activation>, current: string) returns (target: string)
      ensures var other := FirstOther(listed, current); target == if other.Some? then other.value else ""
    {
      target := "";
      assert listed[0..] == listed;
      for i := 0 to |listed|
        invariant target == "" && FirstOther(listed, current) == FirstOther(listed[i..], current)
      {
        assert listed[i..][0] == listed[i] && listed[i..][1..] == listed[i + 1..];
        if IsSwitch(listed[i]) && listed[i].version != current {
          return listed[i].version;
        }
      }
    }

    method SetToolEnabled(k: Key, enabled: bool) returns (error: Option<Error>)
      requires Valid()
      modifies RecordAt(k)
      ensures Valid()
      ensures var o := Step(rules, order, old(At(k)), SetEnabled(enabled)); error == o.error && At(k) == o.tool
    {
      if k !in records {
        return Some(NotFound);
      }
      var definition := records[k];
      StepUnfolds(rules, order, definition.View(), SetEnabled(enabled));
      var active := definition.GetActiveVersion();
      if enabled && active.None? {
        return Some(NoActiveVersion);
      }
      definition.enabled := enabled;
      if enabled {
        definition.status := Active;
      } else if definition.status == Active {
        definition.status := Disabled;
      }
      return None;
    }

    // Any call of the service is one step of the store of which the run theorems speak.
    method Perform(e: Event) returns (error: Option<Error>)
      requires Valid()
      modifies this, RecordAt(e.key)
      ensures Valid()
      ensures error == StepAt(rules, order, old(Tools()), e).error
      ensures Tools() == Stored(old(Tools()), e.key, StepAt(rules, order, old(Tools()), e).tool)
    {
      match e.command {
        case Create(body, version) => error := CreateTool(e.key, body, version);
        case Approve => error := ApproveTool(e.key);
        case Reject => error := RejectTool(e.key);
        case CreateVersion(body, version) => error := CreateToolVersion(e.key, body, version);
        case Activate(version) => error := ActivateToolVersion(e.key, version);
        case Deactivate => error := DeactivateTool(e.key);
        case Rollback => error := RollbackTool(e.key);
        case SetEnabled(enabled) => error := SetToolEnabled(e.key, enabled);
      }
      OneStepOfTheStore(e);
    }
  }
}
